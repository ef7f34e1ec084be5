/** Errors as chains of wrapped causes, and the type-directed lookup that
    `errors.As` performs over such a chain.

    An error value is modelled by the causes it wraps: element 0 is the
    error itself and each following element is what the previous one
    unwraps to. The nil error is the empty chain. Matching is structural:
    a cause is recognised by its kind, never by its text.
 */
module ErrorChain {

  datatype Option<+T> = None | Some(value: T)

  /** The causes the live resolver knows about, plus everything else.
      Only the ResourceGroup CRD install error carries a payload, the text
      of the error it wraps, because that is the only field the resolver
      reads itself. */
  datatype Cause =
    | NoInventoryObjError
    | MultipleInventoryObjError
    | TimeoutError
    | ResourceGroupCRDInstallError(inner: string)
    | NoResourceGroupCRDError
    | InvExistsError
    | OtherError(msg: string)

  /** The six recognised error families, one per type the resolver asks
      `errors.As` for. */
  datatype Family =
    | NoInventoryObj
    | MultipleInventoryObj
    | Timeout
    | RGCRDInstall
    | NoRGCRD
    | InvExists

  type Error = seq<Cause>

  /** The family a cause belongs to; None for causes no resolver knows. */
  function FamilyOf(c: Cause): (r: Option<Family>)
    ensures r == Some(NoInventoryObj) <==> c.NoInventoryObjError?
    ensures r == Some(MultipleInventoryObj) <==> c.MultipleInventoryObjError?
    ensures r == Some(Timeout) <==> c.TimeoutError?
    ensures r == Some(RGCRDInstall) <==> c.ResourceGroupCRDInstallError?
    ensures r == Some(NoRGCRD) <==> c.NoResourceGroupCRDError?
    ensures r == Some(InvExists) <==> c.InvExistsError?
    ensures r.None? <==> c.OtherError?
  {
    match c
    case NoInventoryObjError => Some(NoInventoryObj)
    case MultipleInventoryObjError => Some(MultipleInventoryObj)
    case TimeoutError => Some(Timeout)
    case ResourceGroupCRDInstallError(_) => Some(RGCRDInstall)
    case NoResourceGroupCRDError => Some(NoRGCRD)
    case InvExistsError => Some(InvExists)
    case OtherError(_) => None
  }

  /** Whether some cause of family `f` occurs anywhere in the chain. */
  predicate Present(err: Error, f: Family) {
    exists i :: 0 <= i < |err| && FamilyOf(err[i]) == Some(f)
  }

  /** Whether the chain holds any cause the resolver recognises. */
  predicate Recognised(err: Error) {
    exists i :: 0 <= i < |err| && FamilyOf(err[i]).Some?
  }

  /** `errors.As(err, &target)` for a target of family `f`: walks the chain
      from the top and yields the first cause of that family. */
  function As(err: Error, f: Family): (r: Option<Cause>)
    ensures r.Some? <==> Present(err, f)
    ensures r.Some? ==> FamilyOf(r.value) == Some(f)
  {
    if err == [] then None
    else if FamilyOf(err[0]) == Some(f) then Some(err[0])
    else
      assert Present(err, f) <==> Present(err[1..], f) by {
        if Present(err, f) {
          var i :| 0 <= i < |err| && FamilyOf(err[i]) == Some(f);
          assert err[1..][i - 1] == err[i];
        }
      }
      As(err[1..], f)
  }

  /** What `As` extracts is the cause of that family nearest the top: the
      one at position `i` when no earlier position holds that family. */
  lemma {:induction false} AsFindsFirst(err: Error, f: Family, i: nat)
    requires i < |err| && FamilyOf(err[i]) == Some(f)
    requires forall j :: 0 <= j < i ==> FamilyOf(err[j]) != Some(f)
    ensures As(err, f) == Some(err[i])
  {
    if i > 0 {
      assert FamilyOf(err[0]) != Some(f);
      AsFindsFirst(err[1..], f, i - 1);
    }
  }

  /** What `As` extracts is an element of the chain with no cause of the
      same family above it. */
  lemma {:induction false} AsIsFirstInChain(err: Error, f: Family)
    requires Present(err, f)
    ensures exists i :: 0 <= i < |err| && err[i] == As(err, f).value
                        && forall j :: 0 <= j < i ==> FamilyOf(err[j]) != Some(f)
  {
    if FamilyOf(err[0]) != Some(f) {
      AsIsFirstInChain(err[1..], f);
      var i :| 0 <= i < |err[1..]| && err[1..][i] == As(err[1..], f).value
               && forall j :: 0 <= j < i ==> FamilyOf(err[1..][j]) != Some(f);
      assert err[i + 1] == As(err, f).value;
      forall j | 0 <= j < i + 1 ensures FamilyOf(err[j]) != Some(f) {
        if j > 0 { assert err[j] == err[1..][j - 1]; }
      }
    }
  }

  /** A chain in which no family is present holds no recognised cause. */
  lemma NothingPresentIsUnrecognised(err: Error)
    requires forall f :: !Present(err, f)
    ensures !Recognised(err)
  {
    forall i | 0 <= i < |err| ensures FamilyOf(err[i]).None? {
      forall f ensures FamilyOf(err[i]) != Some(f) {
        assert !Present(err, f);
      }
    }
  }

  lemma PresentIsRecognised(err: Error, f: Family)
    requires Present(err, f)
    ensures Recognised(err)
  {
    var i :| 0 <= i < |err| && FamilyOf(err[i]) == Some(f);
  }
}
