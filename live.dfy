/** The resolver for errors raised by the `kpt live` commands.

    It looks for six error families in a fixed order anywhere in an error's
    chain of causes, and turns the first family it finds into a message
    rendered from that family's template. Only the timeout family also
    overrides the process exit code. An error with none of the six
    families is left unresolved, so that the caller falls back to a
    generic presentation.

    The template engine is not modelled: a renderer is passed in as a
    pure function from a template and an argument bag to the message.
 */
module LiveResolver {
  import opened ErrorChain

  // ---------------------------------------------------------------------
  // Templates and the renderer

  /** Values that may be bound in a template's argument bag. */
  datatype ArgValue = ErrValue(err: Error) | StringValue(s: string)

  type TemplateArgs = map<string, ArgValue>

  /** The six message templates of the resolver, named as in the source. */
  datatype TemplateId =
    | NoInventoryObjErrorMsg
    | MultipleInventoryObjErrorMsg
    | TimeoutErrorMsg
    | ResourceGroupCRDInstallErrorMsg
    | NoResourceGroupCRDMsg
    | InvInfoAlreadyExistsMsg

  /** The template engine: a template and named arguments to a message. */
  type Renderer = (TemplateId, TemplateArgs) -> string

  /** Every message template opens with a line break and "Error: ". */
  const ErrorPrefix: string := "\nError: "

  /** `p` is a leading piece of `s`. */
  predicate LeadsWith(s: string, p: string) {
    |p| <= |s| && s[..|p|] == p
  }

  /** The text of each template, as the source spells it: all six start
      with the error prefix followed by a capital letter, so none is empty. */
  function TemplateText(id: TemplateId): (t: string)
    ensures LeadsWith(t, ErrorPrefix) && t != ""
    ensures |t| > |ErrorPrefix| && 'A' <= t[|ErrorPrefix|] <= 'Z'
  {
    ErrorPrefix + Opening(id) + Remainder(id)
  }

  /** The words each template opens with, right after the prefix. */
  function Opening(id: TemplateId): (o: string)
    ensures |o| > 0 && 'A' <= o[0] <= 'Z'
  {
    match id
    case NoInventoryObjErrorMsg => "Package uninitialized"
    case MultipleInventoryObjErrorMsg => "Package has multiple inventory"
    case TimeoutErrorMsg => "Timeout after"
    case ResourceGroupCRDInstallErrorMsg => "Unable to install the"
    case NoResourceGroupCRDMsg => "The ResourceGroup CRD"
    case InvInfoAlreadyExistsMsg => "Inventory information has"
  }

  /** The rest of each template, after its opening words. */
  function Remainder(id: TemplateId): string {
    match id
    case NoInventoryObjErrorMsg =>
      ". Please run \"kpt live init\" command.\n"
      + "\n"
      + "The package needs to be initialized to "
      + "generate the template\n"
      + "which will store state for resource "
      + "sets. This state is\n"
      + "necessary to perform functionality such "
      + "as deleting an entire\n"
      + "package or automatically deleting "
      + "omitted resources (pruning).\n"
    case MultipleInventoryObjErrorMsg =>
      " object templates.\n"
      + "\nThe package should have one and only "
      + "one inventory object template.\n"
    case TimeoutErrorMsg =>
      " {{printf \"%.0f\" "
      + ".err.Timeout.Seconds}} seconds waiting "
      + "for {{printf \"%d\" (len "
      + ".err.TimedOutResources)}} out of "
      + "{{printf \"%d\" (len .err.Identifiers)}} "
      + "resources to reach condition {{ "
      + ".err.Condition}}:{{ printf \"\\n\" }}\n"
      + "\n{{- range .err.TimedOutResources}}\n"
      + "{{printf \"%s/%s %s %s\" "
      + ".Identifier.GroupKind.Kind "
      + ".Identifier.Name .Status .Message }}\n"
      + "{{- end}}\n"
    case ResourceGroupCRDInstallErrorMsg =>
      " ResourceGroup CRD.\n"
      + "\n{{- if gt (len .cause) 0 }}\n"
      + "{{ printf \"\\nDetails:\" }}\n"
      + "{{ printf \"%s\" .cause }}\n"
      + "{{- end }}\n"
    case NoResourceGroupCRDMsg =>
      " was not "
      + "found in the cluster. Please install it "
      + "either by using the "
      + "'--install-resource-group' flag or the "
      + "'kpt live install-resource-group' "
      + "command.\n"
    case InvInfoAlreadyExistsMsg =>
      " already been added to the package "
      + "Kptfile. Changing it after a package "
      + "has been applied to the cluster can "
      + "lead to undesired results. Use the "
      + "--force flag to suppress this error.\n"
  }

  /** Exit code the command line uses for a timed-out live operation. */
  const TimeoutErrorExitCode: int := 3

  // ---------------------------------------------------------------------
  // Results

  /** A message for the user and an exit code; exit code 0 means "no
      override", the zero value of the field. */
  datatype ResolvedResult = ResolvedResult(message: string, exitCode: int)

  /** The zero result, returned together with `false` when nothing matched. */
  const Unresolved: ResolvedResult := ResolvedResult("", 0)

  // ---------------------------------------------------------------------
  // What the resolver is meant to do, family by family

  /** The order in which the families are checked: earlier wins. */
  const Priority: seq<Family> :=
    [NoInventoryObj, MultipleInventoryObj, Timeout, RGCRDInstall, NoRGCRD, InvExists]

  /** The position of a family in `Priority`. */
  function Rank(f: Family): (r: nat)
    ensures r < |Priority| && Priority[r] == f
  {
    match f
    case NoInventoryObj => 0
    case MultipleInventoryObj => 1
    case Timeout => 2
    case RGCRDInstall => 3
    case NoRGCRD => 4
    case InvExists => 5
  }

  lemma RankOfPriority(i: nat)
    requires i < |Priority|
    ensures Rank(Priority[i]) == i
  {
  }

  /** Index in `order` of the first family present in the chain. */
  function FirstPresent(order: seq<Family>, err: Error): (r: Option<nat>)
    ensures r.Some? ==> r.value < |order| && Present(err, order[r.value])
    ensures r.Some? ==> forall j :: 0 <= j < r.value ==> !Present(err, order[j])
    ensures r.None? ==> forall j :: 0 <= j < |order| ==> !Present(err, order[j])
  {
    if order == [] then None
    else if Present(err, order[0]) then Some(0)
    else
      match FirstPresent(order[1..], err)
      case None => None
      case Some(k) => Some(k + 1)
  }

  /** The family whose template the resolver renders: the first family in
      check order that occurs anywhere in the chain. */
  function Winner(err: Error): (r: Option<Family>)
    ensures r.None? <==> !Recognised(err)
    ensures r.Some? ==> Present(err, r.value)
  {
    match FirstPresent(Priority, err)
    case None =>
      assert forall g :: !Present(err, g) by {
        forall g ensures !Present(err, g) { assert Priority[Rank(g)] == g; }
      }
      NothingPresentIsUnrecognised(err);
      None
    case Some(i) =>
      PresentIsRecognised(err, Priority[i]);
      Some(Priority[i])
  }

  /** The winner is the family present in the chain that no present family
      precedes in check order; where the family sits in the chain does not
      matter. */
  lemma WinnerIsHighestPriority(err: Error, f: Family)
    ensures Winner(err) == Some(f) <==>
              Present(err, f) && forall g :: Rank(g) < Rank(f) ==> !Present(err, g)
  {
    if Present(err, f) && forall g :: Rank(g) < Rank(f) ==> !Present(err, g) {
      var i := FirstPresent(Priority, err).value;
      RankOfPriority(i);
    }
    if Winner(err) == Some(f) {
      var i := FirstPresent(Priority, err).value;
      RankOfPriority(i);
      forall g | Rank(g) < Rank(f) ensures !Present(err, g) {
        assert Priority[Rank(g)] == g;
      }
    }
  }

  /** Searching `Priority` is the same as asking family after family in
      check order. */
  lemma WinnerInCheckOrder(err: Error)
    ensures Winner(err) ==
      if Present(err, NoInventoryObj) then Some(NoInventoryObj)
      else if Present(err, MultipleInventoryObj) then Some(MultipleInventoryObj)
      else if Present(err, Timeout) then Some(Timeout)
      else if Present(err, RGCRDInstall) then Some(RGCRDInstall)
      else if Present(err, NoRGCRD) then Some(NoRGCRD)
      else if Present(err, InvExists) then Some(InvExists)
      else None
  {
    if Winner(err).Some? {
      WinnerIsHighestPriority(err, Winner(err).value);
    }
  }

  /** The template of each family; each template belongs to exactly one
      family, so no two families share one. */
  function TemplateFor(f: Family): (t: TemplateId)
    ensures t == NoInventoryObjErrorMsg <==> f == NoInventoryObj
    ensures t == MultipleInventoryObjErrorMsg <==> f == MultipleInventoryObj
    ensures t == TimeoutErrorMsg <==> f == Timeout
    ensures t == ResourceGroupCRDInstallErrorMsg <==> f == RGCRDInstall
    ensures t == NoResourceGroupCRDMsg <==> f == NoRGCRD
    ensures t == InvInfoAlreadyExistsMsg <==> f == InvExists
  {
    match f
    case NoInventoryObj => NoInventoryObjErrorMsg
    case MultipleInventoryObj => MultipleInventoryObjErrorMsg
    case Timeout => TimeoutErrorMsg
    case RGCRDInstall => ResourceGroupCRDInstallErrorMsg
    case NoRGCRD => NoResourceGroupCRDMsg
    case InvExists => InvInfoAlreadyExistsMsg
  }

  /** The exit code of each family: the timeout code for timeouts, no
      override for the others. */
  function ExitCodeFor(f: Family): (code: int)
    ensures code == TimeoutErrorExitCode <==> f == Timeout
    ensures code != TimeoutErrorExitCode ==> code == 0
  {
    if f == Timeout then TimeoutErrorExitCode else 0
  }

  /** The argument bag a present family's template is rendered with: the
      CRD install family gets only the text of the first such cause's inner
      error, under "cause"; every other family gets the whole error under
      "err". */
  function ArgsFor(f: Family, err: Error): (args: TemplateArgs)
    requires Present(err, f)
    ensures f == RGCRDInstall ==>
              args.Keys == {"cause"} && args["cause"].StringValue?
              && exists i :: 0 <= i < |err| && err[i] == ResourceGroupCRDInstallError(args["cause"].s)
                             && forall j :: 0 <= j < i ==> !err[j].ResourceGroupCRDInstallError?
    ensures f != RGCRDInstall ==> args == map["err" := ErrValue(err)]
  {
    if f == RGCRDInstall then
      var c := As(err, RGCRDInstall).value;
      AsIsFirstInChain(err, RGCRDInstall);
      map["cause" := StringValue(c.inner)]
    else
      map["err" := ErrValue(err)]
  }

  // ---------------------------------------------------------------------
  // The resolver

  /** `liveErrorResolver.Resolve`: one `errors.As` check per family, in
      check order, returning on the first that succeeds. The result is the
      rendered template of the winning family with that family's exit
      code, or the zero result with `false` when no family is present. */
  function Resolve(render: Renderer, err: Error): (res: (ResolvedResult, bool))
    ensures res.1 <==> Recognised(err)
    ensures res == match Winner(err)
                   case None => (Unresolved, false)
                   case Some(f) => (ResolvedResult(render(TemplateFor(f), ArgsFor(f, err)), ExitCodeFor(f)), true)
  {
    var tmplArgs := map["err" := ErrValue(err)];
    WinnerInCheckOrder(err);
    if As(err, NoInventoryObj).Some? then
      (ResolvedResult(render(NoInventoryObjErrorMsg, tmplArgs), 0), true)
    else if As(err, MultipleInventoryObj).Some? then
      (ResolvedResult(render(MultipleInventoryObjErrorMsg, tmplArgs), 0), true)
    else if As(err, Timeout).Some? then
      (ResolvedResult(render(TimeoutErrorMsg, tmplArgs), TimeoutErrorExitCode), true)
    else if As(err, RGCRDInstall).Some? then
      var crdErr := As(err, RGCRDInstall).value;
      (ResolvedResult(render(ResourceGroupCRDInstallErrorMsg, map["cause" := StringValue(crdErr.inner)]), 0), true)
    else if As(err, NoRGCRD).Some? then
      (ResolvedResult(render(NoResourceGroupCRDMsg, tmplArgs), 0), true)
    else if As(err, InvExists).Some? then
      (ResolvedResult(render(InvInfoAlreadyExistsMsg, tmplArgs), 0), true)
    else
      (Unresolved, false)
  }
}
