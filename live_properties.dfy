/** Properties of the live error resolver: which family wins, what each
    family is rendered with, which exit code comes out, and what happens to
    errors the resolver does not know. */
module LiveResolverProperties {
  import opened ErrorChain
  import opened LiveResolver

  /** `sub` occurs in `s` as a contiguous piece. */
  ghost predicate Contains(s: string, sub: string) {
    exists i :: OccursAt(s, sub, i)
  }

  /** `sub` occurs in `s` starting at index `i`. */
  predicate OccursAt(s: string, sub: string, i: nat) {
    i + |sub| <= |s| && s[i..i + |sub|] == sub
  }

  /** The renderer reproduces the text of template `id` as it is, whatever
      the arguments; what a template engine does with text that holds no
      actions. */
  ghost predicate Verbatim(render: Renderer, id: TemplateId) {
    forall args :: render(id, args) == TemplateText(id)
  }

  /** Text holds no template action: not even a brace that could open one. */
  predicate ActionFree(p: string) {
    forall i :: 0 <= i < |p| ==> p[i] != '{'
  }

  /** The white space a `{{-` action trims from the text before it: space,
      horizontal tab, carriage return and newline. */
  predicate IsTrimmable(c: char) {
    c == ' ' || c == '\t' || c == '\r' || c == '\n'
  }

  /** `p` is an action-free leading piece of template `id`, and the
      character after it is neither trimmable white space nor a brace. So
      neither an action nor the trimming of a `{{-` can reach into `p`. */
  predicate StableLead(id: TemplateId, p: string) {
    var t := TemplateText(id);
    |p| < |t| && t[..|p|] == p && ActionFree(p)
    && !IsTrimmable(t[|p|]) && t[|p|] != '{'
  }

  /** The renderer copies every stable leading piece of a template into the
      message unchanged, whatever the arguments. Text before the first
      action is copied as it is, except for white space that a `{{-`
      directly after it trims. */
  ghost predicate CopiesLeadingText(render: Renderer) {
    forall id, args, p {:trigger LeadsWith(render(id, args), p)} ::
      StableLead(id, p) ==> LeadsWith(render(id, args), p)
  }

  /** The text after the error prefix of every template opens with a
      letter, so the prefix is a stable leading piece of each template. */
  lemma PrefixIsStableLead(id: TemplateId)
    ensures StableLead(id, ErrorPrefix)
  {
    var t := TemplateText(id);
    CapitalIsStable(t[|ErrorPrefix|]);
    PrefixIsActionFree();
  }

  /** The error prefix holds no brace. */
  lemma PrefixIsActionFree()
    ensures ActionFree(ErrorPrefix)
  {
  }

  /** A capital letter is neither trimmable white space nor a brace. */
  lemma CapitalIsStable(c: char)
    requires 'A' <= c <= 'Z'
    ensures !IsTrimmable(c) && c != '{'
  {
  }

  // ---------------------------------------------------------------------
  // Priority

  /** A present family that no earlier-checked family precedes decides the
      result, wherever in the chain its cause sits. */
  lemma EarliestCheckedFamilyWins(render: Renderer, err: Error, f: Family)
    requires Present(err, f)
    requires forall g :: Rank(g) < Rank(f) ==> !Present(err, g)
    ensures Resolve(render, err)
              == (ResolvedResult(render(TemplateFor(f), ArgsFor(f, err)), ExitCodeFor(f)), true)
  {
    WinnerIsHighestPriority(err, f);
    PresentIsRecognised(err, f);
  }

  /** Of two families present together, the one checked later never wins. */
  lemma LaterCheckedFamilyLoses(err: Error, f: Family, g: Family)
    requires Present(err, f) && Present(err, g) && Rank(f) < Rank(g)
    ensures Winner(err) != Some(g)
  {
    WinnerIsHighestPriority(err, g);
  }

  /** A timeout on top of the chain loses to a missing inventory object
      buried two levels down. */
  lemma DeeperHigherPriorityCauseWins(render: Renderer)
    ensures var err := [TimeoutError, OtherError("apply failed"), NoInventoryObjError];
            Resolve(render, err)
              == (ResolvedResult(render(NoInventoryObjErrorMsg, map["err" := ErrValue(err)]), 0), true)
  {
    var err := [TimeoutError, OtherError("apply failed"), NoInventoryObjError];
    assert FamilyOf(err[2]) == Some(NoInventoryObj);
  }

  // ---------------------------------------------------------------------
  // Family by family

  /** A missing inventory object is always reported, with the
      uninitialised-package template rendered over the whole error and no
      exit code override. */
  lemma NoInventoryObjResolved(render: Renderer, err: Error)
    requires Present(err, NoInventoryObj)
    ensures Resolve(render, err)
              == (ResolvedResult(render(NoInventoryObjErrorMsg, map["err" := ErrValue(err)]), 0), true)
  {
    EarliestCheckedFamilyWins(render, err, NoInventoryObj);
  }

  /** With a renderer that leaves action-free text alone, the message for a
      missing inventory object tells the user the package is uninitialised. */
  lemma NoInventoryObjMessageSaysUninitialized(render: Renderer, err: Error)
    requires Present(err, NoInventoryObj)
    requires Verbatim(render, NoInventoryObjErrorMsg)
    ensures Resolve(render, err).1
    ensures Resolve(render, err).0.exitCode == 0
    ensures Contains(Resolve(render, err).0.message, "Package uninitialized")
  {
    NoInventoryObjResolved(render, err);
    NoInventoryTemplateSaysUninitialized();
  }

  /** The uninitialised-package template names the problem right after its
      "Error: " prefix. */
  lemma NoInventoryTemplateSaysUninitialized()
    ensures OccursAt(TemplateText(NoInventoryObjErrorMsg), "Package uninitialized", 8)
  {
    var t := TemplateText(NoInventoryObjErrorMsg);
    assert t[8..8 + |"Package uninitialized"|] == "Package uninitialized";
  }

  /** A timeout with no inventory problem above it is reported with the
      timeout template over the whole error and exit code 3. */
  lemma TimeoutResolved(render: Renderer, err: Error)
    requires Present(err, Timeout)
    requires !Present(err, NoInventoryObj) && !Present(err, MultipleInventoryObj)
    ensures Resolve(render, err)
              == (ResolvedResult(render(TimeoutErrorMsg, map["err" := ErrValue(err)]), TimeoutErrorExitCode), true)
  {
    EarliestCheckedFamilyWins(render, err, Timeout);
  }

  /** The CRD install template sees only the text of the inner error of the
      first CRD install cause in the chain, bound to "cause". */
  lemma CRDInstallBindsFirstCause(render: Renderer, err: Error, i: nat)
    requires i < |err| && err[i].ResourceGroupCRDInstallError?
    requires forall j :: 0 <= j < i ==> !err[j].ResourceGroupCRDInstallError?
    requires !Present(err, NoInventoryObj) && !Present(err, MultipleInventoryObj) && !Present(err, Timeout)
    ensures Resolve(render, err)
              == (ResolvedResult(render(ResourceGroupCRDInstallErrorMsg,
                                        map["cause" := StringValue(err[i].inner)]), 0), true)
  {
    assert FamilyOf(err[i]) == Some(RGCRDInstall);
    EarliestCheckedFamilyWins(render, err, RGCRDInstall);
    AsFindsFirst(err, RGCRDInstall, i);
  }

  /** Every family but CRD install renders its template over the whole
      error, bound to "err". */
  lemma OtherFamiliesBindWholeError(render: Renderer, err: Error)
    requires Winner(err).Some? && Winner(err) != Some(RGCRDInstall)
    ensures Resolve(render, err).0.message
              == render(TemplateFor(Winner(err).value), map["err" := ErrValue(err)])
  {
  }

  // ---------------------------------------------------------------------
  // Exit codes

  /** Exit code 3 comes out exactly when the timeout family wins; every
      other outcome, matched or not, leaves the exit code at 0. */
  lemma ExitCodeThreeOnlyForTimeout(render: Renderer, err: Error)
    ensures var code := Resolve(render, err).0.exitCode;
            code == TimeoutErrorExitCode || code == 0
    ensures (Resolve(render, err).0.exitCode == TimeoutErrorExitCode) <==>
              (Present(err, Timeout) && !Present(err, NoInventoryObj)
                    && !Present(err, MultipleInventoryObj))
  {
    WinnerIsHighestPriority(err, Timeout);
    if Present(err, Timeout) {
      PresentIsRecognised(err, Timeout);
    }
  }

  // ---------------------------------------------------------------------
  // Unmatched errors

  /** An error holding none of the six families, the nil error included,
      is left unresolved with the zero result. */
  lemma UnrecognisedIsUnresolved(render: Renderer, err: Error)
    requires forall i :: 0 <= i < |err| ==> err[i].OtherError?
    ensures Resolve(render, err) == (Unresolved, false)
    ensures Resolve(render, []) == (Unresolved, false)
  {
  }

  /** With a renderer that copies stable leading text, a matched result
      always carries a message, and that message opens with the error
      prefix every template starts with. */
  lemma MatchedMessageNonEmpty(render: Renderer, err: Error)
    requires CopiesLeadingText(render)
    ensures Resolve(render, err).1 ==>
              LeadsWith(Resolve(render, err).0.message, ErrorPrefix)
              && Resolve(render, err).0.message != ""
  {
    if Resolve(render, err).1 {
      var f := Winner(err).value;
      PrefixIsStableLead(TemplateFor(f));
      assert LeadsWith(render(TemplateFor(f), ArgsFor(f, err)), ErrorPrefix);
    }
  }

  // ---------------------------------------------------------------------
  // Classification depends only on which families are present

  /** Two errors that hold the same families are classified alike: same
      winner, same matched flag, same exit code. */
  lemma SameFamiliesSameClassification(render: Renderer, e1: Error, e2: Error)
    requires forall f :: Present(e1, f) <==> Present(e2, f)
    ensures Winner(e1) == Winner(e2)
    ensures Resolve(render, e1).1 == Resolve(render, e2).1
    ensures Resolve(render, e1).0.exitCode == Resolve(render, e2).0.exitCode
  {
    if Winner(e1).Some? {
      var f := Winner(e1).value;
      WinnerIsHighestPriority(e1, f);
      WinnerIsHighestPriority(e2, f);
    } else if Winner(e2).Some? {
      var f := Winner(e2).value;
      WinnerIsHighestPriority(e1, f);
      WinnerIsHighestPriority(e2, f);
    }
  }

  /** `errors.As` looks past an outer error of no recognised family. */
  lemma AsLooksPastUnrecognisedWrapper(msg: string, err: Error, f: Family)
    ensures As([OtherError(msg)] + err, f) == As(err, f)
  {
    assert ([OtherError(msg)] + err)[1..] == err;
  }

  /** Wrapping an error in an unrecognised outer error (added context) does
      not change how it is classified, nor the message of a CRD install
      failure, whose template does not see the outer error. */
  lemma WrappingKeepsClassification(render: Renderer, msg: string, err: Error)
    ensures var wrapped := [OtherError(msg)] + err;
            Winner(wrapped) == Winner(err)
            && Resolve(render, wrapped).1 == Resolve(render, err).1
            && Resolve(render, wrapped).0.exitCode == Resolve(render, err).0.exitCode
    ensures Winner(err) == Some(RGCRDInstall) ==>
              Resolve(render, [OtherError(msg)] + err) == Resolve(render, err)
  {
    var wrapped := [OtherError(msg)] + err;
    forall f ensures Present(wrapped, f) <==> Present(err, f) {
      AsLooksPastUnrecognisedWrapper(msg, err, f);
    }
    SameFamiliesSameClassification(render, wrapped, err);
    AsLooksPastUnrecognisedWrapper(msg, err, RGCRDInstall);
  }
}
