# kpt live error resolver, modelled in Dafny

This project models the resolver that kpt uses to explain errors raised by
its `kpt live` commands (`liveErrorResolver` in
`internal/errors/resolver/live.go`). When a command fails, the resolver
looks at the error and the chain of causes it wraps. It checks six known
error families in a fixed order:

1. no inventory object,
2. multiple inventory objects,
3. timeout,
4. ResourceGroup CRD install failure,
5. ResourceGroup CRD missing,
6. inventory information already present.

The first family found anywhere in the chain wins. Its message template is
rendered and returned with `true`. Only the timeout family also sets the
exit code, to 3. An error with none of the six families gives the zero
result and `false`, and the caller falls back to a generic message.

Layout:

- `error_chain.dfy` (module `ErrorChain`): an error is a sequence of
  causes. Element 0 is the error itself and each later element is what the
  previous one unwraps to; the nil error is the empty sequence. `As` is
  `errors.As`: the first cause of a given family, looked up by kind and
  never by text.
- `live.dfy` (module `LiveResolver`): the six templates (as ids with their
  text), the timeout exit code, `ResolvedResult`, and `Resolve`, written as
  the source's chain of `errors.As` checks. Beside it is a reference
  definition: `Winner`, the first family of the check order `Priority` that
  occurs in the chain. `Resolve`'s contract ties its result to `Winner`.
- `live_properties.dfy` (module `LiveResolverProperties`): lemmas on
  priority, per-family results, exit codes, unmatched errors, and
  insensitivity to where causes sit in the chain.

The template engine behind `ExecuteTemplate` is a parameter of `Resolve`.
It is `render: (TemplateId, TemplateArgs) -> string`, a pure function from
a template and a named argument bag to the message. Lemmas that need to
know what the engine does state that as a requirement on `render`.
`Verbatim` says a template comes out unchanged, which is what an engine
does with text that holds no actions. `CopiesLeadingText` says the engine
copies every stable leading piece of a template into the message
unchanged. A piece is stable when it holds no `{` and the character right
after it is neither white space nor `{`. Text before the first action is
copied as it is, except that a `{{-` action trims the white space directly
before it. So in the CRD install template, where "CRD.\n\n" is followed
by `{{- if` (live.go:54-56), the two line breaks never reach the message,
whatever `cause` holds. A stable piece ends before any such white space,
so the trimming never reaches into it.

Two facts about the code shape the model:

- `ResolvedResult.ExitCode` is a plain Go `int`. Its zero value 0 means "no
  override", so `ResolvedResult.exitCode` is an `int` and every family but
  the timeout leaves it at 0.
- The message comes from the template engine, so the resolver cannot
  promise a non-empty message by itself. Every template opens with
  "\nError: " followed by a capital letter, so that prefix is a stable
  piece of every template. `MatchedMessageNonEmpty` proves that, under
  `CopiesLeadingText`, every matched message starts with that prefix and
  so is not empty.

## Model

| member | source | states |
|---|---|---|
| `ErrorChain.FamilyOf` | internal/errors/resolver/live.go:83-126 | Each of the six error types maps to its own family. Every other cause maps to no family, and only the CRD install error carries the inner error that the resolver reads. |
| `ErrorChain.As` | internal/errors/resolver/live.go:83-84 | `errors.As` succeeds exactly when some cause of the family occurs anywhere in the chain, and what it extracts belongs to that family. |
| `ErrorChain.AsIsFirstInChain` | internal/errors/resolver/live.go:105-109 | The cause `errors.As` extracts is an element of the chain, and no cause of the same family sits above it. |
| `ErrorChain.AsFindsFirst` | internal/errors/resolver/live.go:105-109 | The cause `errors.As` extracts is the one of that family nearest the top of the chain. |
| `LiveResolver.TemplateText` | internal/errors/resolver/live.go:30-69 | The six template texts, as the source spells them. Each starts with a line break and "Error: ", so no template is empty. |
| `LiveResolver.Opening` | internal/errors/resolver/live.go:30-69 | The words each template opens with after "\nError: " start with a capital letter. |
| `LiveResolverProperties.PrefixIsStableLead` | internal/errors/resolver/live.go:30-69 | In every template the prefix "\nError: " holds no brace and is followed by a capital letter. So neither an action nor the trimming of a `{{-` can change it. |
| `LiveResolver.FirstPresent` | internal/errors/resolver/live.go:83-126 | Searching the check order gives the index of the first family present in the chain, and no family before it is present. If it finds nothing, no family of the order is present. |
| `LiveResolver.Winner` | internal/errors/resolver/live.go:83-128 | There is a winning family exactly when the chain holds a recognised cause, and the winner is present in the chain. |
| `LiveResolver.WinnerIsHighestPriority` | internal/errors/resolver/live.go:83-126 | A family wins if and only if it is present and no family checked before it is present. Both directions are proved. |
| `LiveResolver.WinnerInCheckOrder` | internal/errors/resolver/live.go:83-128 | The winner is what asking the six families one after another in source order gives, and none when all six are absent. |
| `LiveResolver.TemplateFor` | internal/errors/resolver/live.go:83-126 | Each family is rendered with its own template. Each template belongs to exactly one family, so no two families share a template. |
| `LiveResolver.ExitCodeFor` | internal/errors/resolver/live.go:71 | The exit code is `TimeoutErrorExitCode` (3) exactly for the timeout family, set at lines 97-103. Every other family leaves it at 0. |
| `LiveResolver.ArgsFor` | internal/errors/resolver/live.go:79-81 | Every family but CRD install gets the bag that binds only "err" to the whole error. CRD install gets a bag with only "cause", bound to the inner error text of a CRD install cause in the chain that no other CRD install cause precedes (lines 105-110). |
| `LiveResolver.Resolve` | internal/errors/resolver/live.go:78-129 | Returns `true` exactly when some cause in the chain is of a recognised family. The result is the winner's template rendered with the winner's argument bag and exit code. With no winner it is the zero result and `false`. |
| `LiveResolverProperties.EarliestCheckedFamilyWins` | internal/errors/resolver/live.go:83-126 | A present family with no earlier-checked family present decides the whole result, wherever its cause sits in the chain. |
| `LiveResolverProperties.LaterCheckedFamilyLoses` | internal/errors/resolver/live.go:83-126 | When two families are both present, the one checked later never wins. |
| `LiveResolverProperties.DeeperHigherPriorityCauseWins` | internal/errors/resolver/live.go:83-103 | A missing inventory object two levels down beats a timeout at the top of the chain. The result uses the no-inventory template and exit code 0. |
| `LiveResolverProperties.NoInventoryObjResolved` | internal/errors/resolver/live.go:83-88 | Any chain with a missing inventory object resolves to `true`. The message is the no-inventory template rendered over the whole error under "err", and the exit code is 0. |
| `LiveResolverProperties.NoInventoryObjMessageSaysUninitialized` | internal/errors/resolver/live.go:31-38 | With an engine that leaves action-free text unchanged, that message contains "Package uninitialized", the result is `true` and the exit code is 0. |
| `LiveResolverProperties.NoInventoryTemplateSaysUninitialized` | internal/errors/resolver/live.go:31-32 | The no-inventory template has "Package uninitialized" right after its "Error: " prefix. |
| `LiveResolverProperties.TimeoutResolved` | internal/errors/resolver/live.go:71 | A timeout with no inventory family present resolves to `true` with the timeout template over "err" and exit code 3 (lines 97-103 of the same file). |
| `LiveResolverProperties.CRDInstallBindsFirstCause` | internal/errors/resolver/live.go:105-112 | When the CRD install family wins, its template's bag holds only "cause", bound to the inner error text of the first CRD install cause in the chain, and the exit code is 0. |
| `LiveResolverProperties.OtherFamiliesBindWholeError` | internal/errors/resolver/live.go:79-81 | Every winning family other than CRD install renders its template over the bag that binds "err" to the whole error. |
| `LiveResolverProperties.ExitCodeThreeOnlyForTimeout` | internal/errors/resolver/live.go:83-128 | The exit code is always 3 or 0. It is 3 exactly when a timeout is present and neither inventory family is. Both directions are proved. |
| `LiveResolverProperties.UnrecognisedIsUnresolved` | internal/errors/resolver/live.go:128 | A chain of unrecognised causes resolves to the zero result and `false`, and so does the nil error. |
| `LiveResolverProperties.MatchedMessageNonEmpty` | internal/errors/resolver/live.go:78-129 | With an engine that copies a template's stable leading text, every matched message starts with "\nError: " and so is not empty. This holds for every bag, including the CRD install bag with an empty `cause`. |
| `LiveResolverProperties.SameFamiliesSameClassification` | internal/errors/resolver/live.go:78-129 | Two errors holding the same families get the same winner, the same matched flag and the same exit code. Order and repetition in the chain do not matter. |
| `LiveResolverProperties.AsLooksPastUnrecognisedWrapper` | internal/errors/resolver/live.go:83-84 | `errors.As` gives the same answer for an error and for that error wrapped in an unrecognised outer error. |
| `LiveResolverProperties.WrappingKeepsClassification` | internal/errors/resolver/live.go:78-129 | Wrapping an error in unrecognised context keeps its winner, matched flag and exit code. A CRD install failure also keeps its exact message. |

## Left out

- Registration through `init()` and `AddErrorResolver` (live.go:26-28): this is global start-up state, and the registry code is not part of this model. So is the registry's loop over resolvers.
- The Go `text/template` engine behind `ExecuteTemplate` is not part of this model. It is a parameter, and no template syntax (`printf`, `range`, `if`) is interpreted.
- Floating-point formatting of the timeout in seconds (`%.0f`) is not modelled. Neither is the concrete timeout scenario ("30 seconds", "2 out of 5 resources"), because it depends on the template engine.
- The concrete error types from cli-utils, `cmdutil` and `cmdliveinit` are opaque tags. Only the CRD install error carries a payload, the text of its inner error, because that is the one field `Resolve` itself reads.
- kpt's own `errors` package, which supplies `errors.As` here, is not part of this model. `As` follows the standard library's behaviour over a linear unwrap chain. Custom `As` methods and multi-error `Unwrap() []error` trees are left out.
- The timeout template reads `.err.Timeout` and similar fields of the error bound under "err", which is the top-level error rather than the matched cause. What the engine does when the top-level error is only a wrapper is outside the model.
- MatchedMessageNonEmpty: `ExecuteTemplate` and Go's `text/template` are not part of this model. The lemma assumes, as `CopiesLeadingText`, that the engine copies text before the first action unchanged, apart from the white space a `{{-` trims. It also assumes the engine does not fail on these templates.
- Resolve: the panic when a `ResourceGroupCRDInstallError` has a nil `Err` (live.go:109 calls `Err.Error()`) is not modelled. The payload `inner` is always a string, so this failure outcome has no counterpart in the model.
- Determinism and idempotence are not stated as lemmas. `Resolve` is a Dafny function with no state, so equal inputs give equal results by construction.
