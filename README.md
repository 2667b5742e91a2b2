# typedoc-plugin-missing-check, modelled in Dafny

The `MissingCheckPlugin` TypeDoc plugin runs once, after TypeDoc has resolved a project
into a tree of reflections. For every reflection it decides whether documentation is
missing, logs one error line for each such reflection, and finally logs a summary with
the number of failures. A reflection fails when all three of these hold:

1. its kind chain (the `::`-joined `kindString`s from the root down to it) does not
   mention a type literal or a type alias, and is not one of eight fixed chains;
2. its effective visibility flags fall within the configured scope level
   (`public`, `protected` or `private`). A call signature uses its parent's flags, a
   parameter uses its grandparent's, and every other reflection uses its own;
3. its comment is absent, or both of the comment's texts are empty.

The model has four modules:

- `JsRuntime` (`js_runtime.dfy`): the JavaScript operations the plugin calls.
  `Array.join` and `Array.reverse`, `String.includes`, and the decimal rendering of a
  number in a template string. Beside them is a decimal reader that proves the
  rendering reads back.
- `TypeDocModels` (`typedoc_models.dfy`): the reflection tree as the plugin sees it.
  It is a map from reflection id to reflection, with parent links given by id. Each
  reflection has its kind bits, optional `kindString`, name, `isProtected`/`isPrivate`
  flags, optional comment (`shortText`, `text`) and optional sources. `WellFormed` asks
  that every parent link lead to a smaller id. TypeDoc numbers reflections in the order
  it creates them, and it creates a parent before its children. This ranking makes the
  tree acyclic and serves as the termination measure of the upward walk.
- `MissingCheck` (`plugin.dfy`): the plugin's logic. The two parent-walking loops
  (`kindChainNames`, `kindChain`), `checkReflection` and the counting loop of
  `onConverterResolveEnd` are methods with the source's loops and step-by-step updates.
  Each is proved equal to a specification function: `Chain`, `Fails` with `CheckLog`,
  `CountFailures` with `RunLog`. `shouldCheck` and `format` are functions, as in the
  source.
- `MissingCheckProperties` (`plugin_properties.dfy`): the lemmas about those
  functions.

The tree is read-only input. Logger output is modelled as a returned sequence of
`LogEntry` values (level and message). `JSON.stringify` is an opaque parameter: a
`Json` value holding one function for the record and one for the comment.

Behaviours of `src/plugin.ts` that a reader might not expect, all kept by the model:

- A reflection without a `kindString` has the empty kind chain `""`. That chain
  matches no exclusion rule, so the reflection still goes through the comment test.
- A reflection with no sources and no parent sources gets `location` undefined, and
  its logged line then shows the text `undefined` where the location goes.
- Visibility is read from the two flags `isProtected` and `isPrivate` alone.
- The eight excluded chains are exactly the literals of `src/plugin.ts:135-148`.
- The summary line is reproduced as written. There is no space between
  `documentation.` and `Consider`.

## Model

| member | source | states |
|---|---|---|
| `MissingCheck.Chain` | src/plugin.ts:222-230 | a kind chain has at most depth + 1 elements, is empty exactly when the reflection itself has no label, and otherwise ends with the reflection's own label |
| `MissingCheck.KindChainNames` | src/plugin.ts:222-230 | the while loop that pushes truthy `kindString`s while walking up and then reverses returns exactly `Chain(t, id, NameLabel)` |
| `MissingCheck.KindChain` | src/plugin.ts:212-220 | the same loop over numeric kinds, stopping at kind 0, returns exactly `Chain(t, id, KindLabel)` |
| `MissingCheckProperties.ChainFollowsAncestors` | src/plugin.ts:222-230 | element `k` from the end of a chain is the label of the ancestor `k` levels up |
| `MissingCheckProperties.ChainStopsAtFirstGap` | src/plugin.ts:225 | the chain reaches the root, or it stops exactly at the first ancestor (or self) that has no label |
| `MissingCheckProperties.KindChainNamesStepsToParent` | src/plugin.ts:225-227 | each element of `kindChainNames` is the `kindString` of the parent of the reflection that gave the next element |
| `MissingCheckProperties.KindChainNamesEnds` | src/plugin.ts:222-230 | the name chain ends with the reflection's own truthy `kindString` and is empty when that is undefined or `""` |
| `TypeDocModels.Ancestor` | src/plugin.ts:217 | the ancestor `k` parent links up is a reflection of the tree exactly `k` levels closer to the root; `Depth` levels up is a root |
| `TypeDocModels.AncestorParent` | src/plugin.ts:227 | one more step up from an ancestor is that ancestor's parent |
| `MissingCheckProperties.ScopeTable` | src/plugin.ts:202-210 | `public` accepts exactly non-protected non-private flags, `protected` exactly non-private ones, `private` every combination, and any other scope string none |
| `MissingCheckProperties.ScopeLevelsNested` | src/plugin.ts:202-210 | acceptance under `public` implies it under `protected`, which implies it under `private` |
| `MissingCheckProperties.FailsMonotoneInScope` | src/plugin.ts:178-199 | a reflection that fails under `public` also fails under `protected`, and under `protected` also under `private` |
| `MissingCheckProperties.CountMonotoneInScope` | src/plugin.ts:116-122 | the failure count under `public` is at most that under `protected`, and that at most the count under `private` |
| `MissingCheckProperties.TypeShapesNeverReported` | src/plugin.ts:150-152 | a joined chain containing "Type literal" or "Type alias" never fails and logs nothing, whatever the comment, flags or scope |
| `MissingCheckProperties.UnderTypeShapeNeverReported` | src/plugin.ts:150-152 | a reflection whose chain has an element containing "Type literal" or "Type alias" (for example one below a type literal) never fails |
| `MissingCheckProperties.ListedChainsNeverReported` | src/plugin.ts:135-154 | a chain equal to an entry of either fixed list never fails and logs nothing |
| `MissingCheckProperties.ExtendedEntriesNotListed` | src/plugin.ts:135-148 | the lists match whole chains only: `Project::Class::Method` and `Module::Function` are listed, and their `::Call signature` extensions are not |
| `MissingCheckProperties.EffectiveFlagsRules` | src/plugin.ts:171-176 | a reflection with the call-signature bit and a parent uses the parent's flags; one without that bit but with the parameter bit uses its grandparent's when it has a parent and a grandparent, and its own otherwise; one with neither bit uses its own |
| `MissingCheckProperties.PrivateOwnerHidesParameter` | src/plugin.ts:171-178 | a parameter whose grandparent is private never fails under `public` or `protected` |
| `MissingCheckProperties.FailureCondition` | src/plugin.ts:178-190 | past the exclusions and inside the scope, a reflection fails exactly when its comment is absent or both its texts are empty |
| `MissingCheckProperties.DocumentedOrHiddenNeverFails` | src/plugin.ts:187-199 | a comment with any text never fails, and a reflection outside the scope never fails |
| `MissingCheckProperties.MissingReasonHint` | src/plugin.ts:181-184 | a missing comment gets a reason starting "Documentation comment missing for ", which ends with the `@module` hint exactly when the reflection is a module |
| `MissingCheckProperties.EmptyReasonIgnoresKind` | src/plugin.ts:187-188 | an empty comment gets a reason starting "Documentation comment empty for ", which is the same whatever the kind, so the module hint is never added |
| `MissingCheckProperties.LocationFallback` | src/plugin.ts:165-169 | the location is defined exactly when the reflection or its parent has sources; it uses the reflection's own sources first, has one entry per source, and entry `i` is `fileName:line:character` of source `i`, with both numbers in decimal |
| `JsRuntime.NatToString` | src/plugin.ts:166 | a line or column number renders as a non-empty string of decimal digits with no leading zero |
| `JsRuntime.NatToStringReadsBack` | src/plugin.ts:166 | the rendered numeral reads back as the number |
| `JsRuntime.JoinContainsElement` | src/plugin.ts:150-152 | a substring of one chain element is a substring of the joined chain |
| `TypeDocModels.KindBits` | src/plugin.ts:172-184 | a kind code has its own bit and no bit of a larger value, adding a bit's value to a kind without it sets it, and Module, call signature and parameter never test as one another |
| `TypeDocModels.KindOf` | src/plugin.ts:172-184 | `reflection.kindOf(mask)` for a one-bit mask: the bit of value `mask` is set in the kind code |
| `MissingCheck.KindChainText` | src/plugin.ts:150 | `kindChainNames(reflection).join("::")`: the name chain from the root down, with `::` between elements |
| `MissingCheck.IsTypeShape` | src/plugin.ts:152 | the chain text contains "Type literal" or "Type alias" |
| `MissingCheck.IsListed` | src/plugin.ts:135-154 | the chain text is exactly one of the three `Ignorable` or the five `UnhandledForNow` chains |
| `MissingCheck.Excluded` | src/plugin.ts:150-154 | one of the three early returns applies: a type shape, or a listed chain |
| `MissingCheck.Undocumented` | src/plugin.ts:181-187 | the comment is absent, or both its texts are empty (their lengths add up to 0) |
| `MissingCheck.Reported` | src/plugin.ts:156-192 | the filled-in `reflectionObj`: its location is `Location` and its chain `KindChainText`; it has a reason exactly when the comment is undocumented; that reason starts with `Reason`, and equals it when not verbose (when verbose, the record's dump is appended) |
| `MissingCheck.CheckLog` | src/plugin.ts:194 | nothing, or, when the reflection fails, one error line formatted from `Reported` |
| `MissingCheck.TemplateText` | src/plugin.ts:182-188 | a possibly undefined string in a template literal: the string, or `undefined` |
| `MissingCheck.LocationText` | src/plugin.ts:233 | `location` in a template literal: `undefined`, or the entries joined by "," |
| `MissingCheck.MissingReasonText` | src/plugin.ts:182 | "Documentation comment missing for <kind> named '<name>'." |
| `MissingCheck.EmptyReasonText` | src/plugin.ts:188 | "Documentation comment empty for <kind> named <name>", with no quotes and no full stop |
| `MissingCheck.SourceText` | src/plugin.ts:166 | one source as `fileName:line:character`, the numbers in decimal |
| `MissingCheck.SourceTexts` | src/plugin.ts:166-168 | the `sources.map(...)` of one reflection: one text per source, in order |
| `MissingCheck.ShouldCheck` | src/plugin.ts:202-210 | only `public`, `protected` and `private` accept anything; `private` accepts every flag combination; under `public` an accepted reflection is neither protected nor private, under `protected` it is not private |
| `MissingCheck.EffectiveFlags` | src/plugin.ts:171-176 | the flags used are the reflection's own, its parent's or its grandparent's, and its own whenever it has neither the call-signature nor the parameter bit |
| `MissingCheck.Location` | src/plugin.ts:165-169 | `location` is defined exactly when the reflection or its parent has sources, with one entry per source of whichever of the two is used |
| `MissingCheck.Reason` | src/plugin.ts:181-189 | a reason is set exactly when the comment is absent or both its texts are empty, and a set reason is never the empty string |
| `MissingCheck.Fails` | src/plugin.ts:150-199 | a failing reflection has a reason, its comment is absent or has two empty texts, and the scope level is one of the three known ones |
| `MissingCheck.Format` | src/plugin.ts:232-234 | the logged line starts with "(missing-check) ", the location text and a space, and contains the reason whenever one is set |
| `MissingCheck.SummaryMessage` | src/plugin.ts:125-126 | the summary starts with "Found ", the count in decimal and " errors", and ends with the `--missing-check-verbose` hint exactly when the run is not verbose |
| `MissingCheck.CountFailures` | src/plugin.ts:116-122 | the failure count is at most the number of reflections checked, and 0 when none of them fails |
| `MissingCheck.RunLog` | src/plugin.ts:111-129 | a disabled run logs exactly one line, at info level; every line of an enabled run has error level |
| `MissingCheckProperties.SignatureChains` | src/plugin.ts:222-230 | in a project with a class, a method and the method's call signature, the method's name chain is `Project`, `Class`, `Method` and the signature's is that followed by `Call signature` |
| `MissingCheckProperties.MethodChainJoin` | src/plugin.ts:150 | the method's chain joins to `Project::Class::Method` |
| `MissingCheckProperties.SignatureChainTexts` | src/plugin.ts:150 | in that tree the method's chain text is `Project::Class::Method`, and the signature's is the same followed by `::Call signature` |
| `MissingCheckProperties.SignatureChainNotExcluded` | src/plugin.ts:152-154 | `Project::Class::Method::Call signature` contains neither type-shape name and is on neither list |
| `MissingCheckProperties.ListedMethodSignatureStillReported` | src/plugin.ts:150-199 | in that tree, under `public`, the listed class method does not fail, but its undocumented call signature, which takes the method's flags, does |
| `JsRuntime.Join` | src/plugin.ts:150 | a non-empty array joins to a string that starts with its first element and ends with its last |
| `JsRuntime.JoinSnoc` | src/plugin.ts:150 | one more element at the end of a non-empty array adds the separator and that element at the end of the join |
| `JsRuntime.JoinCons` | src/plugin.ts:150 | one more element in front of a non-empty array adds that element and the separator in front of the join |
| `JsRuntime.Framed` | src/plugin.ts:233 | a string built as head, middle and tail starts with the head and contains the middle |
| `JsRuntime.ContainsInPrefix` | src/plugin.ts:152 | what a string contains, the string followed by anything contains too |
| `JsRuntime.ContainsInSuffix` | src/plugin.ts:152 | what a string contains, anything followed by the string contains too |
| `JsRuntime.Contains` | src/plugin.ts:152 | `String.prototype.includes`: `sub` occurs at some index of `s`; the empty string occurs in every string |
| `JsRuntime.NotContainsWithoutFirstChar` | src/plugin.ts:152 | a string that lacks the first character of `sub` does not contain `sub` |
| `JsRuntime.Reversed` | src/plugin.ts:229 | the reversed array has the same length, and element `i` is element `length - 1 - i` of the input |
| `MissingCheck.CheckReflection` | src/plugin.ts:132-200 | the step-by-step `checkReflection` returns exactly `Fails` and logs exactly `CheckLog`: nothing, or one error line formatted from the filled-in record |
| `MissingCheckProperties.CheckLogLine` | src/plugin.ts:192-196 | exactly one line is logged when the reflection fails and none otherwise; the line has error level, starts with "(missing-check) " followed by the reflection's location text (`undefined` when it has none) and a space, and contains the reason |
| `MissingCheck.RunStep` | src/plugin.ts:118-122 | one more turn of the loop adds 1 to the count exactly when the reflection fails, and adds that reflection's log to the log |
| `MissingCheck.RunLogEnabled` | src/plugin.ts:116-129 | an enabled run logs the failure lines and then, when the count is not 0, one error line with the summary |
| `MissingCheck.OnConverterResolveEnd` | src/plugin.ts:104-130 | when disabled, the count is 0 and only the notice is logged; otherwise the count is the number of listed reflections that fail, and the log is their lines plus the summary |
| `MissingCheckProperties.FailingAmongPush` | src/plugin.ts:118-121 | checking one more reflection adds it to the set of failing ones exactly when it fails |
| `MissingCheckProperties.CountIsFailingAmong` | src/plugin.ts:116-122 | over a list without repeats, the failure count is the size of the set of listed reflections that fail |
| `MissingCheckProperties.CountIsFailingReflections` | src/plugin.ts:118 | when the listed reflections are all of the tree's, each once, the count is the number of the tree's reflections that fail |
| `MissingCheck.FailureLines` | src/plugin.ts:118-122 | the lines logged while checking the listed reflections in order number exactly the failures, and every one has error level |
| `MissingCheckProperties.RunLogShape` | src/plugin.ts:111-129 | a disabled run logs only the notice; an enabled run logs nothing when nothing fails, and otherwise one line per failure followed by the summary with the count |

## Left out

- Option declarations and registration (`src/plugin.ts:22-44`, `70-74`), and event subscription (`src/plugin.ts:60-97`): host plumbing. The three option values are an `Options` input.
- `src/index.ts`: only the plugin `load` entry point calling the host.
- The logger: each call becomes a returned `LogEntry` (`logger.log` with no level is `Info`).
- `OnConverterResolveEnd`: returns its failure count, which the source keeps in a local variable. That count is what the host acts on through the logged error.
- `JSON.stringify` (`src/plugin.ts:192`, `233`): the serialiser belongs to another library. The model takes it as opaque functions, so nothing is claimed about the text of the verbose dump or of the serialised comment.
- `getFullName` and the `fullname` field of the record: they belong to TypeDoc and are only shown in the verbose dump, which is opaque anyway.
- `getReflectionsByKind(ReflectionKind.All)`: the reflections arrive as a sequence of ids from the caller, in the host's order. `CountIsFailingReflections` covers the case where that sequence lists every reflection of the tree once.
- `kindOf`: modelled as a test of one bit of the numeric kind. The bit values are TypeDoc's `ReflectionKind` ones for Module (2), call signature (4096) and parameter (32768). The model relies only on their being distinct single bits.
- Flags other than `isProtected` and `isPrivate` are not modelled: the plugin reads no others.
- String lengths: JavaScript counts UTF-16 code units where Dafny counts characters. The source only compares a sum of lengths with 0, and that test is the same under both counts.
- Source line and column numbers are natural numbers. Rendering a negative or fractional number is not modelled, nor the exponent form JavaScript uses from 1e21 upwards: `NatToString` writes every natural number in plain decimal.
