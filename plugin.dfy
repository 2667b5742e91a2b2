/** The documentation check of `MissingCheckPlugin`: for each reflection of a resolved
    project, decide whether it is a "missing documentation" failure, log one line per
    failure and a summary, and count the failures. */
module MissingCheck {
  import opened TypeDocModels
  import opened JsRuntime

  // ---------------------------------------------------------------------------
  // Kind chains
  // ---------------------------------------------------------------------------

  /** What `kindChainNames` pushes for a reflection: its `kindString` when truthy. */
  function NameLabel(r: Reflection): Option<string>
  {
    if r.kindString.Some? && r.kindString.value != "" then Some(r.kindString.value) else None
  }

  /** What `kindChain` pushes for a reflection: its numeric kind when non-zero. */
  function KindLabel(r: Reflection): Option<KindCode>
  {
    if r.kind != 0 then Some(r.kind) else None
  }

  /** The labels of `id` and of its ancestors, root first, cut above the first
      reflection (starting from `id` itself) that has no label. */
  function Chain<T>(t: Tree, id: NodeId, labelOf: Reflection -> Option<T>): (chain: seq<T>)
    requires WellFormed(t) && id in t
    ensures |chain| <= Depth(t, id) + 1
    ensures chain == [] <==> labelOf(t[id]).None?
    ensures labelOf(t[id]).Some? ==> chain[|chain| - 1] == labelOf(t[id]).value
    decreases id + 1, 0
  {
    match labelOf(t[id])
    case None => []
    case Some(l) => ChainAbove(t, t[id].parent, labelOf) + [l]
  }

  /** The chain of the reflection `current` points at, or nothing past a root. */
  function ChainAbove<T>(t: Tree, current: Option<NodeId>, labelOf: Reflection -> Option<T>): seq<T>
    requires WellFormed(t) && (current.Some? ==> current.value in t)
    decreases if current.Some? then current.value + 1 else 0, 1
  {
    match current
    case None => []
    case Some(c) => Chain(t, c, labelOf)
  }

  /** `kindChainNames(reflection).join("::")`. */
  function KindChainText(t: Tree, id: NodeId): string
    requires WellFormed(t) && id in t
  {
    Join(Chain(t, id, NameLabel), "::")
  }

  /** `kindChainNames`: walk up the parent links while the current reflection has a
      truthy `kindString`, pushing each one, then reverse. */
  method KindChainNames(t: Tree, id: NodeId) returns (output: seq<string>)
    requires WellFormed(t) && id in t
    ensures output == Chain(t, id, NameLabel)
  {
    var pushed: seq<string> := [];
    var current: Option<NodeId> := Some(id);
    while current.Some? && t[current.value].kindString.Some? && t[current.value].kindString.value != ""
      invariant current.Some? ==> current.value in t
      invariant Chain(t, id, NameLabel) == ChainAbove(t, current, NameLabel) + Reversed(pushed)
      decreases if current.Some? then current.value + 1 else 0
    {
      var s := t[current.value].kindString.value;
      ReversedPush(pushed, s);
      pushed := pushed + [s];
      current := t[current.value].parent;
    }
    output := Reversed(pushed);
  }

  /** `kindChain`: the same walk over the numeric kinds, stopping at kind 0. */
  method KindChain(t: Tree, id: NodeId) returns (output: seq<KindCode>)
    requires WellFormed(t) && id in t
    ensures output == Chain(t, id, KindLabel)
  {
    var pushed: seq<KindCode> := [];
    var current: Option<NodeId> := Some(id);
    while current.Some? && t[current.value].kind != 0
      invariant current.Some? ==> current.value in t
      invariant Chain(t, id, KindLabel) == ChainAbove(t, current, KindLabel) + Reversed(pushed)
      decreases if current.Some? then current.value + 1 else 0
    {
      var k := t[current.value].kind;
      ReversedPush(pushed, k);
      pushed := pushed + [k];
      current := t[current.value].parent;
    }
    output := Reversed(pushed);
  }

  // ---------------------------------------------------------------------------
  // Exclusion rules
  // ---------------------------------------------------------------------------

  const TypeLiteralName := "Type literal"
  const TypeAliasName := "Type alias"

  /** Kind chains whose members inherit their documentation. */
  const Ignorable: seq<string> := [
    "Project::Class::Constructor",
    "Project::Class::Property",
    "Project::Class::Method"
  ]

  /** Kind chains the plugin does not handle yet. */
  const UnhandledForNow: seq<string> := [
    "Project::Class::Constructor::Constructor signature::Parameter",
    "Project::Class::Constructor::Constructor signature",
    "Module::Class::Constructor",
    "Module::Class::Method",
    "Module::Function"
  ]

  /** The substring rule: a type literal or a type alias somewhere in the chain. */
  predicate IsTypeShape(chain: string)
  {
    Contains(chain, TypeLiteralName) || Contains(chain, TypeAliasName)
  }

  /** The exact-membership rule over the two fixed lists. */
  predicate IsListed(chain: string)
  {
    chain in Ignorable || chain in UnhandledForNow
  }

  predicate Excluded(chain: string)
  {
    IsTypeShape(chain) || IsListed(chain)
  }

  // ---------------------------------------------------------------------------
  // Visibility
  // ---------------------------------------------------------------------------

  /** `shouldCheck`: whether flags fall inside the configured scope level. An
      unrecognised scope accepts nothing, `private` accepts everything, and what a
      narrower level accepts has no visibility flag beyond it. */
  predicate ShouldCheck(scopeLevel: string, flags: Flags): (r: bool)
    ensures r ==> scopeLevel == "public" || scopeLevel == "protected" || scopeLevel == "private"
    ensures scopeLevel == "private" ==> r
    ensures r && scopeLevel == "public" ==> !flags.isProtected && !flags.isPrivate
    ensures r && scopeLevel == "protected" ==> !flags.isPrivate
  {
    var publicLevel := !flags.isProtected && !flags.isPrivate;
    var protectedLevel := !flags.isPrivate;
    var privateLevel := true;
    (scopeLevel == "public" && publicLevel) ||
    (scopeLevel == "protected" && protectedLevel) ||
    (scopeLevel == "private" && privateLevel)
  }

  /** The flags the scope filter sees: a call signature's parent's, a parameter's
      grandparent's, otherwise the reflection's own. */
  function EffectiveFlags(t: Tree, id: NodeId): (flags: Flags)
    requires WellFormed(t) && id in t
    ensures var r := t[id];
      flags == r.flags ||
      (r.parent.Some? && flags == t[r.parent.value].flags) ||
      (r.parent.Some? && t[r.parent.value].parent.Some? && flags == t[t[r.parent.value].parent.value].flags)
    ensures !KindOf(t[id].kind, CallSignatureKind) && !KindOf(t[id].kind, ParameterKind) ==> flags == t[id].flags
  {
    var r := t[id];
    if KindOf(r.kind, CallSignatureKind) && r.parent.Some? then
      t[r.parent.value].flags
    else if KindOf(r.kind, ParameterKind) && r.parent.Some? && t[r.parent.value].parent.Some? then
      t[t[r.parent.value].parent.value].flags
    else
      r.flags
  }

  // ---------------------------------------------------------------------------
  // The failure condition
  // ---------------------------------------------------------------------------

  /** No comment at all, or one whose two texts are both empty. */
  predicate Undocumented(comment: Option<Comment>): (r: bool)
    ensures r <==> comment.None? || (comment.value.shortText == "" && comment.value.text == "")
  {
    comment.None? || |comment.value.shortText| + |comment.value.text| == 0
  }

  /** `checkReflection(...)` returns true. A failure always has a reason, an empty or
      absent comment, and a recognised scope level. */
  predicate Fails(t: Tree, id: NodeId, scopeLevel: string): (r: bool)
    requires WellFormed(t) && id in t
    ensures r ==> Reason(t[id]).Some?
    ensures r ==> t[id].comment.None? || (t[id].comment.value.shortText == "" && t[id].comment.value.text == "")
    ensures r ==> scopeLevel == "public" || scopeLevel == "protected" || scopeLevel == "private"
  {
    !Excluded(KindChainText(t, id)) &&
    ShouldCheck(scopeLevel, EffectiveFlags(t, id)) &&
    Undocumented(t[id].comment)
  }

  // ---------------------------------------------------------------------------
  // The record that is reported
  // ---------------------------------------------------------------------------

  /** The fields of `reflectionObj` that the model keeps (the full name is not kept). */
  datatype ReflectionObj = ReflectionObj(
    kind: Option<string>,
    kindChain: string,
    name: string,
    comment: Option<Comment>,
    flags: Flags,
    location: Option<seq<string>>,
    reason: Option<string>)

  /** The opaque `JSON.stringify` of a record and of a comment. */
  datatype Json = Json(record: ReflectionObj -> string, comment: Option<Comment> -> string)

  datatype LogLevel = Info | Error

  datatype LogEntry = LogEntry(level: LogLevel, message: string)

  /** A possibly undefined string inside a template literal. */
  function TemplateText(s: Option<string>): string
  {
    match s
    case None => "undefined"
    case Some(v) => v
  }

  /** `${fileName}:${line}:${character}`. */
  function SourceText(s: SourceReference): string
  {
    s.fileName + ":" + NatToString(s.line) + ":" + NatToString(s.character)
  }

  /** The `sources.map(...)` of one reflection: one text per source, in order. */
  function SourceTexts(sources: seq<SourceReference>): (texts: seq<string>)
    ensures |texts| == |sources|
  {
    seq(|sources|, i requires 0 <= i < |sources| => SourceText(sources[i]))
  }

  /** `location`: the reflection's own sources, else its parent's, else undefined. */
  function Location(t: Tree, id: NodeId): (location: Option<seq<string>>)
    requires WellFormed(t) && id in t
    ensures var r := t[id];
      location.Some? <==> r.sources.Some? || (r.parent.Some? && t[r.parent.value].sources.Some?)
    ensures var r := t[id];
      location.Some? ==>
        |location.value| == if r.sources.Some? then |r.sources.value| else |t[r.parent.value].sources.value|
  {
    var r := t[id];
    if r.sources.Some? then Some(SourceTexts(r.sources.value))
    else if r.parent.Some? && t[r.parent.value].sources.Some? then
      Some(SourceTexts(t[r.parent.value].sources.value))
    else None
  }

  const ModuleHint := " You may need to add a @module tag. http://typedoc.org/guides/doccomments/#files"

  function MissingReasonText(kind: Option<string>, name: string): string
  {
    "Documentation comment missing for " + TemplateText(kind) + " named '" + name + "'."
  }

  function EmptyReasonText(kind: Option<string>, name: string): string
  {
    "Documentation comment empty for " + TemplateText(kind) + " named " + name
  }

  /** The reason set for a reflection that passed the scope filter, before any
      verbose dump is appended. */
  function Reason(r: Reflection): (reason: Option<string>)
    ensures reason.Some? <==> Undocumented(r.comment)
    ensures reason.Some? ==> reason.value != ""
  {
    if r.comment.None? then
      Some(MissingReasonText(r.kindString, r.name) + (if KindOf(r.kind, ModuleKind) then ModuleHint else ""))
    else if |r.comment.value.shortText| + |r.comment.value.text| == 0 then
      Some(EmptyReasonText(r.kindString, r.name))
    else None
  }

  /** `reflectionObj` as it stands once `checkReflection` has filled it in for a
      reflection that passed the exclusion rules and the scope filter. */
  function Reported(t: Tree, id: NodeId, verbose: bool, json: Json): (reported: ReflectionObj)
    requires WellFormed(t) && id in t
    ensures reported.location == Location(t, id) && reported.kindChain == KindChainText(t, id)
    ensures reported.reason.Some? <==> Undocumented(t[id].comment)
    ensures reported.reason.Some? ==> StartsWith(reported.reason.value, Reason(t[id]).value)
    ensures !verbose ==> reported.reason == Reason(t[id])
  {
    var r := t[id];
    var obj := ReflectionObj(r.kindString, KindChainText(t, id), r.name, r.comment, r.flags,
                             Location(t, id), Reason(r));
    if obj.reason.Some? && obj.reason.value != "" && verbose then
      var dumped := obj.reason.value + json.record(obj);
      assert dumped[..|obj.reason.value|] == obj.reason.value;
      obj.(reason := Some(dumped))
    else obj
  }

  /** Array `location` inside a template literal: `undefined` or its elements joined by ",". */
  function LocationText(location: Option<seq<string>>): string
  {
    match location
    case None => "undefined"
    case Some(xs) => Join(xs, ",")
  }

  /** `format`: the line logged for a failure. It starts with the plugin's tag and
      carries the reason, when there is one. */
  function Format(obj: ReflectionObj, json: Json): (line: string)
    ensures StartsWith(line, "(missing-check) ")
    ensures StartsWith(line, "(missing-check) " + LocationText(obj.location) + " ")
    ensures obj.reason.Some? ==> Contains(line, obj.reason.value)
  {
    var head := "(missing-check) " + LocationText(obj.location) + " ";
    var shown := if obj.reason.Some? then obj.reason.value else TemplateText(obj.kind);
    var tail := " " + json.comment(obj.comment);
    Framed(head, shown, tail);
    assert head[..|"(missing-check) "|] == "(missing-check) ";
    head + shown + tail
  }

  /** What `checkReflection` logs for one reflection. */
  function CheckLog(t: Tree, id: NodeId, scopeLevel: string, verbose: bool, json: Json): seq<LogEntry>
    requires WellFormed(t) && id in t
  {
    if Fails(t, id, scopeLevel) then [LogEntry(Error, Format(Reported(t, id, verbose, json), json))] else []
  }

  /** `checkReflection`: apply the exclusion rules, fill in the record, pick the
      effective flags and, inside the scope, test the comment. */
  method CheckReflection(t: Tree, id: NodeId, scopeLevel: string, verbose: bool, json: Json)
    returns (failed: bool, logged: seq<LogEntry>)
    requires WellFormed(t) && id in t
    ensures failed == Fails(t, id, scopeLevel)
    ensures logged == CheckLog(t, id, scopeLevel, verbose, json)
  {
    var names := KindChainNames(t, id);
    var thisKindChain := Join(names, "::");
    assert thisKindChain == KindChainText(t, id);

    if Contains(thisKindChain, TypeLiteralName) || Contains(thisKindChain, TypeAliasName) {
      return false, [];
    }
    if thisKindChain in Ignorable {
      return false, [];
    }
    if thisKindChain in UnhandledForNow {
      return false, [];
    }

    var reflection := t[id];
    var obj := ReflectionObj(reflection.kindString, thisKindChain, reflection.name,
                             reflection.comment, reflection.flags, None, None);

    if reflection.sources.Some? {
      obj := obj.(location := Some(SourceTexts(reflection.sources.value)));
    } else if reflection.parent.Some? && t[reflection.parent.value].sources.Some? {
      obj := obj.(location := Some(SourceTexts(t[reflection.parent.value].sources.value)));
    }
    assert obj.location == Location(t, id);

    var flags := reflection.flags;
    if KindOf(reflection.kind, CallSignatureKind) && reflection.parent.Some? {
      flags := t[reflection.parent.value].flags;
    } else if KindOf(reflection.kind, ParameterKind) && reflection.parent.Some?
              && t[reflection.parent.value].parent.Some? {
      flags := t[t[reflection.parent.value].parent.value].flags;
    }
    assert flags == EffectiveFlags(t, id);

    if ShouldCheck(scopeLevel, flags) {
      var failureCondition := false;

      if reflection.comment.None? {
        obj := obj.(reason := Some(MissingReasonText(obj.kind, obj.name)));
        if KindOf(reflection.kind, ModuleKind) {
          obj := obj.(reason := Some(obj.reason.value + ModuleHint));
        } else {
          assert obj.reason.value + "" == obj.reason.value;
        }
        failureCondition := true;
      } else if |reflection.comment.value.shortText| + |reflection.comment.value.text| == 0 {
        obj := obj.(reason := Some(EmptyReasonText(obj.kind, obj.name)));
        failureCondition := true;
      }
      assert obj.reason == Reason(reflection) && failureCondition == obj.reason.Some?;

      if obj.reason.Some? && obj.reason.value != "" && verbose {
        obj := obj.(reason := Some(obj.reason.value + json.record(obj)));
      }

      assert obj == Reported(t, id, verbose, json);
      logged := if failureCondition then [LogEntry(Error, Format(obj, json))] else [];
      failed := failureCondition;
    } else {
      failed, logged := false, [];
    }
  }

  // ---------------------------------------------------------------------------
  // The run at the end of resolution
  // ---------------------------------------------------------------------------

  /** The three plugin options as the host's option store reports them. */
  datatype Options = Options(disabled: bool, verbose: bool, scopeLevel: string)

  const DisabledMessage := "Missing Check plugin disabled"

  const VerboseHint := "Consider using --missing-check-verbose for more detailed output"

  /** The summary line: it starts with the count and ends with the verbose hint exactly
      when verbose output is off. */
  function SummaryMessage(failureCount: nat, verbose: bool): (message: string)
    ensures StartsWith(message, "Found " + NatToString(failureCount) + " errors")
    ensures EndsWith(message, VerboseHint) <==> !verbose
  {
    var head := "Found " + NatToString(failureCount) + " errors";
    var base := head + " when checking for missing documentation.";
    assert base[..|head|] == head;
    if !verbose then
      assert (base + VerboseHint)[..|head|] == head;
      assert (base + VerboseHint)[|base + VerboseHint| - |VerboseHint|..] == VerboseHint;
      base + VerboseHint
    else
      assert base + "" == base;
      assert base[|base| - 1] == '.' && VerboseHint[|VerboseHint| - 1] == 't';
      base + ""
  }

  /** How many of `ids` fail. */
  function CountFailures(t: Tree, ids: seq<NodeId>, scopeLevel: string): (n: nat)
    requires WellFormed(t) && forall i :: 0 <= i < |ids| ==> ids[i] in t
    ensures n <= |ids|
    ensures (forall i :: 0 <= i < |ids| ==> !Fails(t, ids[i], scopeLevel)) ==> n == 0
  {
    if ids == [] then 0
    else CountFailures(t, ids[..|ids| - 1], scopeLevel) + (if Fails(t, ids[|ids| - 1], scopeLevel) then 1 else 0)
  }

  /** The per-reflection lines logged while checking `ids` in order. */
  function FailureLines(t: Tree, ids: seq<NodeId>, scopeLevel: string, verbose: bool, json: Json): (lines: seq<LogEntry>)
    requires WellFormed(t) && forall i :: 0 <= i < |ids| ==> ids[i] in t
    ensures |lines| == CountFailures(t, ids, scopeLevel)
    ensures forall e :: e in lines ==> e.level == Error
  {
    if ids == [] then []
    else FailureLines(t, ids[..|ids| - 1], scopeLevel, verbose, json) + CheckLog(t, ids[|ids| - 1], scopeLevel, verbose, json)
  }

  /** Everything `onConverterResolveEnd` logs. */
  function RunLog(t: Tree, ids: seq<NodeId>, options: Options, json: Json): (log: seq<LogEntry>)
    requires WellFormed(t) && forall i :: 0 <= i < |ids| ==> ids[i] in t
    ensures options.disabled ==> |log| == 1 && log[0].level == Info
    ensures !options.disabled ==> forall e :: e in log ==> e.level == Error
  {
    if options.disabled then [LogEntry(Info, DisabledMessage)]
    else
      var n := CountFailures(t, ids, options.scopeLevel);
      FailureLines(t, ids, options.scopeLevel, options.verbose, json) +
      (if n > 0 then [LogEntry(Error, SummaryMessage(n, options.verbose))] else [])
  }

  /** Checking one more reflection adds its count and its log to those of the ones before. */
  lemma RunStep(t: Tree, ids: seq<NodeId>, i: nat, scopeLevel: string, verbose: bool, json: Json)
    requires WellFormed(t) && forall k :: 0 <= k < |ids| ==> ids[k] in t
    requires i < |ids|
    ensures CountFailures(t, ids[..i + 1], scopeLevel) ==
      CountFailures(t, ids[..i], scopeLevel) + (if Fails(t, ids[i], scopeLevel) then 1 else 0)
    ensures FailureLines(t, ids[..i + 1], scopeLevel, verbose, json) ==
      FailureLines(t, ids[..i], scopeLevel, verbose, json) + CheckLog(t, ids[i], scopeLevel, verbose, json)
  {
    assert ids[..i + 1][..i] == ids[..i] && ids[..i + 1][i] == ids[i];
  }

  /** An enabled run logs the lines of the failures and then, if there are any, the summary. */
  lemma RunLogEnabled(t: Tree, ids: seq<NodeId>, options: Options, json: Json)
    requires WellFormed(t) && forall i :: 0 <= i < |ids| ==> ids[i] in t
    requires !options.disabled
    ensures var n := CountFailures(t, ids, options.scopeLevel);
      RunLog(t, ids, options, json) ==
        FailureLines(t, ids, options.scopeLevel, options.verbose, json) +
        (if n > 0 then [LogEntry(Error, SummaryMessage(n, options.verbose))] else [])
  {
  }

  /** `onConverterResolveEnd`, with `reflections` the reflections the project lists
      and the count returned alongside the log. */
  method OnConverterResolveEnd(t: Tree, reflections: seq<NodeId>, options: Options, json: Json)
    returns (failureCount: nat, log: seq<LogEntry>)
    requires WellFormed(t) && forall i :: 0 <= i < |reflections| ==> reflections[i] in t
    ensures failureCount == if options.disabled then 0 else CountFailures(t, reflections, options.scopeLevel)
    ensures log == RunLog(t, reflections, options, json)
  {
    if options.disabled {
      return 0, [LogEntry(Info, DisabledMessage)];
    }

    failureCount, log := 0, [];
    for i := 0 to |reflections|
      invariant failureCount == CountFailures(t, reflections[..i], options.scopeLevel)
      invariant log == FailureLines(t, reflections[..i], options.scopeLevel, options.verbose, json)
    {
      var failed, logged := CheckReflection(t, reflections[i], options.scopeLevel, options.verbose, json);
      RunStep(t, reflections, i, options.scopeLevel, options.verbose, json);
      log := log + logged;
      if failed {
        failureCount := failureCount + 1;
      }
    }
    assert reflections[..|reflections|] == reflections;
    RunLogEnabled(t, reflections, options, json);

    if failureCount > 0 {
      log := log + [LogEntry(Error, SummaryMessage(failureCount, options.verbose))];
    }
  }
}
