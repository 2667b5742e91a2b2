/** What the documentation check guarantees, stated over the model in `MissingCheck`. */
module MissingCheckProperties {
  import opened TypeDocModels
  import opened JsRuntime
  import opened MissingCheck

  // ---------------------------------------------------------------------------
  // Shape of a kind chain
  // ---------------------------------------------------------------------------

  /** Read from the end, element `k` of a chain is the label of the ancestor `k`
      levels up. */
  lemma {:induction false} ChainFollowsAncestors<T>(t: Tree, id: NodeId, labelOf: Reflection -> Option<T>, k: nat)
    requires WellFormed(t) && id in t && k < |Chain(t, id, labelOf)|
    ensures k <= Depth(t, id)
    ensures labelOf(t[Ancestor(t, id, k)]) == Some(Chain(t, id, labelOf)[|Chain(t, id, labelOf)| - 1 - k])
    decreases id
  {
    if k > 0 {
      var p := t[id].parent.value;
      assert Chain(t, id, labelOf) == Chain(t, p, labelOf) + [labelOf(t[id]).value];
      ChainFollowsAncestors(t, p, labelOf, k - 1);
    }
  }

  /** A chain has one element per level up to the root, unless it stops earlier at an
      ancestor that has no label. */
  lemma {:induction false} ChainStopsAtFirstGap<T>(t: Tree, id: NodeId, labelOf: Reflection -> Option<T>)
    requires WellFormed(t) && id in t
    ensures var n := |Chain(t, id, labelOf)|;
      n == Depth(t, id) + 1 || (n <= Depth(t, id) && labelOf(t[Ancestor(t, id, n)]).None?)
    decreases id
  {
    if labelOf(t[id]).Some? && t[id].parent.Some? {
      ChainStopsAtFirstGap(t, t[id].parent.value, labelOf);
    }
  }

  /** In `kindChainNames`, each element is the `kindString` of the parent of the
      reflection that gave the next element. */
  lemma KindChainNamesStepsToParent(t: Tree, id: NodeId, i: nat)
    requires WellFormed(t) && id in t && i + 1 < |Chain(t, id, NameLabel)|
    ensures var chain := Chain(t, id, NameLabel);
      var a := Ancestor(t, id, |chain| - 2 - i);
      t[a].kindString == Some(chain[i + 1]) &&
      t[a].parent.Some? && t[t[a].parent.value].kindString == Some(chain[i])
  {
    var chain := Chain(t, id, NameLabel);
    var n := |chain|;
    ChainFollowsAncestors(t, id, NameLabel, n - 2 - i);
    ChainFollowsAncestors(t, id, NameLabel, n - 1 - i);
    AncestorParent(t, id, n - 2 - i);
  }

  /** `kindChainNames` ends with the reflection's own truthy `kindString` and is empty
      when that is undefined or empty. */
  lemma KindChainNamesEnds(t: Tree, id: NodeId)
    requires WellFormed(t) && id in t
    ensures var chain := Chain(t, id, NameLabel);
      |chain| <= Depth(t, id) + 1 &&
      (t[id].kindString.None? || t[id].kindString == Some("") <==> chain == []) &&
      (t[id].kindString.Some? && t[id].kindString.value != "" ==> chain[|chain| - 1] == t[id].kindString.value)
  {
  }

  // ---------------------------------------------------------------------------
  // Scope levels
  // ---------------------------------------------------------------------------

  /** The three scope levels, and every other scope string. */
  lemma ScopeTable(scopeLevel: string, flags: Flags)
    ensures ShouldCheck("public", flags) <==> !flags.isProtected && !flags.isPrivate
    ensures ShouldCheck("protected", flags) <==> !flags.isPrivate
    ensures ShouldCheck("private", flags)
    ensures scopeLevel != "public" && scopeLevel != "protected" && scopeLevel != "private" ==>
      !ShouldCheck(scopeLevel, flags)
  {
  }

  /** The levels are nested: public inside protected inside private. */
  lemma ScopeLevelsNested(flags: Flags)
    ensures ShouldCheck("public", flags) ==> ShouldCheck("protected", flags)
    ensures ShouldCheck("protected", flags) ==> ShouldCheck("private", flags)
  {
  }

  /** A failure under a narrower scope is a failure under every wider one. */
  lemma FailsMonotoneInScope(t: Tree, id: NodeId)
    requires WellFormed(t) && id in t
    ensures Fails(t, id, "public") ==> Fails(t, id, "protected")
    ensures Fails(t, id, "protected") ==> Fails(t, id, "private")
  {
  }

  /** So the failure count can only grow as the scope widens. */
  lemma {:induction false} CountMonotoneInScope(t: Tree, ids: seq<NodeId>)
    requires WellFormed(t) && forall i :: 0 <= i < |ids| ==> ids[i] in t
    ensures CountFailures(t, ids, "public") <= CountFailures(t, ids, "protected")
    ensures CountFailures(t, ids, "protected") <= CountFailures(t, ids, "private")
  {
    if ids != [] {
      CountMonotoneInScope(t, ids[..|ids| - 1]);
      FailsMonotoneInScope(t, ids[|ids| - 1]);
    }
  }

  // ---------------------------------------------------------------------------
  // Exclusions
  // ---------------------------------------------------------------------------

  /** A chain mentioning a type literal or a type alias is never reported, whatever the
      comment, the flags or the scope. */
  lemma TypeShapesNeverReported(t: Tree, id: NodeId, scopeLevel: string, verbose: bool, json: Json)
    requires WellFormed(t) && id in t && IsTypeShape(KindChainText(t, id))
    ensures !Fails(t, id, scopeLevel) && CheckLog(t, id, scopeLevel, verbose, json) == []
  {
  }

  /** In particular nothing whose chain passes through a type literal or a type alias
      is reported. */
  lemma UnderTypeShapeNeverReported(t: Tree, id: NodeId, scopeLevel: string, k: nat)
    requires WellFormed(t) && id in t && k < |Chain(t, id, NameLabel)|
    requires Contains(Chain(t, id, NameLabel)[k], TypeLiteralName) || Contains(Chain(t, id, NameLabel)[k], TypeAliasName)
    ensures !Fails(t, id, scopeLevel)
  {
    var chain := Chain(t, id, NameLabel);
    if Contains(chain[k], TypeLiteralName) {
      JoinContainsElement(chain, "::", k, TypeLiteralName);
    } else {
      JoinContainsElement(chain, "::", k, TypeAliasName);
    }
  }

  /** A chain equal to an entry of either fixed list is never reported. */
  lemma ListedChainsNeverReported(t: Tree, id: NodeId, scopeLevel: string, verbose: bool, json: Json)
    requires WellFormed(t) && id in t && IsListed(KindChainText(t, id))
    ensures !Fails(t, id, scopeLevel) && CheckLog(t, id, scopeLevel, verbose, json) == []
  {
  }

  /** The lists match whole chains only: the signature below a listed class method or
      module function is not listed. */
  lemma ExtendedEntriesNotListed()
    ensures IsListed("Project::Class::Method") && !IsListed("Project::Class::Method::Call signature")
    ensures IsListed("Module::Function") && !IsListed("Module::Function::Call signature")
  {
  }

  /** A project with a class, one of its methods, and that method's undocumented
      call signature: 0 Project, 1 Class, 2 Method, 3 Call signature. */
  function SignatureBelowListedMethod(): (t: Tree)
    ensures WellFormed(t)
  {
    map[
      0 := Reflection(1, Some("Project"), "project", Flags(false, false), Some(Comment("docs", "")), None, None),
      1 := Reflection(128, Some("Class"), "C", Flags(false, false), None, None, Some(0)),
      2 := Reflection(2048, Some("Method"), "m", Flags(false, false), None, None, Some(1)),
      3 := Reflection(CallSignatureKind, Some("Call signature"), "m", Flags(false, false), None, None, Some(2))
    ]
  }

  /** The name chains of the listed method and of its signature. */
  lemma SignatureChains()
    ensures Chain(SignatureBelowListedMethod(), 2, NameLabel) == ["Project", "Class", "Method"]
    ensures Chain(SignatureBelowListedMethod(), 3, NameLabel) == ["Project", "Class", "Method"] + ["Call signature"]
  {
    var t := SignatureBelowListedMethod();
    assert t[0].kindString == Some("Project") && t[0].parent == None;
    assert t[1].kindString == Some("Class") && t[1].parent == Some(0);
    assert t[2].kindString == Some("Method") && t[2].parent == Some(1);
    assert t[3].kindString == Some("Call signature") && t[3].parent == Some(2);
    assert Chain(t, 0, NameLabel) == ["Project"];
    assert Chain(t, 1, NameLabel) == ["Project", "Class"];
  }

  /** The method's chain joins to the listed text. */
  lemma MethodChainJoin()
    ensures Join(["Project", "Class", "Method"], "::") == "Project::Class::Method"
  {
    JoinCons("Class", ["Method"], "::");
    JoinCons("Project", ["Class", "Method"], "::");
    assert "Project" + "::" + ("Class" + "::" + "Method") == "Project::Class::Method";
  }

  /** The kind chains of the listed method and of its signature: the signature's is the
      method's with `::Call signature` added. */
  lemma SignatureChainTexts()
    ensures KindChainText(SignatureBelowListedMethod(), 2) == "Project::Class::Method"
    ensures KindChainText(SignatureBelowListedMethod(), 3) ==
      KindChainText(SignatureBelowListedMethod(), 2) + "::" + "Call signature"
  {
    SignatureChains();
    MethodChainJoin();
    JoinSnoc(["Project", "Class", "Method"], "Call signature", "::");
  }

  /** The signature's chain mentions neither type shape, and its length (38) is that
      of no listed chain. */
  lemma SignatureChainNotExcluded()
    ensures !Excluded("Project::Class::Method" + "::" + "Call signature")
  {
    var text := "Project::Class::Method" + "::" + "Call signature";
    assert |text| == 38;
    assert 'T' !in text;
    NotContainsWithoutFirstChar(text, TypeLiteralName);
    NotContainsWithoutFirstChar(text, TypeAliasName);
  }

  /** List exclusion is not inherited: the listed class method is skipped, but its
      undocumented call signature below it is still reported. */
  lemma ListedMethodSignatureStillReported()
    ensures !Fails(SignatureBelowListedMethod(), 2, "public")
    ensures Fails(SignatureBelowListedMethod(), 3, "public")
  {
    var t := SignatureBelowListedMethod();
    SignatureChainTexts();
    SignatureChainNotExcluded();
    assert IsListed("Project::Class::Method");
    assert EffectiveFlags(t, 3) == Flags(false, false);
  }

  // ---------------------------------------------------------------------------
  // Effective visibility
  // ---------------------------------------------------------------------------

  /** Call signatures use their parent's flags, parameters their grandparent's, and
      everything else its own. */
  lemma EffectiveFlagsRules(t: Tree, id: NodeId)
    requires WellFormed(t) && id in t
    ensures var r := t[id];
      KindOf(r.kind, CallSignatureKind) && r.parent.Some? ==> EffectiveFlags(t, id) == t[r.parent.value].flags
    ensures var r := t[id];
      !KindOf(r.kind, CallSignatureKind) && KindOf(r.kind, ParameterKind) &&
      r.parent.Some? && t[r.parent.value].parent.Some? ==>
        EffectiveFlags(t, id) == t[t[r.parent.value].parent.value].flags
    ensures var r := t[id];
      !KindOf(r.kind, CallSignatureKind) && KindOf(r.kind, ParameterKind) &&
      (r.parent.None? || t[r.parent.value].parent.None?) ==>
        EffectiveFlags(t, id) == r.flags
    ensures var r := t[id];
      !KindOf(r.kind, CallSignatureKind) && !KindOf(r.kind, ParameterKind) ==> EffectiveFlags(t, id) == r.flags
  {
  }

  /** A parameter whose grandparent is private is not reported under the public or
      protected scope, documented or not. */
  lemma PrivateOwnerHidesParameter(t: Tree, id: NodeId)
    requires WellFormed(t) && id in t && t[id].kind == ParameterKind
    requires t[id].parent.Some? && t[t[id].parent.value].parent.Some?
    requires t[t[t[id].parent.value].parent.value].flags.isPrivate
    ensures !Fails(t, id, "public") && !Fails(t, id, "protected")
  {
  }

  // ---------------------------------------------------------------------------
  // The failure condition
  // ---------------------------------------------------------------------------

  /** Past the exclusions and inside the scope, a reflection fails exactly when its
      comment is absent or has no text at all. */
  lemma FailureCondition(t: Tree, id: NodeId, scopeLevel: string)
    requires WellFormed(t) && id in t
    requires !Excluded(KindChainText(t, id)) && ShouldCheck(scopeLevel, EffectiveFlags(t, id))
    ensures Fails(t, id, scopeLevel) <==>
      t[id].comment.None? || (t[id].comment.value.shortText == "" && t[id].comment.value.text == "")
  {
  }

  /** A comment with any text never fails, and neither does anything outside the scope. */
  lemma DocumentedOrHiddenNeverFails(t: Tree, id: NodeId, scopeLevel: string)
    requires WellFormed(t) && id in t
    ensures t[id].comment.Some? && (t[id].comment.value.shortText != "" || t[id].comment.value.text != "") ==>
      !Fails(t, id, scopeLevel)
    ensures !ShouldCheck(scopeLevel, EffectiveFlags(t, id)) ==> !Fails(t, id, scopeLevel)
  {
  }

  // ---------------------------------------------------------------------------
  // Reasons and log lines
  // ---------------------------------------------------------------------------

  /** A missing comment gets the "missing" reason, which ends with the `@module` hint
      exactly when the reflection is a module. */
  lemma MissingReasonHint(r: Reflection)
    requires r.comment.None?
    ensures Reason(r).Some?
    ensures StartsWith(Reason(r).value, "Documentation comment missing for ")
    ensures EndsWith(Reason(r).value, ModuleHint) <==> KindOf(r.kind, ModuleKind)
  {
    var base := MissingReasonText(r.kindString, r.name);
    assert base[..|"Documentation comment missing for "|] == "Documentation comment missing for ";
    if KindOf(r.kind, ModuleKind) {
      assert (base + ModuleHint)[|base + ModuleHint| - |ModuleHint|..] == ModuleHint;
      assert (base + ModuleHint)[..|"Documentation comment missing for "|] == "Documentation comment missing for ";
    } else {
      assert base + "" == base;
      assert base[|base| - 1] == '.';
      assert ModuleHint[|ModuleHint| - 1] == 's';
    }
  }

  /** An empty comment gets the "empty" reason, the same whatever the reflection's kind:
      the `@module` hint is never added to it. */
  lemma EmptyReasonIgnoresKind(r: Reflection, otherKind: KindCode)
    requires r.comment.Some? && |r.comment.value.shortText| + |r.comment.value.text| == 0
    ensures Reason(r).Some?
    ensures StartsWith(Reason(r).value, "Documentation comment empty for ")
    ensures Reason(r) == Reason(r.(kind := otherKind))
  {
  }

  /** `checkReflection` logs one error line exactly when it fails, and the line starts
      with the plugin's tag and carries the reason. */
  lemma CheckLogLine(t: Tree, id: NodeId, scopeLevel: string, verbose: bool, json: Json)
    requires WellFormed(t) && id in t
    ensures |CheckLog(t, id, scopeLevel, verbose, json)| == if Fails(t, id, scopeLevel) then 1 else 0
    ensures Fails(t, id, scopeLevel) ==>
      var line := CheckLog(t, id, scopeLevel, verbose, json)[0];
      line.level == Error && Reason(t[id]).Some? &&
      StartsWith(line.message, "(missing-check) ") && Contains(line.message, Reason(t[id]).value) &&
      StartsWith(line.message, "(missing-check) " + LocationText(Location(t, id)) + " ")
  {
    if Fails(t, id, scopeLevel) {
      var obj := Reported(t, id, verbose, json);
      var reason := Reason(t[id]).value;
      var head := "(missing-check) " + LocationText(obj.location) + " ";
      var tail := " " + json.comment(obj.comment);
      var shown := obj.reason.value;
      assert Format(obj, json) == head + shown + tail;
      assert StartsWith(reason, reason);
      assert OccursAt(reason, reason, 0);
      assert Contains(shown, reason) by {
        if shown != reason {
          assert shown == reason + json.record(obj.(reason := Some(reason)));
          ContainsInPrefix(reason, json.record(obj.(reason := Some(reason))), reason);
        }
      }
      ContainsInSuffix(head, shown, reason);
      ContainsInPrefix(head + shown, tail, reason);
      assert (head + shown + tail)[..|"(missing-check) "|] == "(missing-check) ";
    }
  }

  /** Each location entry is `fileName:line:character` of the corresponding source,
      and the record falls back to the parent's sources only when the reflection has
      none. */
  lemma LocationFallback(t: Tree, id: NodeId)
    requires WellFormed(t) && id in t
    ensures var r := t[id];
      Location(t, id).Some? <==> r.sources.Some? || (r.parent.Some? && t[r.parent.value].sources.Some?)
    ensures var r := t[id];
      Location(t, id).Some? ==>
        var sources := if r.sources.Some? then r.sources.value else t[r.parent.value].sources.value;
        |Location(t, id).value| == |sources| &&
        forall i :: 0 <= i < |sources| ==>
          Location(t, id).value[i] ==
            sources[i].fileName + ":" + NatToString(sources[i].line) + ":" + NatToString(sources[i].character)
  {
  }

  // ---------------------------------------------------------------------------
  // The count
  // ---------------------------------------------------------------------------

  /** The reflections among `ids` that fail. */
  function FailingAmong(t: Tree, ids: seq<NodeId>, scopeLevel: string): set<NodeId>
    requires WellFormed(t) && forall i :: 0 <= i < |ids| ==> ids[i] in t
  {
    set i | 0 <= i < |ids| && Fails(t, ids[i], scopeLevel) :: ids[i]
  }

  /** Every reflection of the tree that fails. */
  function FailingReflections(t: Tree, scopeLevel: string): set<NodeId>
    requires WellFormed(t)
  {
    set id | id in t && Fails(t, id, scopeLevel)
  }

  /** Checking one more reflection adds it to the failing ones when it fails. */
  lemma FailingAmongPush(t: Tree, ids: seq<NodeId>, scopeLevel: string)
    requires WellFormed(t) && forall i :: 0 <= i < |ids| ==> ids[i] in t
    requires ids != []
    ensures FailingAmong(t, ids, scopeLevel) ==
      FailingAmong(t, ids[..|ids| - 1], scopeLevel) + (if Fails(t, ids[|ids| - 1], scopeLevel) then {ids[|ids| - 1]} else {})
  {
    FailingAmongPushWithin(t, ids, scopeLevel);
    FailingAmongPushKeeps(t, ids, scopeLevel);
  }

  /** A failing reflection among `ids` is among all but the last, or is the last. */
  lemma FailingAmongPushWithin(t: Tree, ids: seq<NodeId>, scopeLevel: string)
    requires WellFormed(t) && forall i :: 0 <= i < |ids| ==> ids[i] in t
    requires ids != []
    ensures forall id :: id in FailingAmong(t, ids, scopeLevel) ==>
      id in FailingAmong(t, ids[..|ids| - 1], scopeLevel) || (id == ids[|ids| - 1] && Fails(t, id, scopeLevel))
  {
    var front := ids[..|ids| - 1];
    forall id | id in FailingAmong(t, ids, scopeLevel)
      ensures id in FailingAmong(t, front, scopeLevel) || (id == ids[|ids| - 1] && Fails(t, id, scopeLevel))
    {
      var i :| 0 <= i < |ids| && Fails(t, ids[i], scopeLevel) && ids[i] == id;
      if i < |front| {
        assert front[i] == ids[i];
        assert 0 <= i < |front| && Fails(t, front[i], scopeLevel) && front[i] == id;
      } else {
        assert i == |ids| - 1;
      }
    }
  }

  /** The failing reflections among all but the last, and the last when it fails, are
      failing reflections among `ids`. */
  lemma FailingAmongPushKeeps(t: Tree, ids: seq<NodeId>, scopeLevel: string)
    requires WellFormed(t) && forall i :: 0 <= i < |ids| ==> ids[i] in t
    requires ids != []
    ensures forall id :: id in FailingAmong(t, ids[..|ids| - 1], scopeLevel) ==> id in FailingAmong(t, ids, scopeLevel)
    ensures Fails(t, ids[|ids| - 1], scopeLevel) ==> ids[|ids| - 1] in FailingAmong(t, ids, scopeLevel)
  {
    var front := ids[..|ids| - 1];
    forall id | id in FailingAmong(t, front, scopeLevel)
      ensures id in FailingAmong(t, ids, scopeLevel)
    {
      var i :| 0 <= i < |front| && Fails(t, front[i], scopeLevel) && front[i] == id;
      assert ids[i] == id;
    }
  }

  lemma {:induction false} CountIsFailingAmong(t: Tree, ids: seq<NodeId>, scopeLevel: string)
    requires WellFormed(t) && forall i :: 0 <= i < |ids| ==> ids[i] in t
    requires forall i, j :: 0 <= i < j < |ids| ==> ids[i] != ids[j]
    ensures CountFailures(t, ids, scopeLevel) == |FailingAmong(t, ids, scopeLevel)|
  {
    if ids != [] {
      var front := ids[..|ids| - 1];
      var last := ids[|ids| - 1];
      CountIsFailingAmong(t, front, scopeLevel);
      FailingAmongPush(t, ids, scopeLevel);
      assert last !in FailingAmong(t, front, scopeLevel);
    }
  }

  /** When the project lists every reflection of the tree once, the failure count is the
      number of reflections that fail. */
  lemma CountIsFailingReflections(t: Tree, ids: seq<NodeId>, scopeLevel: string)
    requires WellFormed(t) && forall i :: 0 <= i < |ids| ==> ids[i] in t
    requires forall i, j :: 0 <= i < j < |ids| ==> ids[i] != ids[j]
    requires forall id :: id in t ==> id in ids
    ensures CountFailures(t, ids, scopeLevel) == |FailingReflections(t, scopeLevel)|
  {
    CountIsFailingAmong(t, ids, scopeLevel);
    assert FailingAmong(t, ids, scopeLevel) == FailingReflections(t, scopeLevel) by {
      forall id | id in FailingReflections(t, scopeLevel)
        ensures id in FailingAmong(t, ids, scopeLevel)
      {
        var i :| 0 <= i < |ids| && ids[i] == id;
      }
    }
  }

  /** An enabled run logs nothing when nothing fails; otherwise its last line is the
      summary with the count. A disabled run logs only the notice. */
  lemma RunLogShape(t: Tree, ids: seq<NodeId>, options: Options, json: Json)
    requires WellFormed(t) && forall i :: 0 <= i < |ids| ==> ids[i] in t
    ensures options.disabled ==> RunLog(t, ids, options, json) == [LogEntry(Info, DisabledMessage)]
    ensures !options.disabled ==>
      var n := CountFailures(t, ids, options.scopeLevel);
      var log := RunLog(t, ids, options, json);
      |log| == (if n == 0 then 0 else n + 1) &&
      (n > 0 ==> log[|log| - 1] == LogEntry(Error, SummaryMessage(n, options.verbose)))
  {
  }
}
