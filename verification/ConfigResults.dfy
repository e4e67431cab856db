/** What building an agent's additions yields, agent by agent, in the words of the configuration files. */
module ConfigResults {
  import opened Codec
  import opened ConfigTree
  import opened ConfigAdditions

  /** The posture asked for; anything but a string asks for none. */
  function Posture(norm: map<string, Input>): string {
    if "approvalPosture" in norm && norm["approvalPosture"].Str? then norm["approvalPosture"].s else ""
  }

  /** The strings given under a key. */
  function StringsAt(norm: map<string, Input>, k: string): seq<string> {
    if k in norm then ToStrings(norm[k]) else []
  }

  predicate Recognized(posture: string) {
    posture in {"always-ask", "ask-risky", "auto", "yolo"}
  }

  function Wrapped(patterns: seq<string>): seq<string> {
    seq(|patterns|, i requires 0 <= i < |patterns| => "Bash(" + patterns[i] + ")")
  }

  /** Away from `own` keys the additions are the native passthrough. */
  ghost predicate NativeBeside(native: map<string, Tree>, own: set<string>, additions: map<string, Tree>) {
    forall k :: k !in own ==> (k in additions <==> k in native) && (k in native ==> additions[k] == native[k])
  }

  /** Claude: a permissions table with the mode, the allowed and the denied, and nothing under model. */
  ghost predicate ForClaude(native: map<string, Tree>, norm: map<string, Input>, additions: map<string, Tree>) {
    var p, tools := Posture(norm), StringsAt(norm, "disabledTools");
    var al, de := StringsAt(norm, "allowedCommands"), Wrapped(StringsAt(norm, "deniedCommands"));
    && "model" !in additions && NativeBeside(native, {"model", "permissions"}, additions)
    && ("permissions" in additions <==> Recognized(p) || tools != [] || al != [] || de != [])
    && ("permissions" in additions ==>
          && additions["permissions"].Branch?
          && var t := additions["permissions"].kids;
          && t.Keys <= {"defaultMode", "allow", "deny"}
          && ("defaultMode" in t <==> Recognized(p))
          && (Recognized(p) ==> t["defaultMode"] == Scalar(Text(
                if p == "always-ask" then "default" else if p == "yolo" then "bypassPermissions" else "acceptEdits")))
          && ("allow" in t <==> al != []) && (al != [] ==> t["allow"] == Scalar(Items(Wrapped(al))))
          && ("deny" in t <==> tools != [] || de != [])
          && ("deny" in t ==> t["deny"] == Scalar(Items(tools + de)) || t["deny"] == Scalar(Items(de + tools))))
  }

  /** Codex: an approval policy and, beside the file, a command policy. */
  ghost predicate ForCodex(native: map<string, Tree>, norm: map<string, Input>, additions: map<string, Tree>) {
    var p := Posture(norm);
    && {"model", "sandbox_mode", "sandbox_workspace_write"} !! additions.Keys
    && NativeBeside(native, {"model", "approval_policy", "sandbox_mode", "sandbox_workspace_write"}, additions)
    && ("approval_policy" in additions <==> Recognized(p))
    && (Recognized(p) ==> additions["approval_policy"] == Scalar(Text(
          if p == "always-ask" then "untrusted" else if p == "ask-risky" then "on-request"
          else if p == "auto" then "on-failure" else "never")))
  }

  /** Every disabled tool is off in the tools table, which keeps what else the native one has. */
  ghost predicate ToolsOff(native: map<string, Tree>, tools: seq<string>, additions: map<string, Tree>) {
    tools != [] ==>
      && "tools" in additions && additions["tools"].Branch?
      && var t := additions["tools"].kids;
      && (forall x :: x in tools ==> x in t && t[x] == Scalar(Flag(false)))
      && (forall x :: x !in tools ==>
            var was := if "tools" in native && native["tools"].Branch? then native["tools"].kids else map[];
            (x in t <==> x in was) && (x in was ==> t[x] == was[x]))
  }

  /** A bash table of the allowed and the denied patterns; one that is both may read either way. */
  ghost predicate BashTable(al: seq<string>, de: seq<string>, additions: map<string, Tree>) {
    && ("permission" in additions <==> al != [] || de != [])
    && ("permission" in additions ==>
          && additions["permission"].Branch? && additions["permission"].kids.Keys == {"bash"}
          && additions["permission"].kids["bash"].Branch?
          && var t := additions["permission"].kids["bash"].kids;
          && (forall x :: x in t <==> x in al || x in de)
          && (forall x :: x in t ==>
                (x in al && t[x] == Scalar(Text("allow"))) || (x in de && t[x] == Scalar(Text("deny")))))
  }

  /** Opencode: both tables. */
  ghost predicate ForOpencode(native: map<string, Tree>, norm: map<string, Input>, additions: map<string, Tree>) {
    var tools := StringsAt(norm, "disabledTools");
    && "model" !in additions
    && NativeBeside(native, {"model", "permission"} + if tools == [] then {} else {"tools"}, additions)
    && ToolsOff(native, tools, additions)
    && BashTable(StringsAt(norm, "allowedCommands"), StringsAt(norm, "deniedCommands"), additions)
  }

  /** The additions, by agent. */
  ghost predicate ForAgent(agent: Agent, native: map<string, Tree>, norm: map<string, Input>,
                           additions: map<string, Tree>)
  {
    match agent
    case Claude => ForClaude(native, norm, additions)
    case CodexAgent => ForCodex(native, norm, additions)
    case Opencode => ForOpencode(native, norm, additions)
    case OtherAgent => additions == native
  }

  /** Whether the normalized keys ask for something the agent has. */
  predicate Asks(agent: Agent, norm: map<string, Input>) {
    || (Recognized(Posture(norm)) && Posture(norm) != "auto" && (agent.Claude? || agent.CodexAgent?))
    || (StringsAt(norm, "disabledTools") != [] && (agent.Claude? || agent.Opencode?))
    || ((StringsAt(norm, "allowedCommands") != [] || StringsAt(norm, "deniedCommands") != []) && !agent.OtherAgent?)
  }

  /** Something of the native passthrough is let through. */
  ghost predicate NativeContributes(agent: Agent, native: map<string, Tree>) {
    exists k :: k in native && k !in ForbiddenKeys(agent)
  }

  lemma KeysInOrder(norm: map<string, Input>)
    ensures forall f, k :: k !in f ==> Part(f, norm, norm.Keys, k) == StringsAt(norm, k)
    ensures APPROVAL_POSTURE == "approvalPosture" && DISABLED_TOOLS == "disabledTools"
    ensures ALLOWED_COMMANDS == "allowedCommands" && DENIED_COMMANDS == "deniedCommands"
    ensures "approvalPosture" in norm ==> TextOf(norm["approvalPosture"]) == Posture(norm)
    ensures forall ps :: Bash(ps) == Wrapped(ps)
  {
  }

  /** What is known of the translation. */
  ghost predicate Translated(agent: Agent, norm: map<string, Input>, t: Translation, a: Acc) {
    && t == Finish(a)
    && Fits(agent, Mode(agent, ForbiddenKeys(agent), norm, norm.Keys), IsAuto(norm), StringsAt(norm, "disabledTools"),
            StringsAt(norm, "allowedCommands"), StringsAt(norm, "deniedCommands"), a)
  }

  lemma TranslationIs(agent: Agent, norm: map<string, Input>, order: seq<string>)
    requires Enumerates(norm, order)
    ensures
      var a := Fold(agent, ForbiddenKeys(agent), norm, order);
      Translated(agent, norm, Finish(a), a)
  {
    TranslatedFits(agent, norm, order);
    KeysInOrder(norm);
    NormalizedAllowed(agent);
    hide Fits, Fold, Finish, Mode, Part;
  }

  /** No agent forbids the normalized keys themselves. */
  lemma NormalizedAllowed(agent: Agent)
    ensures APPROVAL_POSTURE !in ForbiddenKeys(agent) && DISABLED_TOOLS !in ForbiddenKeys(agent)
    ensures ALLOWED_COMMANDS !in ForbiddenKeys(agent) && DENIED_COMMANDS !in ForbiddenKeys(agent)
  {
  }

  lemma ModeIs(agent: Agent, norm: map<string, Input>)
    ensures
      var m, p := Mode(agent, ForbiddenKeys(agent), norm, norm.Keys), Posture(norm);
      m == if !Recognized(p) then None
           else if agent.Claude? then
             Some(if p == "always-ask" then "default" else if p == "yolo" then "bypassPermissions" else "acceptEdits")
           else if agent.CodexAgent? then
             Some(if p == "always-ask" then "untrusted" else if p == "ask-risky" then "on-request"
                  else if p == "auto" then "on-failure" else "never")
           else None
    ensures Recognized(Posture(norm)) ==> (IsAuto(norm) <==> Posture(norm) == "auto")
  {
    KeysInOrder(norm);
    NormalizedAllowed(agent);
  }

  /** The translation merged over what is kept. */
  ghost predicate MergedOver(additions: map<string, Tree>, kept: map<string, Tree>, translated: map<string, Tree>) {
    forall k :: (k in additions <==> k in kept || k in translated)
                && (k in kept && k !in translated ==> additions[k] == kept[k])
                && (k !in kept && k in translated ==> additions[k] == translated[k])
                && (k in kept && k in translated ==> additions[k] == Merge(kept[k], translated[k]))
  }

  lemma MergeIsMergedOver(kept: map<string, Tree>, translated: map<string, Tree>)
    ensures Merge(Branch(kept), Branch(translated)).Branch?
    ensures MergedOver(Merge(Branch(kept), Branch(translated)).kids, kept, translated)
  {
  }

  lemma ClaudeResult(n: map<string, Tree>, norm: map<string, Input>, additions: map<string, Tree>, a: Acc)
    requires ClaudeFits(Mode(Claude, ForbiddenKeys(Claude), norm, norm.Keys), StringsAt(norm, "disabledTools"),
                        StringsAt(norm, "allowedCommands"), StringsAt(norm, "deniedCommands"), a)
    requires MergedOver(additions, Kept(n, ForbiddenKeys(Claude)), Finish(a).native)
    ensures ForClaude(n, norm, additions)
  {
    var p, tools := Posture(norm), StringsAt(norm, "disabledTools");
    var al, de := StringsAt(norm, "allowedCommands"), StringsAt(norm, "deniedCommands");
    ModeIs(Claude, norm);
    KeysInOrder(norm);
    assert ForbiddenKeys(Claude) == {"model", "permissions"};
    hide Mode, Merge, ToStrings, StringsAt, Posture, ForbiddenKeys, Part, Wrapped, Bash, Recognized;
    OnlyPermissions(n, a, additions);
    hide MergedOver, Kept, NativeBeside, Finish;
  }

  /** Claude's translation is its permissions, which the native layer does not have. */
  lemma OnlyPermissions(n: map<string, Tree>, a: Acc, additions: map<string, Tree>)
    requires a.native == map[] && MergedOver(additions, Kept(n, {"model", "permissions"}), Finish(a).native)
    ensures "model" !in additions && NativeBeside(n, {"model", "permissions"}, additions)
    ensures "permissions" in additions <==> a.perms.Some?
    ensures a.perms.Some? ==> additions["permissions"] == Branch(a.perms.value)
  {
    hide Merge;
  }

  lemma CodexResult(n: map<string, Tree>, norm: map<string, Input>, additions: map<string, Tree>, a: Acc)
    requires CodexFits(Mode(CodexAgent, ForbiddenKeys(CodexAgent), norm, norm.Keys),
                       StringsAt(norm, "allowedCommands"), StringsAt(norm, "deniedCommands"), a)
    requires MergedOver(additions, Kept(n, ForbiddenKeys(CodexAgent)), Finish(a).native)
    ensures ForCodex(n, norm, additions)
  {
    ModeIs(CodexAgent, norm);
    assert ForbiddenKeys(CodexAgent) == {"model", "approval_policy", "sandbox_mode", "sandbox_workspace_write"};
    hide Mode, Merge, ToStrings, StringsAt, Posture, ForbiddenKeys, Part;
  }

  lemma OpencodeResult(n: map<string, Tree>, norm: map<string, Input>, additions: map<string, Tree>, a: Acc)
    requires OpencodeFits(StringsAt(norm, "disabledTools"), StringsAt(norm, "allowedCommands"),
                          StringsAt(norm, "deniedCommands"), a)
    requires MergedOver(additions, Kept(n, ForbiddenKeys(Opencode)), Finish(a).native)
    ensures ForOpencode(n, norm, additions)
  {
    var tools, al := StringsAt(norm, "disabledTools"), StringsAt(norm, "allowedCommands");
    var de := StringsAt(norm, "deniedCommands");
    assert ForbiddenKeys(Opencode) == {"model", "permission"};
    hide Merge, StringsAt, ForbiddenKeys, WithAll, BashFits, ToolsOff, BashTable, MergedOver, Kept, KidsAt;
    assert Finish(a).native == a.native;
    OpencodeTools(n, tools, additions, a.native);
    PermissionOf(al, de, a);
    OpencodeBash(al, de, n, additions, a);
    OpencodeBeside(n, tools, additions, a.native);
  }

  lemma OpencodeBeside(n: map<string, Tree>, tools: seq<string>, additions: map<string, Tree>,
                       native: map<string, Tree>)
    requires native.Keys <= {"tools", "permission"} && ("tools" in native <==> tools != [])
    requires MergedOver(additions, Kept(n, {"model", "permission"}), native)
    ensures "model" !in additions
    ensures NativeBeside(n, {"model", "permission"} + if tools == [] then {} else {"tools"}, additions)
  {
    hide Merge;
  }

  lemma OpencodeTools(n: map<string, Tree>, tools: seq<string>, additions: map<string, Tree>, native: map<string, Tree>)
    requires "tools" in native <==> tools != []
    requires tools != [] ==> native["tools"] == Branch(WithAll(map[], tools, Flag(false)))
    requires MergedOver(additions, Kept(n, {"model", "permission"}), native)
    ensures ToolsOff(n, tools, additions)
  {
    if tools != [] {
      ToolsMerged(if "tools" in n then n["tools"] else Scalar(Flag(false)), tools);
      ScalarGivesWay(tools);
    }
    hide Merge, WithAll;
  }

  lemma OpencodeBash(al: seq<string>, de: seq<string>, n: map<string, Tree>, additions: map<string, Tree>, a: Acc)
    requires MergedOver(additions, Kept(n, {"model", "permission"}), a.native)
    requires "permission" in a.native <==> al != [] || de != []
    requires BashTable(al, de, a.native)
    ensures BashTable(al, de, additions)
  {
    hide Merge;
  }

  lemma ScalarGivesWay(tools: seq<string>)
    ensures Merge(Scalar(Flag(false)), Branch(WithAll(map[], tools, Flag(false)))) ==
            Branch(WithAll(map[], tools, Flag(false)))
  {
  }

  lemma PermissionOf(al: seq<string>, de: seq<string>, a: Acc)
    requires "permission" in a.native ==>
               var b := KidsAt(KidsAt(a.native, "permission"), "bash");
               a.native["permission"] == Branch(map["bash" := Branch(b)]) && BashFits(al, de, b)
    requires "permission" in a.native <==> al != [] || de != []
    ensures BashTable(al, de, a.native)
  {
  }

  lemma ToolsMerged(was: Tree, tools: seq<string>)
    ensures
      var m := Merge(was, Branch(WithAll(map[], tools, Flag(false))));
      var before := if was.Branch? then was.kids else map[];
      && m.Branch? && (forall x :: x in tools ==> x in m.kids && m.kids[x] == Scalar(Flag(false)))
      && (forall x :: x !in tools ==> (x in m.kids <==> x in before) && (x in before ==> m.kids[x] == before[x]))
  {
    var off := WithAll(map[], tools, Flag(false));
    assert forall x :: x in off <==> x in tools;
    assert forall x :: x in off ==> off[x] == Scalar(Flag(false));
  }

  lemma AdditionsAre(agent: Agent, n: map<string, Tree>, norm: map<string, Input>, additions: map<string, Tree>,
                     t: Translation, a: Acc)
    requires Translated(agent, norm, t, a) && MergedOver(additions, Kept(n, ForbiddenKeys(agent)), t.native)
    ensures ForAgent(agent, n, norm, additions)
  {
    hide ForClaude, ForCodex, ForOpencode, ClaudeFits, CodexFits, OpencodeFits, Mode, ForbiddenKeys, Kept, StringsAt;
    match agent
    case Claude => ClaudeResult(n, norm, additions, a);
    case CodexAgent => CodexResult(n, norm, additions, a);
    case Opencode => OpencodeResult(n, norm, additions, a);
    case OtherAgent => OtherResult(n, additions, a);
  }

  lemma OtherResult(n: map<string, Tree>, additions: map<string, Tree>, a: Acc)
    requires a.native == map[] && a.perms.None?
             && MergedOver(additions, Kept(n, ForbiddenKeys(OtherAgent)), Finish(a).native)
    ensures additions == n
  {
  }

  /** What the capability and the command policy say. */
  lemma CapabilityIs(agent: Agent, norm: map<string, Input>, t: Translation, a: Acc)
    requires Translated(agent, norm, t, a)
    ensures
      var al, de := StringsAt(norm, "allowedCommands"), StringsAt(norm, "deniedCommands");
      t.policy == if agent.CodexAgent? && (al != [] || de != []) then Some((al, de)) else None
    ensures t.capability.BestEffort? <==> (agent.Claude? || agent.CodexAgent?) && Posture(norm) == "auto"
    ensures t.capability.Applied? <==>
              !((agent.Claude? || agent.CodexAgent?) && Posture(norm) == "auto") && Asks(agent, norm)
  {
    ModeIs(agent, norm);
    hide Mode, ForbiddenKeys, StringsAt, Posture, IsAuto, BashFits;
  }

  /** The result of building, whatever the order of the keys. */
  lemma BuiltIs(agent: Agent, native: Option<map<string, Tree>>, norm: map<string, Input>, order: seq<string>,
                additions: map<string, Tree>, capability: Capability, reasons: seq<Reason>,
                policy: Option<(seq<string>, seq<string>)>)
    requires Enumerates(norm, order) && Built(agent, native, norm, order, additions, capability, reasons, policy)
    ensures ForAgent(agent, if native.Some? then native.value else map[], norm, additions)
    ensures
      var al, de := StringsAt(norm, "allowedCommands"), StringsAt(norm, "deniedCommands");
      policy == if agent.CodexAgent? && (al != [] || de != []) then Some((al, de)) else None
    ensures capability.BestEffort? <==> (agent.Claude? || agent.CodexAgent?) && Posture(norm) == "auto"
    ensures capability.Unsupported? <==>
              && !((agent.Claude? || agent.CodexAgent?) && Posture(norm) == "auto") && !Asks(agent, norm)
              && !NativeContributes(agent, if native.Some? then native.value else map[])
  {
    assert forall k :: k in order ==> k in norm;
    hide Fits, Fold, Finish, Mode, Merge, ForAgent, ForbiddenKeys, StringsAt, Posture, Asks;
    var a := Fold(agent, ForbiddenKeys(agent), norm, order);
    var t := Finish(a);
    TranslationIs(agent, norm, order);
    CapabilityIs(agent, norm, t, a);
    var n := if native.Some? then native.value else map[];
    var kept := Kept(n, ForbiddenKeys(agent));
    KeptNothing(n, ForbiddenKeys(agent));
    MergeIsMergedOver(kept, t.native);
    assert additions == Merge(Branch(kept), Branch(t.native)).kids;
    AdditionsAre(agent, n, norm, additions, t, a);
  }

  lemma KeptNothing(n: map<string, Tree>, forbidden: set<string>)
    ensures Kept(n, forbidden) == map[] <==> forall k :: k in n ==> k in forbidden
    ensures Kept(map[], forbidden) == map[]
  {
    var kept := Kept(n, forbidden);
    assert forall k :: k in kept <==> k in n && k !in forbidden;
    if kept == map[] {
      assert forall k :: k !in kept;
    } else {
      assert kept.Keys != {};
    }
  }

  // ------------------------------------------------------------------ the notes

  /** The `i`-th key gives the note. */
  ghost predicate NotedAt(agent: Agent, forbidden: set<string>, norm: map<string, Input>, order: seq<string>, r: Reason,
                          i: nat)
  {
    i < |order| && order[i] in norm && r in NotesOn(agent, forbidden, order[i], norm[order[i]])
  }

  lemma {:induction false} NotesMember(agent: Agent, forbidden: set<string>, norm: map<string, Input>,
                                       order: seq<string>, r: Reason)
    requires forall k :: k in order ==> k in norm
    ensures r in Notes(agent, forbidden, norm, order) <==> exists i: nat :: NotedAt(agent, forbidden, norm, order, r, i)
  {
    if order != [] {
      NotesMember(agent, forbidden, norm, order[..|order| - 1], r);
      NotesLast(agent, forbidden, norm, order, r);
      hide Notes;
      NotedLast(agent, forbidden, norm, order, order[..|order| - 1], r);
      hide NotedAt;
    }
  }

  lemma NotedLast(agent: Agent, forbidden: set<string>, norm: map<string, Input>, order: seq<string>,
                  before: seq<string>, r: Reason)
    requires order != [] && before == order[..|order| - 1] && forall k :: k in order ==> k in norm
    ensures (exists i: nat :: NotedAt(agent, forbidden, norm, order, r, i)) <==>
            || (exists i: nat :: NotedAt(agent, forbidden, norm, before, r, i))
            || r in NotesOn(agent, forbidden, order[|order| - 1], norm[order[|order| - 1]])
  {
    hide NotesOn;
    var n := |order| - 1;
    forall i: nat | i < n
      ensures NotedAt(agent, forbidden, norm, order, r, i) <==> NotedAt(agent, forbidden, norm, before, r, i)
    {
      assert before[i] == order[i];
    }
    assert NotedAt(agent, forbidden, norm, order, r, n) <==> r in NotesOn(agent, forbidden, order[n], norm[order[n]]);
  }

  lemma NotesLast(agent: Agent, forbidden: set<string>, norm: map<string, Input>, order: seq<string>, r: Reason)
    requires order != [] && forall k :: k in order ==> k in norm
    ensures r in Notes(agent, forbidden, norm, order) <==>
            || r in Notes(agent, forbidden, norm, order[..|order| - 1])
            || r in NotesOn(agent, forbidden, order[|order| - 1], norm[order[|order| - 1]])
  {
    hide NotesOn;
  }

  lemma NotesOfAll(agent: Agent, forbidden: set<string>, norm: map<string, Input>, order: seq<string>, r: Reason)
    requires Enumerates(norm, order)
    ensures r in Notes(agent, forbidden, norm, order) <==>
            exists k :: k in norm && r in NotesOn(agent, forbidden, k, norm[k])
  {
    NotesMember(agent, forbidden, norm, order, r);
    hide Notes, NotesOn;
    if i: nat :| NotedAt(agent, forbidden, norm, order, r, i) {
      assert order[i] in norm;
    }
    if k :| k in norm && r in NotesOn(agent, forbidden, k, norm[k]) {
      var i :| 0 <= i < |order| && order[i] == k;
      assert NotedAt(agent, forbidden, norm, order, r, i);
    }
  }

  /** Every note that building takes, and no other, whatever the order of the keys. */
  lemma ReasonsAre(agent: Agent, native: Option<map<string, Tree>>, norm: map<string, Input>, order: seq<string>,
                   additions: map<string, Tree>, capability: Capability, reasons: seq<Reason>,
                   policy: Option<(seq<string>, seq<string>)>, r: Reason)
    requires Enumerates(norm, order) && Built(agent, native, norm, order, additions, capability, reasons, policy)
    ensures r in reasons <==>
      match r
      case ForbiddenNative(k) => native.Some? && k in native.value && k in ForbiddenKeys(agent)
      case ForbiddenNormalized(k) => k in norm && k in ForbiddenKeys(agent)
      case UnknownKey(k) =>
        k in norm && k !in ForbiddenKeys(agent)
        && k !in {"approvalPosture", "disabledTools", "allowedCommands", "deniedCommands"}
      case Limited => Posture(norm) == "auto" && (agent.Claude? || agent.CodexAgent?)
      case NotRecognized(p) =>
        "approvalPosture" in norm && p == Posture(norm) && !Recognized(p) && (agent.Claude? || agent.CodexAgent?)
      case NotMapped(k) =>
        k in norm
        && ((k == "approvalPosture" && (agent.Opencode? || agent.OtherAgent?))
            || (k == "disabledTools" && StringsAt(norm, k) != [] && (agent.CodexAgent? || agent.OtherAgent?))
            || (k in {"allowedCommands", "deniedCommands"} && StringsAt(norm, k) != [] && agent.OtherAgent?))
  {
    var f := ForbiddenKeys(agent);
    var t := Finish(Fold(agent, f, norm, order));
    var dropped :| Drops(native, f, dropped) && reasons == DropNotes(dropped) + t.reasons;
    FoldNotes(agent, f, norm, order);
    NotesOfAll(agent, f, norm, order, r);
    assert r in t.reasons <==> r in multiset(t.reasons);
    DropNoted(dropped, r);
    hide Fold, Built, Notes, Enumerates, DropNotes;
    NoteOn(agent, norm, r);
  }

  lemma DropNoted(dropped: seq<string>, r: Reason)
    ensures r in DropNotes(dropped) <==> r.ForbiddenNative? && r.key in dropped
  {
    if r.ForbiddenNative? && r.key in dropped {
      var i :| 0 <= i < |dropped| && dropped[i] == r.key;
      assert DropNotes(dropped)[i] == r;
    }
  }

  lemma NoteOn(agent: Agent, norm: map<string, Input>, r: Reason)
    ensures (exists k :: k in norm && r in NotesOn(agent, ForbiddenKeys(agent), k, norm[k])) <==>
      match r
      case ForbiddenNative(_) => false
      case ForbiddenNormalized(k) => k in norm && k in ForbiddenKeys(agent)
      case UnknownKey(k) =>
        k in norm && k !in ForbiddenKeys(agent)
        && k !in {"approvalPosture", "disabledTools", "allowedCommands", "deniedCommands"}
      case Limited => Posture(norm) == "auto" && (agent.Claude? || agent.CodexAgent?)
      case NotRecognized(p) =>
        "approvalPosture" in norm && p == Posture(norm) && !Recognized(p) && (agent.Claude? || agent.CodexAgent?)
      case NotMapped(k) =>
        k in norm
        && ((k == "approvalPosture" && (agent.Opencode? || agent.OtherAgent?))
            || (k == "disabledTools" && StringsAt(norm, k) != [] && (agent.CodexAgent? || agent.OtherAgent?))
            || (k in {"allowedCommands", "deniedCommands"} && StringsAt(norm, k) != [] && agent.OtherAgent?))
  {
    assert "approvalPosture" !in norm ==> Posture(norm) != "auto";
    NormalizedAllowed(agent);
    hide StringsAt, Posture, NotesOn, ForbiddenKeys, Recognized;
    forall k | k in norm
      ensures r in NotesOn(agent, ForbiddenKeys(agent), k, norm[k]) <==> GivesNote(agent, norm, k, r)
    {
      NoteIs(agent, norm, k, r);
    }
    var at := match r
      case ForbiddenNormalized(k) => k
      case ForbiddenNative(k) => k
      case UnknownKey(k) => k
      case NotMapped(k) => k
      case _ => "approvalPosture";
    assert forall k :: GivesNote(agent, norm, k, r) ==> k == at;
    assert at in norm ==> (GivesNote(agent, norm, at, r) <==> r in NotesOn(agent, ForbiddenKeys(agent), at, norm[at]));
  }

  /** The note that a key gives. */
  predicate GivesNote(agent: Agent, norm: map<string, Input>, k: string, r: Reason) {
    match r
    case ForbiddenNative(_) => false
    case ForbiddenNormalized(x) => x == k && k in ForbiddenKeys(agent)
    case UnknownKey(x) =>
      x == k && k !in ForbiddenKeys(agent)
      && k !in {"approvalPosture", "disabledTools", "allowedCommands", "deniedCommands"}
    case Limited => k == "approvalPosture" && Posture(norm) == "auto" && (agent.Claude? || agent.CodexAgent?)
    case NotRecognized(p) =>
      k == "approvalPosture" && p == Posture(norm) && !Recognized(p) && (agent.Claude? || agent.CodexAgent?)
    case NotMapped(x) =>
      && x == k
      && ((k == "approvalPosture" && (agent.Opencode? || agent.OtherAgent?))
          || (k == "disabledTools" && StringsAt(norm, k) != [] && (agent.CodexAgent? || agent.OtherAgent?))
          || (k in {"allowedCommands", "deniedCommands"} && StringsAt(norm, k) != [] && agent.OtherAgent?))
  }

  lemma NoteIs(agent: Agent, norm: map<string, Input>, k: string, r: Reason)
    requires k in norm
    ensures r in NotesOn(agent, ForbiddenKeys(agent), k, norm[k]) <==> GivesNote(agent, norm, k, r)
  {
    KeysInOrder(norm);
    NormalizedAllowed(agent);
    hide ToStrings, ForbiddenKeys;
  }
}
