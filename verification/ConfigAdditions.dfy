/** Turning a configuration payload into the additions an agent's config file receives. The normalized keys
    are visited in whatever order the map yields them. */
module ConfigAdditions {
  import opened Codec
  import opened ConfigTree

  datatype Agent = Claude | CodexAgent | Opencode | OtherAgent

  /** A normalized value as decoded: a string, strings, a list whose non-strings are None, or other. */
  datatype Input = Str(s: string) | Strs(ss: seq<string>) | Anys(xs: seq<Option<string>>) | NotStrings

  datatype Capability = Applied | BestEffort | Unsupported

  datatype Reason =
    | ForbiddenNormalized(key: string) | ForbiddenNative(key: string) | UnknownKey(key: string)
    | Limited | NotRecognized(value: string) | NotMapped(key: string)

  const APPROVAL_POSTURE := "approvalPosture"
  const DISABLED_TOOLS := "disabledTools"
  const ALLOWED_COMMANDS := "allowedCommands"
  const DENIED_COMMANDS := "deniedCommands"

  function ForbiddenKeys(agent: Agent): set<string> {
    match agent
    case Claude => {"model", "permissions"}
    case CodexAgent => {"model", "approval_policy", "sandbox_mode", "sandbox_workspace_write"}
    case Opencode => {"model", "permission"}
    case OtherAgent => {}
  }

  function ClaudeMode(posture: string): Option<string> {
    match posture
    case "always-ask" => Some("default")
    case "ask-risky" => Some("acceptEdits")
    case "auto" => Some("acceptEdits")
    case "yolo" => Some("bypassPermissions")
    case _ => None
  }

  function CodexMode(posture: string): Option<string> {
    match posture
    case "always-ask" => Some("untrusted")
    case "ask-risky" => Some("on-request")
    case "auto" => Some("on-failure")
    case "yolo" => Some("never")
    case _ => None
  }

  function StringsIn(xs: seq<Option<string>>): seq<string> {
    if xs == [] then [] else (if xs[0].Some? then [xs[0].value] else []) + StringsIn(xs[1..])
  }

  /** toStringSlice */
  function ToStrings(v: Input): seq<string> {
    match v
    case Str(s) => [s]
    case Strs(ss) => ss
    case Anys(xs) => StringsIn(xs)
    case NotStrings => []
  }

  /** A string counts as one, of a list the strings count in their order, and anything else counts for none. */
  lemma ToStringsIs(v: Input)
    ensures match v
            case Str(s) => ToStrings(v) == [s]
            case Strs(ss) => ToStrings(v) == ss
            case Anys(xs) =>
              && (forall s :: s in ToStrings(v) <==> Some(s) in xs)
              && ((forall x :: x in xs ==> x.Some?) ==>
                    |ToStrings(v)| == |xs| && forall i :: 0 <= i < |xs| ==> xs[i] == Some(ToStrings(v)[i]))
            case NotStrings => ToStrings(v) == []
  {
    if v.Anys? {
      StringsInAre(v.xs);
    }
  }

  lemma {:induction false} StringsInAre(xs: seq<Option<string>>)
    ensures forall s :: s in StringsIn(xs) <==> Some(s) in xs
    ensures (forall x :: x in xs ==> x.Some?) ==>
              |StringsIn(xs)| == |xs| && forall i :: 0 <= i < |xs| ==> xs[i] == Some(StringsIn(xs)[i])
  {
    if xs != [] {
      StringsInAre(xs[1..]);
      assert xs == [xs[0]] + xs[1..];
    }
  }

  function TextOf(v: Input): string {
    if v.Str? then v.s else ""
  }

  function Bash(patterns: seq<string>): seq<string> {
    seq(|patterns|, i requires 0 <= i < |patterns| => "Bash(" + patterns[i] + ")")
  }

  // ------------------------------------------------------------------ one key

  /** The translation's variables: what it has written, claude's permissions and codex's command policy
      kept aside, its two flags and its notes. */
  datatype Acc = Acc(
    native: map<string, Tree>, perms: Option<map<string, Tree>>, allowed: seq<string>, denied: seq<string>,
    best: bool, applied: bool, reasons: seq<Reason>)

  function Note(a: Acc, r: Reason): Acc {
    a.(reasons := a.reasons + [r])
  }

  function PermsOf(a: Acc): map<string, Tree> {
    if a.perms.Some? then a.perms.value else map[]
  }

  function ItemsAt(m: map<string, Tree>, k: string): seq<string> {
    if k in m && m[k].Scalar? && m[k].data.Items? then m[k].data.items else []
  }

  function AppendPerm(a: Acc, k: string, items: seq<string>): Acc {
    a.(perms := Some(PermsOf(a)[k := Scalar(Items(ItemsAt(PermsOf(a), k) + items))]), applied := true)
  }

  function KidsAt(m: map<string, Tree>, k: string): map<string, Tree> {
    if k in m && m[k].Branch? then m[k].kids else map[]
  }

  /** `m` with every one of `keys` set. */
  function WithAll(m: map<string, Tree>, keys: seq<string>, d: Datum): map<string, Tree> {
    m + map k | k in keys :: Scalar(d)
  }

  function SetBash(a: Acc, patterns: seq<string>, verdict: string): Acc {
    var permission := KidsAt(a.native, "permission");
    var bash := WithAll(KidsAt(permission, "bash"), patterns, Text(verdict));
    a.(native := a.native["permission" := Branch(permission["bash" := Branch(bash)])], applied := true)
  }

  function PostureStep(agent: Agent, a: Acc, posture: string): Acc {
    var mode := if agent.Claude? then ClaudeMode(posture) else if agent.CodexAgent? then CodexMode(posture) else None;
    if !agent.Claude? && !agent.CodexAgent? then Note(a, NotMapped(APPROVAL_POSTURE))
    else if mode.None? then Note(a, NotRecognized(posture))
    else
      var m := if agent.Claude? then a.(perms := Some(PermsOf(a)["defaultMode" := Scalar(Text(mode.value))]))
               else a.(native := a.native["approval_policy" := Scalar(Text(mode.value))]);
      if posture == "auto" then Note(m.(best := true), Limited) else m.(applied := true)
  }

  function ToolsStep(agent: Agent, a: Acc, tools: seq<string>): Acc {
    if tools == [] then a
    else
      match agent
      case Opencode => a.(native := a.native["tools" := Branch(WithAll(map[], tools, Flag(false)))], applied := true)
      case Claude => AppendPerm(a, "deny", tools)
      case _ => Note(a, NotMapped(DISABLED_TOOLS))
  }

  function CommandsStep(agent: Agent, a: Acc, patterns: seq<string>, allow: bool): Acc {
    if patterns == [] then a
    else
      match agent
      case Claude => AppendPerm(a, if allow then "allow" else "deny", Bash(patterns))
      case Opencode => SetBash(a, patterns, if allow then "allow" else "deny")
      case CodexAgent =>
        if allow then a.(allowed := a.allowed + patterns, applied := true)
        else a.(denied := a.denied + patterns, applied := true)
      case OtherAgent => Note(a, NotMapped(if allow then ALLOWED_COMMANDS else DENIED_COMMANDS))
  }

  function Step(agent: Agent, forbidden: set<string>, a: Acc, k: string, v: Input): Acc {
    if k in forbidden then Note(a, ForbiddenNormalized(k))
    else if k == APPROVAL_POSTURE then PostureStep(agent, a, TextOf(v))
    else if k == DISABLED_TOOLS then ToolsStep(agent, a, ToStrings(v))
    else if k == ALLOWED_COMMANDS then CommandsStep(agent, a, ToStrings(v), true)
    else if k == DENIED_COMMANDS then CommandsStep(agent, a, ToStrings(v), false)
    else Note(a, UnknownKey(k))
  }

  const EMPTY := Acc(map[], None, [], [], false, false, [])

  /** The loop over an order in which the map's keys come. */
  function Fold(agent: Agent, forbidden: set<string>, norm: map<string, Input>, order: seq<string>): Acc
    requires forall k :: k in order ==> k in norm
  {
    if order == [] then EMPTY
    else
      var k := order[|order| - 1];
      Step(agent, forbidden, Fold(agent, forbidden, norm, order[..|order| - 1]), k, norm[k])
  }

  datatype Translation = Translation(
    native: map<string, Tree>, capability: Capability, reasons: seq<Reason>, policy: Option<(seq<string>, seq<string>)>)

  function Finish(a: Acc): Translation {
    Translation(
      if a.perms.Some? then a.native["permissions" := Branch(a.perms.value)] else a.native,
      if a.best then BestEffort else if a.applied then Applied else Unsupported,
      a.reasons,
      if a.allowed == [] && a.denied == [] then None else Some((a.allowed, a.denied)))
  }

  /** `order` names every key of `norm` once. */
  ghost predicate Enumerates(norm: map<string, Input>, order: seq<string>) {
    && (forall k :: k in order <==> k in norm)
    && (forall i, j :: 0 <= i < j < |order| ==> order[i] != order[j])
  }

  /** translateNormalized: a run of the loop in some order. */
  method TranslateNormalized(agent: Agent, norm: map<string, Input>, forbidden: set<string>) returns (r: Translation)
    ensures exists order :: Enumerates(norm, order) && r == Finish(Fold(agent, forbidden, norm, order))
  {
    hide PostureStep, ToolsStep, CommandsStep, ToStrings, Finish;
    var a := EMPTY;
    ghost var order: seq<string> := [];
    var rest := norm.Keys;
    while rest != {}
      invariant rest <= norm.Keys
      invariant forall k :: k in order <==> k in norm.Keys - rest
      invariant forall i, j :: 0 <= i < j < |order| ==> order[i] != order[j]
      invariant a == Fold(agent, forbidden, norm, order)
      decreases |rest|
    {
      var k :| k in rest;
      var v := norm[k];
      ghost var was := a;
      if k in forbidden {
        a := Note(a, ForbiddenNormalized(k));
      } else if k == APPROVAL_POSTURE {
        a := PostureStep(agent, a, TextOf(v));
      } else if k == DISABLED_TOOLS {
        a := ToolsStep(agent, a, ToStrings(v));
      } else if k == ALLOWED_COMMANDS {
        a := CommandsStep(agent, a, ToStrings(v), true);
      } else if k == DENIED_COMMANDS {
        a := CommandsStep(agent, a, ToStrings(v), false);
      } else {
        a := Note(a, UnknownKey(k));
      }
      ghost var longer := order + [k];
      assert longer[..|longer| - 1] == order && forall i :: 0 <= i < |order| ==> order[i] in order;
      assert a == Step(agent, forbidden, was, k, v);
      rest, order := rest - {k}, longer;
    }
    assert Enumerates(norm, order);
    r := Finish(a);
  }

  // ------------------------------------------------------------------ what the loop computes, whatever the order

  /** The strings a key that has been visited contributes. */
  function Part(forbidden: set<string>, norm: map<string, Input>, done: set<string>, k: string): seq<string> {
    if k in done && k in norm && k !in forbidden then ToStrings(norm[k]) else []
  }

  function Mode(agent: Agent, forbidden: set<string>, norm: map<string, Input>, done: set<string>): Option<string> {
    if APPROVAL_POSTURE in done && APPROVAL_POSTURE in norm && APPROVAL_POSTURE !in forbidden then
      if agent.Claude? then ClaudeMode(TextOf(norm[APPROVAL_POSTURE]))
      else if agent.CodexAgent? then CodexMode(TextOf(norm[APPROVAL_POSTURE]))
      else None
    else None
  }

  predicate IsAuto(norm: map<string, Input>) {
    APPROVAL_POSTURE in norm && TextOf(norm[APPROVAL_POSTURE]) == "auto"
  }

  predicate FlagsFit(agent: Agent, mode: Option<string>, auto: bool, tools: seq<string>, al: seq<string>,
                     de: seq<string>, a: Acc) {
    && (a.best <==> mode.Some? && auto)
    && (a.applied <==>
          || (mode.Some? && !auto)
          || (tools != [] && (agent.Claude? || agent.Opencode?))
          || ((al != [] || de != []) && !agent.OtherAgent?))
  }

  /** Claude's permissions: mode, allow list, and a deny list made of two parts in either order. */
  predicate ClaudeFits(mode: Option<string>, tools: seq<string>, al: seq<string>, de: seq<string>, a: Acc) {
    && a.native == map[] && a.allowed == [] && a.denied == []
    && (a.perms.None? <==> mode.None? && tools == [] && al == [] && de == [])
    && var p := PermsOf(a);
    && p.Keys <= {"defaultMode", "allow", "deny"}
    && ("defaultMode" in p <==> mode.Some?) && (mode.Some? ==> p["defaultMode"] == Scalar(Text(mode.value)))
    && ("allow" in p <==> al != []) && (al != [] ==> p["allow"] == Scalar(Items(Bash(al))))
    && ("deny" in p <==> tools != [] || de != [])
    && ("deny" in p ==> p["deny"] == Scalar(Items(tools + Bash(de))) || p["deny"] == Scalar(Items(Bash(de) + tools)))
  }

  predicate CodexFits(mode: Option<string>, al: seq<string>, de: seq<string>, a: Acc) {
    && a.native == (if mode.Some? then map["approval_policy" := Scalar(Text(mode.value))] else map[])
    && a.perms.None? && a.allowed == al && a.denied == de
  }

  /** Opencode's tables; a pattern both allowed and denied may read either way. */
  ghost predicate OpencodeFits(tools: seq<string>, al: seq<string>, de: seq<string>, a: Acc) {
    && a.perms.None? && a.allowed == [] && a.denied == []
    && a.native.Keys <= {"tools", "permission"}
    && ("tools" in a.native <==> tools != [])
    && (tools != [] ==> a.native["tools"] == Branch(WithAll(map[], tools, Flag(false))))
    && ("permission" in a.native <==> al != [] || de != [])
    && ("permission" in a.native ==>
          var b := KidsAt(KidsAt(a.native, "permission"), "bash");
          a.native["permission"] == Branch(map["bash" := Branch(b)]) && BashFits(al, de, b))
  }

  ghost predicate BashFits(al: seq<string>, de: seq<string>, b: map<string, Tree>) {
    && (forall p :: p in b <==> p in al || p in de)
    && (forall p :: p in b ==>
          (p in al && b[p] == Scalar(Text("allow"))) || (p in de && b[p] == Scalar(Text("deny"))))
  }

  ghost predicate Fits(agent: Agent, mode: Option<string>, auto: bool, tools: seq<string>, al: seq<string>,
                       de: seq<string>, a: Acc) {
    && FlagsFit(agent, mode, auto, tools, al, de, a)
    && match agent
       case Claude => ClaudeFits(mode, tools, al, de, a)
       case CodexAgent => CodexFits(mode, al, de, a)
       case Opencode => OpencodeFits(tools, al, de, a)
       case OtherAgent => a.native == map[] && a.perms.None? && a.allowed == [] && a.denied == []
  }

  ghost predicate FitsDone(agent: Agent, forbidden: set<string>, norm: map<string, Input>, done: set<string>, a: Acc) {
    Fits(agent, Mode(agent, forbidden, norm, done), IsAuto(norm), Part(forbidden, norm, done, DISABLED_TOOLS),
         Part(forbidden, norm, done, ALLOWED_COMMANDS), Part(forbidden, norm, done, DENIED_COMMANDS), a)
  }

  lemma PostureFits(agent: Agent, posture: string, tools: seq<string>, al: seq<string>, de: seq<string>, a: Acc)
    requires Fits(agent, None, posture == "auto", tools, al, de, a)
    ensures
      var mode := if agent.Claude? then ClaudeMode(posture) else if agent.CodexAgent? then CodexMode(posture) else None;
      Fits(agent, mode, posture == "auto", tools, al, de, PostureStep(agent, a, posture))
  {
  }

  lemma ToolsFit(agent: Agent, mode: Option<string>, auto: bool, tools: seq<string>, al: seq<string>,
                 de: seq<string>, a: Acc)
    requires Fits(agent, mode, auto, [], al, de, a)
    ensures Fits(agent, mode, auto, tools, al, de, ToolsStep(agent, a, tools))
  {
    if tools != [] && agent.Claude? {
      assert ItemsAt(PermsOf(a), "deny") == Bash(de);
    }
  }

  lemma AllowedFit(agent: Agent, mode: Option<string>, auto: bool, tools: seq<string>, al: seq<string>,
                   de: seq<string>, a: Acc)
    requires Fits(agent, mode, auto, tools, [], de, a)
    ensures Fits(agent, mode, auto, tools, al, de, CommandsStep(agent, a, al, true))
  {
    if al != [] && agent.Claude? {
      assert ItemsAt(PermsOf(a), "allow") == [] && [] + Bash(al) == Bash(al);
    } else if al != [] && agent.Opencode? {
      BashGrows(tools, [], de, a, al, true);
    }
  }

  lemma DeniedFit(agent: Agent, mode: Option<string>, auto: bool, tools: seq<string>, al: seq<string>,
                  de: seq<string>, a: Acc)
    requires Fits(agent, mode, auto, tools, al, [], a)
    ensures Fits(agent, mode, auto, tools, al, de, CommandsStep(agent, a, de, false))
  {
    if de != [] && agent.Claude? {
      assert ItemsAt(PermsOf(a), "deny") == tools;
      assert tools + Bash([]) == tools && Bash([]) + tools == tools;
    } else if de != [] && agent.Opencode? {
      BashGrows(tools, al, [], a, de, false);
    }
  }

  lemma BashGrows(tools: seq<string>, al: seq<string>, de: seq<string>, a: Acc, patterns: seq<string>, allow: bool)
    requires OpencodeFits(tools, al, de, a) && patterns != [] && (if allow then al == [] else de == [])
    ensures OpencodeFits(tools, if allow then patterns else al, if allow then de else patterns,
                         SetBash(a, patterns, if allow then "allow" else "deny"))
  {
    var verdict := if allow then "allow" else "deny";
    var was := KidsAt(KidsAt(a.native, "permission"), "bash");
    var b := WithAll(was, patterns, Text(verdict));
    var a' := SetBash(a, patterns, verdict);
    assert a'.native["permission"] == Branch(map["bash" := Branch(b)]);
    assert BashFits(if allow then patterns else al, if allow then de else patterns, b);
  }

  /** The visited keys of an order. */
  function Visited(order: seq<string>): set<string> {
    set k | k in order
  }

  /** Visiting one more key changes only that key's part. */
  lemma StepFits(agent: Agent, forbidden: set<string>, norm: map<string, Input>, done: set<string>, a: Acc, k: string)
    requires k in norm && k !in done && FitsDone(agent, forbidden, norm, done, a)
    ensures FitsDone(agent, forbidden, norm, done + {k}, Step(agent, forbidden, a, k, norm[k]))
  {
    var mode, auto := Mode(agent, forbidden, norm, done), IsAuto(norm);
    var tools, al := Part(forbidden, norm, done, DISABLED_TOOLS), Part(forbidden, norm, done, ALLOWED_COMMANDS);
    var de := Part(forbidden, norm, done, DENIED_COMMANDS);
    hide Fits;
    if k in forbidden {
      NoteFits(agent, mode, auto, tools, al, de, a, ForbiddenNormalized(k));
    } else if k == APPROVAL_POSTURE {
      PostureFits(agent, TextOf(norm[k]), tools, al, de, a);
    } else if k == DISABLED_TOOLS {
      ToolsFit(agent, mode, auto, ToStrings(norm[k]), al, de, a);
    } else if k == ALLOWED_COMMANDS {
      AllowedFit(agent, mode, auto, tools, ToStrings(norm[k]), de, a);
    } else if k == DENIED_COMMANDS {
      DeniedFit(agent, mode, auto, tools, al, ToStrings(norm[k]), a);
    } else {
      NoteFits(agent, mode, auto, tools, al, de, a, UnknownKey(k));
    }
  }

  lemma NoteFits(agent: Agent, mode: Option<string>, auto: bool, tools: seq<string>, al: seq<string>,
                 de: seq<string>, a: Acc, r: Reason)
    requires Fits(agent, mode, auto, tools, al, de, a)
    ensures Fits(agent, mode, auto, tools, al, de, Note(a, r))
  {
  }

  /** Whatever the order, the loop has computed what the keys visited so far stand for. */
  lemma {:induction false} FoldFits(agent: Agent, forbidden: set<string>, norm: map<string, Input>, order: seq<string>)
    requires forall k :: k in order ==> k in norm
    requires forall i, j :: 0 <= i < j < |order| ==> order[i] != order[j]
    ensures FitsDone(agent, forbidden, norm, Visited(order), Fold(agent, forbidden, norm, order))
  {
    if order == [] {
      EmptyFits(agent, forbidden, norm);
    } else {
      var before, k := order[..|order| - 1], order[|order| - 1];
      FoldFits(agent, forbidden, norm, before);
      assert order == before + [k];
      assert Visited(order) == Visited(before) + {k};
      hide FitsDone, Step;
      StepFits(agent, forbidden, norm, Visited(before), Fold(agent, forbidden, norm, before), k);
    }
  }

  lemma EmptyFits(agent: Agent, forbidden: set<string>, norm: map<string, Input>)
    ensures FitsDone(agent, forbidden, norm, Visited([]), EMPTY)
  {
  }

  // ------------------------------------------------------------------ the notes, whatever the order

  /** What visiting a key notes down, whatever was there before. */
  function NotesOn(agent: Agent, forbidden: set<string>, k: string, v: Input): seq<Reason> {
    if k in forbidden then [ForbiddenNormalized(k)]
    else if k == APPROVAL_POSTURE then
      if agent.Claude? || agent.CodexAgent? then
        if (if agent.Claude? then ClaudeMode(TextOf(v)) else CodexMode(TextOf(v))).None? then [NotRecognized(TextOf(v))]
        else if TextOf(v) == "auto" then [Limited] else []
      else [NotMapped(k)]
    else if k == DISABLED_TOOLS then
      if ToStrings(v) != [] && (agent.CodexAgent? || agent.OtherAgent?) then [NotMapped(k)] else []
    else if k == ALLOWED_COMMANDS || k == DENIED_COMMANDS then
      if ToStrings(v) != [] && agent.OtherAgent? then [NotMapped(k)] else []
    else [UnknownKey(k)]
  }

  lemma StepNotes(agent: Agent, forbidden: set<string>, a: Acc, k: string, v: Input)
    ensures Step(agent, forbidden, a, k, v).reasons == a.reasons + NotesOn(agent, forbidden, k, v)
  {
    if k in forbidden {
    } else if k == APPROVAL_POSTURE {
      PostureNotes(agent, a, TextOf(v));
    } else if k == DISABLED_TOOLS {
      ToolsNotes(agent, a, ToStrings(v));
    } else if k == ALLOWED_COMMANDS || k == DENIED_COMMANDS {
      CommandsNotes(agent, a, ToStrings(v), k == ALLOWED_COMMANDS);
    }
    hide PostureStep, ToolsStep, CommandsStep, ToStrings, TextOf, ClaudeMode, CodexMode;
  }

  lemma PostureNotes(agent: Agent, a: Acc, posture: string)
    ensures PostureStep(agent, a, posture).reasons == a.reasons +
              if agent.Claude? || agent.CodexAgent? then
                if (if agent.Claude? then ClaudeMode(posture) else CodexMode(posture)).None?
                then [NotRecognized(posture)]
                else if posture == "auto" then [Limited] else []
              else [NotMapped(APPROVAL_POSTURE)]
  {
    hide ClaudeMode, CodexMode;
  }

  lemma ToolsNotes(agent: Agent, a: Acc, tools: seq<string>)
    ensures ToolsStep(agent, a, tools).reasons == a.reasons +
              if tools != [] && (agent.CodexAgent? || agent.OtherAgent?) then [NotMapped(DISABLED_TOOLS)] else []
  {
  }

  lemma CommandsNotes(agent: Agent, a: Acc, patterns: seq<string>, allow: bool)
    ensures CommandsStep(agent, a, patterns, allow).reasons == a.reasons +
              if patterns == [] || !agent.OtherAgent? then []
              else [NotMapped(if allow then ALLOWED_COMMANDS else DENIED_COMMANDS)]
  {
  }

  function Notes(agent: Agent, forbidden: set<string>, norm: map<string, Input>, order: seq<string>): multiset<Reason>
    requires forall k :: k in order ==> k in norm
  {
    if order == [] then multiset{}
    else
      Notes(agent, forbidden, norm, order[..|order| - 1])
      + multiset(NotesOn(agent, forbidden, order[|order| - 1], norm[order[|order| - 1]]))
  }

  lemma {:induction false} FoldNotes(agent: Agent, forbidden: set<string>, norm: map<string, Input>, order: seq<string>)
    requires forall k :: k in order ==> k in norm
    ensures multiset(Fold(agent, forbidden, norm, order).reasons) == Notes(agent, forbidden, norm, order)
  {
    if order != [] {
      var before, k := order[..|order| - 1], order[|order| - 1];
      FoldNotes(agent, forbidden, norm, before);
      StepNotes(agent, forbidden, Fold(agent, forbidden, norm, before), k, norm[k]);
      hide Step, NotesOn;
    }
  }

  function Without(order: seq<string>, i: nat): seq<string>
    requires i < |order|
  {
    order[..i] + order[i + 1..]
  }

  lemma NotesAppended(agent: Agent, forbidden: set<string>, norm: map<string, Input>, order: seq<string>, k: string)
    requires k in norm && forall x :: x in order ==> x in norm
    ensures Notes(agent, forbidden, norm, order + [k]) == Notes(agent, forbidden, norm, order)
            + multiset(NotesOn(agent, forbidden, k, norm[k]))
  {
    assert (order + [k])[..|order|] == order;
    hide NotesOn;
  }

  /** Any key's notes can be taken out. */
  lemma {:induction false} NotesWithout(agent: Agent, forbidden: set<string>, norm: map<string, Input>,
                                        order: seq<string>, i: nat)
    requires i < |order| && forall k :: k in order ==> k in norm
    ensures (forall k :: k in Without(order, i) ==> k in norm) && order[i] in norm
    ensures Notes(agent, forbidden, norm, order)
            == Notes(agent, forbidden, norm, Without(order, i))
                + multiset(NotesOn(agent, forbidden, order[i], norm[order[i]]))
  {
    hide NotesOn, Notes;
    var last := |order| - 1;
    assert order == order[..last] + [order[last]];
    NotesAppended(agent, forbidden, norm, order[..last], order[last]);
    if i == last {
      assert Without(order, i) == order[..last];
    } else {
      NotesWithout(agent, forbidden, norm, order[..last], i);
      assert Without(order, i) == Without(order[..last], i) + [order[last]];
      NotesAppended(agent, forbidden, norm, Without(order[..last], i), order[last]);
    }
  }

  lemma {:induction false} NotesIgnoreOrder(agent: Agent, forbidden: set<string>, norm: map<string, Input>,
                                            o1: seq<string>, o2: seq<string>)
    requires (forall k :: k in o1 ==> k in norm) && (forall k :: k in o1 <==> k in o2)
    requires forall i, j :: 0 <= i < j < |o1| ==> o1[i] != o1[j]
    requires forall i, j :: 0 <= i < j < |o2| ==> o2[i] != o2[j]
    ensures Notes(agent, forbidden, norm, o1) == Notes(agent, forbidden, norm, o2)
    decreases |o1|
  {
    hide Notes, NotesOn;
    assert o2 != [] ==> o2[0] in o2 && o2[0] in o1;
    if o1 != [] {
      var last := |o1| - 1;
      assert o1[last] in o1;
      var i :| 0 <= i < |o2| && o2[i] == o1[last];
      NotesWithout(agent, forbidden, norm, o1, last);
      NotesWithout(agent, forbidden, norm, o2, i);
      WithoutMembers(o1, last);
      WithoutMembers(o2, i);
      NotesIgnoreOrder(agent, forbidden, norm, Without(o1, last), Without(o2, i));
    }
  }

  lemma WithoutMembers(order: seq<string>, i: nat)
    requires i < |order| && forall x, y :: 0 <= x < y < |order| ==> order[x] != order[y]
    ensures forall k :: k in Without(order, i) <==> k in order && k != order[i]
    ensures forall x, y :: 0 <= x < y < |Without(order, i)| ==> Without(order, i)[x] != Without(order, i)[y]
  {
    var w := Without(order, i);
    assert forall x :: 0 <= x < |w| ==> w[x] == order[if x < i then x else x + 1];
    forall k | k in order && k != order[i]
      ensures k in w
    {
      var x :| 0 <= x < |order| && order[x] == k;
      assert w[if x < i then x else x - 1] == k;
    }
  }

  /** Equal but for the order of claude's deny list and of the notes. */
  ghost predicate SameUpToOrder(a: Acc, b: Acc) {
    SameButDenyOrder(a, b) && multiset(a.reasons) == multiset(b.reasons)
  }

  /** The values written, equal but for the order of claude's deny list. */
  ghost predicate SameButDenyOrder(a: Acc, b: Acc) {
    && a.native == b.native && a.allowed == b.allowed && a.denied == b.denied && a.best == b.best
          && a.applied == b.applied
    && (a.perms.Some? <==> b.perms.Some?)
    && PermsOf(a) - {"deny"} == PermsOf(b) - {"deny"}
    && multiset(ItemsAt(PermsOf(a), "deny")) == multiset(ItemsAt(PermsOf(b), "deny"))
    && ("deny" in PermsOf(a) <==> "deny" in PermsOf(b))
  }

  /** No pattern is both allowed and denied. */
  predicate Consistent(norm: map<string, Input>) {
    ALLOWED_COMMANDS in norm && DENIED_COMMANDS in norm ==>
      forall p :: p in ToStrings(norm[ALLOWED_COMMANDS]) ==> p !in ToStrings(norm[DENIED_COMMANDS])
  }

  lemma FitsSame(agent: Agent, mode: Option<string>, auto: bool, tools: seq<string>, al: seq<string>,
                 de: seq<string>, a: Acc, b: Acc)
    requires Fits(agent, mode, auto, tools, al, de, a) && Fits(agent, mode, auto, tools, al, de, b)
    requires agent.Opencode? ==> forall p :: p in al ==> p !in de
    ensures SameButDenyOrder(a, b)
  {
    match agent
    case Claude => ClaudeSame(mode, tools, al, de, a, b);
    case Opencode => OpencodeSame(tools, al, de, a, b);
    case _ =>
  }

  lemma ClaudeSame(mode: Option<string>, tools: seq<string>, al: seq<string>, de: seq<string>, a: Acc, b: Acc)
    requires ClaudeFits(mode, tools, al, de, a) && ClaudeFits(mode, tools, al, de, b) && a.best == b.best
             && a.applied == b.applied
    ensures SameButDenyOrder(a, b)
  {
    hide Bash;
    assert multiset(tools + Bash(de)) == multiset(Bash(de) + tools);
    assert PermsOf(a) - {"deny"} == PermsOf(b) - {"deny"};
  }

  lemma OpencodeSame(tools: seq<string>, al: seq<string>, de: seq<string>, a: Acc, b: Acc)
    requires OpencodeFits(tools, al, de, a) && OpencodeFits(tools, al, de, b) && a.best == b.best
             && a.applied == b.applied
    requires forall p :: p in al ==> p !in de
    ensures SameButDenyOrder(a, b)
  {
    hide WithAll;
    var x, y := KidsAt(KidsAt(a.native, "permission"), "bash"), KidsAt(KidsAt(b.native, "permission"), "bash");
    assert "permission" in a.native ==> x == y;
    assert a.native == b.native;
  }

  /** The translation does not depend on the order in which the map yields its keys, up to the order of
      claude's deny list and of the notes; for opencode, provided no pattern is both allowed and denied. */
  lemma OrderIrrelevant(agent: Agent, norm: map<string, Input>, o1: seq<string>, o2: seq<string>)
    requires Enumerates(norm, o1) && Enumerates(norm, o2)
    requires agent.Opencode? ==> Consistent(norm)
    ensures SameUpToOrder(Fold(agent, ForbiddenKeys(agent), norm, o1), Fold(agent, ForbiddenKeys(agent), norm, o2))
  {
    var f := ForbiddenKeys(agent);
    FoldNotes(agent, f, norm, o1);
    FoldNotes(agent, f, norm, o2);
    NotesIgnoreOrder(agent, f, norm, o1, o2);
    FoldFits(agent, f, norm, o1);
    FoldFits(agent, f, norm, o2);
    assert Visited(o1) == Visited(o2) == norm.Keys;
    hide Fits, Fold;
    FitsSame(agent, Mode(agent, f, norm, norm.Keys), IsAuto(norm), Part(f, norm, norm.Keys, DISABLED_TOOLS),
             Part(f, norm, norm.Keys, ALLOWED_COMMANDS), Part(f, norm, norm.Keys, DENIED_COMMANDS),
             Fold(agent, f, norm, o1), Fold(agent, f, norm, o2));
  }

  lemma {:induction false} SomeOrder(keys: set<string>) returns (order: seq<string>)
    ensures forall k :: k in order <==> k in keys
    ensures forall i, j :: 0 <= i < j < |order| ==> order[i] != order[j]
    decreases |keys|
  {
    if keys == {} {
      order := [];
    } else {
      var k :| k in keys;
      order := SomeOrder(keys - {k});
      order := order + [k];
    }
  }

  /** What the last key visited says about a pattern stands. */
  lemma LastWordStands(norm: map<string, Input>, order: seq<string>, k: string, p: string)
    requires k == ALLOWED_COMMANDS || k == DENIED_COMMANDS
    requires k in norm && p in ToStrings(norm[k]) && forall x :: x in order ==> x in norm
    ensures
      var a := Fold(Opencode, ForbiddenKeys(Opencode), norm, order + [k]);
      var bash := KidsAt(KidsAt(a.native, "permission"), "bash");
      p in bash && bash[p] == Scalar(Text(if k == ALLOWED_COMMANDS then "allow" else "deny"))
  {
    assert (order + [k])[..|order + [k]| - 1] == order;
    var before := Fold(Opencode, ForbiddenKeys(Opencode), norm, order);
    var verdict := if k == ALLOWED_COMMANDS then "allow" else "deny";
    var a := SetBash(before, ToStrings(norm[k]), verdict);
    assert Fold(Opencode, ForbiddenKeys(Opencode), norm, order + [k]) == a;
    hide Fold;
    var b := KidsAt(KidsAt(a.native, "permission"), "bash");
    assert p in b && b[p] == Scalar(Text(verdict));
  }

  /** And it needs that proviso: with a pattern both allowed and denied, two orders disagree about it. */
  lemma InconsistentOrdersDiffer(norm: map<string, Input>) returns (o1: seq<string>, o2: seq<string>)
    requires !Consistent(norm)
    ensures Enumerates(norm, o1) && Enumerates(norm, o2)
    ensures Fold(Opencode, ForbiddenKeys(Opencode), norm, o1).native !=
            Fold(Opencode, ForbiddenKeys(Opencode), norm, o2).native
  {
    var p :| p in ToStrings(norm[ALLOWED_COMMANDS]) && p in ToStrings(norm[DENIED_COMMANDS]);
    var rest := SomeOrder(norm.Keys - {ALLOWED_COMMANDS, DENIED_COMMANDS});
    o1 := rest + [ALLOWED_COMMANDS] + [DENIED_COMMANDS];
    o2 := rest + [DENIED_COMMANDS] + [ALLOWED_COMMANDS];
    EndsEnumerate(norm, rest, ALLOWED_COMMANDS, DENIED_COMMANDS);
    EndsEnumerate(norm, rest, DENIED_COMMANDS, ALLOWED_COMMANDS);
    hide Fold, ToStrings;
    LastWordStands(norm, rest + [ALLOWED_COMMANDS], DENIED_COMMANDS, p);
    LastWordStands(norm, rest + [DENIED_COMMANDS], ALLOWED_COMMANDS, p);
  }

  lemma EndsEnumerate(norm: map<string, Input>, rest: seq<string>, x: string, y: string)
    requires x in norm && y in norm && x != y
    requires forall k :: k in rest <==> k in norm.Keys - {x, y}
    requires forall i, j :: 0 <= i < j < |rest| ==> rest[i] != rest[j]
    ensures Enumerates(norm, rest + [x] + [y])
  {
    var order := rest + [x] + [y];
    assert forall i :: 0 <= i < |rest| ==> order[i] == rest[i] && rest[i] in rest;
    forall k
      ensures k in order <==> k in norm
    {
      assert k in order <==> k in rest || k == x || k == y;
    }
  }

  // ------------------------------------------------------------------ the additions

  /** filterForbidden */
  function Kept(native: map<string, Tree>, forbidden: set<string>): map<string, Tree> {
    map k | k in native && k !in forbidden :: native[k]
  }

  /** What buildAdditions makes of a native passthrough, if there is one, and a translation. */
  function Additions(native: Option<map<string, Tree>>, forbidden: set<string>, t: Translation): (map<string, Tree>,
                     Capability) {
    var kept := if native.Some? then Kept(native.value, forbidden) else map[];
    var merged := Merge(Branch(kept), Branch(t.native));
    (merged.kids,
     if t.capability.BestEffort? then BestEffort
     else if t.capability.Applied? || kept != map[] then Applied
     else Unsupported)
  }

  /** filterForbidden as it runs: a copy without the forbidden keys, which it lists. */
  method FilterForbidden(native: map<string, Tree>, forbidden: set<string>)
    returns (kept: map<string, Tree>, dropped: seq<string>)
    ensures kept == Kept(native, forbidden)
    ensures forall k :: k in dropped <==> k in native && k in forbidden
    ensures forall i, j :: 0 <= i < j < |dropped| ==> dropped[i] != dropped[j]
  {
    kept, dropped := map[], [];
    var rest := native.Keys;
    while rest != {}
      invariant rest <= native.Keys
      invariant forall k :: k in kept <==> k in native.Keys - rest && k !in forbidden
      invariant forall k :: k in kept ==> kept[k] == native[k]
      invariant forall k :: k in dropped <==> k in native.Keys - rest && k in forbidden
      invariant forall i, j :: 0 <= i < j < |dropped| ==> dropped[i] != dropped[j]
      decreases |rest|
    {
      var k :| k in rest;
      if k in forbidden {
        assert forall i :: 0 <= i < |dropped| ==> dropped[i] in dropped;
        dropped := dropped + [k];
      } else {
        kept := kept[k := native[k]];
      }
      rest := rest - {k};
    }
  }

  /** The outcome that one order of the normalized keys gives. */
  ghost predicate Built(agent: Agent, native: Option<map<string, Tree>>, norm: map<string, Input>, order: seq<string>,
                        additions: map<string, Tree>, capability: Capability, reasons: seq<Reason>,
                        policy: Option<(seq<string>, seq<string>)>)
    requires Enumerates(norm, order)
  {
    var t := Finish(Fold(agent, ForbiddenKeys(agent), norm, order));
    && (additions, capability) == Additions(native, ForbiddenKeys(agent), t) && policy == t.policy
    && exists dropped :: Drops(native, ForbiddenKeys(agent), dropped) && reasons == DropNotes(dropped) + t.reasons
  }

  /** The forbidden keys of the native passthrough, each once. */
  ghost predicate Drops(native: Option<map<string, Tree>>, forbidden: set<string>, dropped: seq<string>) {
    && (forall k :: k in dropped <==> native.Some? && k in native.value && k in forbidden)
    && (forall i, j :: 0 <= i < j < |dropped| ==> dropped[i] != dropped[j])
  }

  function DropNotes(dropped: seq<string>): seq<Reason> {
    seq(|dropped|, i requires 0 <= i < |dropped| => ForbiddenNative(dropped[i]))
  }

  method BuildAdditions(agent: Agent, native: Option<map<string, Tree>>, norm: map<string, Input>)
    returns (additions: map<string, Tree>, capability: Capability, reasons: seq<Reason>,
        policy: Option<(seq<string>, seq<string>)>)
    ensures exists order ::
            Enumerates(norm, order) && Built(agent, native, norm, order, additions, capability, reasons, policy)
  {
    var kept: map<string, Tree> := map[];
    reasons := [];
    var dropped: seq<string> := [];
    if native.Some? {
      kept, dropped := FilterForbidden(native.value, ForbiddenKeys(agent));
      for i := 0 to |dropped|
        invariant reasons == DropNotes(dropped[..i])
      {
        reasons := reasons + [ForbiddenNative(dropped[i])];
      }
      assert dropped[..|dropped|] == dropped;
    }
    assert Drops(native, ForbiddenKeys(agent), dropped) && reasons == DropNotes(dropped);
    var t := TranslateNormalized(agent, norm, ForbiddenKeys(agent));
    reasons := reasons + t.reasons;
    var merged := Merge(Branch(kept), Branch(t.native));
    additions, policy := merged.kids, t.policy;
    if t.capability.BestEffort? {
      capability := BestEffort;
    } else if t.capability.Applied? || kept != map[] {
      capability := Applied;
    } else {
      capability := Unsupported;
    }
    ghost var order :| Enumerates(norm, order) && t == Finish(Fold(agent, ForbiddenKeys(agent), norm, order));
    assert Built(agent, native, norm, order, additions, capability, reasons, policy);
  }

  lemma TranslatedFits(agent: Agent, norm: map<string, Input>, order: seq<string>)
    requires Enumerates(norm, order)
    ensures
      var f := ForbiddenKeys(agent);
      Fits(agent, Mode(agent, f, norm, norm.Keys), IsAuto(norm), Part(f, norm, norm.Keys, DISABLED_TOOLS),
           Part(f, norm, norm.Keys, ALLOWED_COMMANDS), Part(f, norm, norm.Keys, DENIED_COMMANDS),
               Fold(agent, f, norm, order))
  {
    FoldFits(agent, ForbiddenKeys(agent), norm, order);
    assert Visited(order) == norm.Keys;
  }

  /** A key an agent forbids is decided by the normalized values alone: whatever a native passthrough says,
      there or anywhere, its value is the translation's, and "model" is never written at all. */
  lemma ForbiddenComesFromNormalized(agent: Agent, native: Option<map<string, Tree>>, norm: map<string, Input>,
                                order: seq<string>, k: string)
    requires Enumerates(norm, order) && k in ForbiddenKeys(agent)
    ensures
      var t := Finish(Fold(agent, ForbiddenKeys(agent), norm, order));
      var additions := Additions(native, ForbiddenKeys(agent), t).0;
      && (k in additions <==> k in t.native) && (k in additions ==> additions[k] == t.native[k])
      && "model" !in additions
  {
    TranslatedFits(agent, norm, order);
    hide Fold;
  }

  /** An install is unsupported exactly when there is nothing to write: no additions and no command policy. */
  lemma UnsupportedIffNothing(agent: Agent, native: Option<map<string, Tree>>, norm: map<string, Input>,
                              order: seq<string>)
    requires Enumerates(norm, order)
    ensures
      var t := Finish(Fold(agent, ForbiddenKeys(agent), norm, order));
      var (additions, capability) := Additions(native, ForbiddenKeys(agent), t);
      capability.Unsupported? <==> additions == map[] && t.policy.None?
  {
    TranslatedFits(agent, norm, order);
    hide Fold, ForbiddenKeys, ToStrings;
    var t := Finish(Fold(agent, ForbiddenKeys(agent), norm, order));
    TranslatedUnsupportedIff(agent, norm, Fold(agent, ForbiddenKeys(agent), norm, order));
    var kept := if native.Some? then Kept(native.value, ForbiddenKeys(agent)) else map[];
    var merged := Merge(Branch(kept), Branch(t.native)).kids;
    assert merged.Keys == kept.Keys + t.native.Keys;
    assert merged == map[] <==> merged.Keys == {};
    assert kept == map[] <==> kept.Keys == {};
    assert t.native == map[] <==> t.native.Keys == {};
  }

  lemma TranslatedUnsupportedIff(agent: Agent, norm: map<string, Input>, a: Acc)
    requires
      var f := ForbiddenKeys(agent);
      Fits(agent, Mode(agent, f, norm, norm.Keys), IsAuto(norm), Part(f, norm, norm.Keys, DISABLED_TOOLS),
           Part(f, norm, norm.Keys, ALLOWED_COMMANDS), Part(f, norm, norm.Keys, DENIED_COMMANDS), a)
    ensures Finish(a).capability.Unsupported? <==> Finish(a).native == map[] && Finish(a).policy.None?
  {
    hide Part, IsAuto;
    var native := Finish(a).native;
    assert native != map[] ==> exists k :: k in native;
    match agent
    case Claude => assert a.perms.Some? ==> "permissions" in native;
    case CodexAgent => assert "approval_policy" in native ==> native != map[];
    case Opencode => assert "tools" in native || "permission" in native ==> native != map[];
    case OtherAgent =>
  }
}
