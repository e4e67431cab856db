/** Upstream permission requests: recorded once, broadcast, resolved by the first answer, by a timer or
    by nobody. A resolver takes the entry out of the table under the mutex and sends the reply after
    releasing it, so replies of different resolvers may reach upstream in any order. */
module Permissions {
  import opened Codec
  import Text

  datatype Choice = Choice(optionId: string, kind: string)

  predicate RejectLike(c: Choice) {
    Text.Contains(c.kind, "reject") || Text.Contains(c.kind, "deny")
  }

  /** The kind has "reject" or "deny" somewhere in it. */
  ghost predicate Rejects(kind: string) {
    Text.Occurs(kind, "reject") || Text.Occurs(kind, "deny")
  }

  lemma RejectLikeMeans(c: Choice)
    ensures RejectLike(c) <==> Rejects(c.kind)
  {
    Text.ContainsMeans(c.kind, "reject");
    Text.ContainsMeans(c.kind, "deny");
  }

  /** The first option whose kind has "reject" or "deny" in it, else the first option, else "". */
  ghost predicate IsRejectChoice(options: seq<Choice>, r: string) {
    if options == [] then r == ""
    else if exists c <- options :: Rejects(c.kind) then
      exists i | 0 <= i < |options| :: r == options[i].optionId && Rejects(options[i].kind)
                                       && forall j | 0 <= j < i :: !Rejects(options[j].kind)
    else r == options[0].optionId
  }

  /** rejectOptionID */
  method RejectOptionID(options: seq<Choice>) returns (r: string)
    ensures IsRejectChoice(options, r) && r == AutoDeny(options)
  {
    AutoDenyRejects(options);
    for k := 0 to |options|
      invariant forall j | 0 <= j < k :: !RejectLike(options[j])
      invariant FirstReject(options) == FirstReject(options[k..])
    {
      if RejectLike(options[k]) {
        assert options[k] in options;
        return options[k].optionId;
      }
    }
    if |options| > 0 {
      return options[0].optionId;
    }
    return "";
  }

  function FirstReject(options: seq<Choice>): Option<string> {
    if options == [] then None
    else if RejectLike(options[0]) then Some(options[0].optionId)
    else FirstReject(options[1..])
  }

  function AutoDeny(options: seq<Choice>): string {
    match FirstReject(options)
    case Some(id) => id
    case None => if options == [] then "" else options[0].optionId
  }

  lemma {:induction false} FirstRejectIs(options: seq<Choice>)
    ensures match FirstReject(options)
            case None => forall c <- options :: !RejectLike(c)
            case Some(id) => exists i | 0 <= i < |options| ::
              id == options[i].optionId && RejectLike(options[i]) && forall j | 0 <= j < i :: !RejectLike(options[j])
  {
    if options != [] && !RejectLike(options[0]) {
      var rest := options[1..];
      FirstRejectIs(rest);
      if FirstReject(rest).Some? {
        var i :| 0 <= i < |rest| && FirstReject(rest).value == rest[i].optionId && RejectLike(rest[i])
                 && forall j | 0 <= j < i :: !RejectLike(rest[j]);
        assert options[i + 1] == rest[i];
        assert forall j | 0 < j < i + 1 :: options[j] == rest[j - 1];
      }
    }
  }

  lemma AutoDenyRejects(options: seq<Choice>)
    ensures IsRejectChoice(options, AutoDeny(options))
  {
    FirstRejectIs(options);
    forall c <- options
      ensures RejectLike(c) <==> Text.Occurs(c.kind, "reject") || Text.Occurs(c.kind, "deny")
    {
      RejectLikeMeans(c);
    }
    hide Text.Occurs, Text.Contains, RejectLike;
    if FirstReject(options).Some? {
      var i :| 0 <= i < |options| && FirstReject(options).value == options[i].optionId && RejectLike(options[i])
               && forall j | 0 <= j < i :: !RejectLike(options[j]);
      assert options[i] in options;
      assert forall j | 0 <= j < i :: options[j] in options;
    }
  }

  /** A pending request; `record` numbers the requests recorded so far and is history. */
  datatype Pending = Pending(upstreamId: int, options: seq<Choice>, record: nat)

  datatype Reply = Reply(record: nat, upstreamId: int, optionId: string)

  /** resolvePermission's locked part: take the entry, if it is there, and choose the option. */
  function Resolve(pending: map<string, Pending>, key: string, optionId: string): (map<string, Pending>,
                   Option<Reply>) {
    if key !in pending then (pending, None)
    else
      var p := pending[key];
      (pending - {key}, Some(Reply(p.record, p.upstreamId, if optionId == "" then AutoDeny(p.options) else optionId)))
  }

  /** `taken` lists the replies in the order in which resolvers took them; `sent` the positions in it
      whose lines have been written, and `unsent` those still in a resolver's hands. */
  datatype State = State(
    pending: map<string, Pending>, stopped: bool, timers: set<string>,
    taken: seq<Reply>, unsent: set<nat>, sent: seq<nat>,
    recorded: seq<Pending>, overwritten: set<nat>, cleared: set<nat>, takenAtStop: nat)

  function Init(): State {
    State(map[], false, {}, [], {}, [], [], {}, {}, 0)
  }

  datatype Event =
    | Request(raw: Option<RawId>, options: seq<Choice>)
    | ClientAnswers(raw: Option<RawId>, optionId: string)   // "" for a cancelled or unknown outcome
    | TimerFires(key: string)
    | Send(i: nat, dropped: bool)
    | Stop

  predicate Enabled(s: State, e: Event) {
    match e
    case Request(_, _) => true
    case ClientAnswers(_, _) => true
    case TimerFires(key) => key in s.timers
    case Send(i, dropped) => i in s.unsent && (dropped ==> s.stopped)
    case Stop => !s.stopped
  }

  function Record(s: State, n: int, options: seq<Choice>): State {
    var key, p := Itoa(n), Pending(n, options, |s.recorded|);
    s.(pending := s.pending[key := p], timers := s.timers + {key}, recorded := s.recorded + [p],
       overwritten := if key in s.pending then s.overwritten + {s.pending[key].record} else s.overwritten)
  }

  function ResolveBy(s: State, key: string, optionId: string): State {
    var (pending, reply) := Resolve(s.pending, key, optionId);
    match reply
    case None => s
    case Some(r) => s.(pending := pending, taken := s.taken + [r], unsent := s.unsent + {|s.taken|})
  }

  function Next(s: State, e: Event): State
    requires Enabled(s, e)
  {
    match e
    case Request(raw, options) =>
      (match AsInt(raw)
       case None => s
       case Some(n) => if s.stopped then s else Record(s, n, options))
    case ClientAnswers(raw, optionId) =>
      (match AsInt(raw)
       case None => s
       case Some(n) => ResolveBy(s, Itoa(n), optionId))
    case TimerFires(key) => ResolveBy(s, key, "")
    case Send(i, dropped) => s.(unsent := s.unsent - {i}, sent := if dropped then s.sent else s.sent + [i])
    case Stop =>
      s.(stopped := true, pending := map[], takenAtStop := |s.taken|,
         cleared := s.cleared + set k | k in s.pending :: s.pending[k].record)
  }

  function Exec(s: State, es: seq<Event>): Option<State> {
    if es == [] then Some(s)
    else
      match Exec(s, es[..|es| - 1])
      case None => None
      case Some(m) => if Enabled(m, es[|es| - 1]) then Some(Next(m, es[|es| - 1])) else None
  }

  ghost predicate IsPending(s: State, n: nat) {
    exists k :: k in s.pending && s.pending[k].record == n
  }

  ghost predicate IsTaken(s: State, n: nat) {
    exists i | 0 <= i < |s.taken| :: s.taken[i].record == n
  }

  /** The table: keyed by the id's text, each entry its own record. */
  ghost predicate TableOk(s: State) {
    && (forall k | k in s.pending ::
          k == Itoa(s.pending[k].upstreamId) && k in s.timers && s.pending[k].record < |s.recorded|
          && s.recorded[s.pending[k].record] == s.pending[k])
    && (s.stopped ==> s.pending == map[] && |s.taken| == s.takenAtStop)
  }

  /** A reply carries its request's id, and an option it was given or, in want of one, a reject. */
  ghost predicate RepliesOk(s: State) {
    && (forall i | 0 <= i < |s.taken| ::
          s.taken[i].record < |s.recorded| && s.taken[i].upstreamId == s.recorded[s.taken[i].record].upstreamId)
    && (forall i, j | 0 <= i < j < |s.taken| :: s.taken[i].record != s.taken[j].record)
    && (forall i | 0 <= i < |s.sent| :: s.sent[i] < |s.taken| && s.sent[i] !in s.unsent)
    && (forall i, j | 0 <= i < j < |s.sent| :: s.sent[i] != s.sent[j])
    && (forall i <- s.unsent :: i < |s.taken|)
    && (!s.stopped ==> forall i: nat | i < |s.taken| :: i in s.unsent || i in s.sent)
  }

  /** Each recorded request is pending, or taken, or displaced by a later request with its id while it
      was pending, or cleared by Stop: exactly one of these. */
  ghost predicate OneFate(s: State, n: nat) {
    && (IsPending(s, n) || IsTaken(s, n) || n in s.overwritten || n in s.cleared)
    && !(IsPending(s, n) && (IsTaken(s, n) || n in s.overwritten || n in s.cleared))
    && !(IsTaken(s, n) && (n in s.overwritten || n in s.cleared))
    && !(n in s.overwritten && n in s.cleared)
  }

  ghost predicate FatesOk(s: State) {
    && (forall n: nat | n < |s.recorded| :: OneFate(s, n))
    && (forall n <- s.overwritten :: n < |s.recorded|)
    && (forall n <- s.cleared :: n < |s.recorded|)
  }

  ghost predicate Inv(s: State) {
    TableOk(s) && RepliesOk(s) && FatesOk(s)
  }

  lemma RecordKeepsInv(s: State, n: int, options: seq<Choice>)
    requires Inv(s) && !s.stopped
    ensures Inv(Record(s, n, options))
  {
    var s', key, last := Record(s, n, options), Itoa(n), |s.recorded|;
    assert s'.pending[key].record == last;
    forall m: nat | m < |s'.recorded| ensures OneFate(s', m) {
      if m < last {
        assert OneFate(s, m);
        assert IsTaken(s', m) <==> IsTaken(s, m);
        if IsPending(s, m) {
          var k :| k in s.pending && s.pending[k].record == m;
          if k != key {
            assert s'.pending[k].record == m;
          }
        }
        if IsPending(s', m) {
          var k :| k in s'.pending && s'.pending[k].record == m;
          assert s.pending[k].record == m;
        }
      } else {
        assert IsPending(s', m);
      }
    }
  }

  lemma ResolveKeepsInv(s: State, key: string, optionId: string)
    requires Inv(s)
    ensures Inv(ResolveBy(s, key, optionId))
  {
    if key in s.pending {
      var s', n := ResolveBy(s, key, optionId), s.pending[key].record;
      var r := s'.taken[|s.taken|];
      assert IsPending(s, n) && OneFate(s, n);
      assert s'.taken == s.taken + [r] && r.record == n;
      forall i | 0 <= i < |s.taken| ensures s.taken[i].record != n {
        assert IsTaken(s, s.taken[i].record);
      }
      forall m: nat | m < |s.recorded| ensures OneFate(s', m) {
        assert OneFate(s, m);
        ResolveMoves(s, key, optionId, m);
      }
    }
  }

  lemma ResolveMoves(s: State, key: string, optionId: string, m: nat)
    requires TableOk(s) && key in s.pending
    ensures var s' := ResolveBy(s, key, optionId);
            && (IsPending(s', m) <==> IsPending(s, m) && m != s.pending[key].record)
            && (IsTaken(s', m) <==> IsTaken(s, m) || m == s.pending[key].record)
  {
    var s' := ResolveBy(s, key, optionId);
    assert s'.taken[|s.taken|].record == s.pending[key].record;
    if IsTaken(s, m) {
      var i :| 0 <= i < |s.taken| && s.taken[i].record == m;
      assert s'.taken[i].record == m;
    }
    if IsPending(s, m) && m != s.pending[key].record {
      var k :| k in s.pending && s.pending[k].record == m;
      assert s'.pending[k].record == m;
    }
    if IsPending(s', m) {
      var k :| k in s'.pending && s'.pending[k].record == m;
      assert s.recorded[m] == s.pending[k] && k == Itoa(s.recorded[m].upstreamId);
      assert key == Itoa(s.pending[key].upstreamId);
    }
  }

  lemma StopKeepsInv(s: State)
    requires Inv(s) && !s.stopped
    ensures Inv(Next(s, Stop))
  {
    var s' := Next(s, Stop);
    forall m: nat | m < |s.recorded| ensures OneFate(s', m) {
      assert OneFate(s, m);
      assert IsTaken(s', m) <==> IsTaken(s, m);
    }
  }

  lemma StepKeepsInv(s: State, e: Event)
    requires Inv(s) && Enabled(s, e)
    ensures Inv(Next(s, e))
  {
    match e {
      case Request(raw, options) =>
        if AsInt(raw).Some? && !s.stopped { RecordKeepsInv(s, AsInt(raw).value, options); }
      case ClientAnswers(raw, optionId) =>
        if AsInt(raw).Some? { ResolveKeepsInv(s, Itoa(AsInt(raw).value), optionId); }
      case TimerFires(key) => ResolveKeepsInv(s, key, "");
      case Send(i, dropped) =>
        var s' := Next(s, e);
        forall m: nat | m < |s.recorded| ensures OneFate(s', m) {
          assert OneFate(s, m) && (IsTaken(s', m) <==> IsTaken(s, m)) && (IsPending(s', m) <==> IsPending(s, m));
        }
      case Stop => StopKeepsInv(s);
    }
  }

  lemma {:induction false} ExecKeepsInv(es: seq<Event>)
    requires Exec(Init(), es).Some?
    ensures Inv(Exec(Init(), es).value)
  {
    if es != [] {
      ExecKeepsInv(es[..|es| - 1]);
      StepKeepsInv(Exec(Init(), es[..|es| - 1]).value, es[|es| - 1]);
    }
  }

  ghost predicate Reachable(s: State) {
    exists es :: Exec(Init(), es) == Some(s)
  }

  lemma ReachableInv(s: State)
    requires Reachable(s)
    ensures Inv(s)
  {
    var es :| Exec(Init(), es) == Some(s);
    ExecKeepsInv(es);
  }

  // ------------------------------------------------------------------ theorems over whole runs

  /** However clients, timers and Stop interleave, and even when upstream reuses ids: no recorded
      request gets two replies, and each reply carries the id of the request it answers. */
  lemma AtMostOneReply(s: State, i: nat, j: nat)
    requires Reachable(s) && i < j < |s.sent|
    ensures s.sent[i] < |s.taken| && s.sent[j] < |s.taken|
    ensures s.taken[s.sent[i]].record != s.taken[s.sent[j]].record
    ensures var r := s.taken[s.sent[i]]; r.record < |s.recorded| && r.upstreamId == s.recorded[r.record].upstreamId
  {
    ReachableInv(s);
  }

  /** Every recorded request has exactly one fate. */
  lemma EveryRequestHasOneFate(s: State, n: nat)
    requires Reachable(s) && n < |s.recorded|
    ensures OneFate(s, n)
  {
    ReachableInv(s);
  }

  /** The first resolver's option goes upstream; without one, a reject-like option, else the first
      offered. Until the id is used again, every later answer or timer changes nothing. */
  lemma FirstAnswerWins(s: State, key: string, first: string, later: string)
    requires Reachable(s) && key in s.pending
    ensures var s' := ResolveBy(s, key, first);
            && s'.taken == s.taken + [Reply(s.pending[key].record, s.pending[key].upstreamId,
                                            if first == "" then AutoDeny(s.pending[key].options) else first)]
            && ResolveBy(s', key, later) == s'
            && (first == "" ==> IsRejectChoice(s.pending[key].options, s'.taken[|s.taken|].optionId))
  {
    AutoDenyRejects(s.pending[key].options);
  }

  /** No answer is forgotten: a pending request can be answered at any time, by its timer if by nobody else, and until
      Stop what was taken has been sent or can be. */
  lemma NothingIsForgotten(s: State)
    requires Reachable(s)
    ensures forall k :: k in s.pending ==>
              && Enabled(s, TimerFires(k))
              && var t := Next(s, TimerFires(k));
              && k !in t.pending && |t.taken| == |s.taken| + 1 && t.taken[|s.taken|].record == s.pending[k].record
              && |s.taken| in t.unsent
    ensures !s.stopped ==> forall i: nat :: i < |s.taken| ==>
              i in s.sent || (Enabled(s, Send(i, false)) && i in Next(s, Send(i, false)).sent)
  {
    ReachableInv(s);
    hide AutoDeny;
  }


  /** A client that echoes the id it was sent resolves that very request. */
  lemma EchoFindsItsRequest(s: State, key: string, optionId: string)
    requires Reachable(s) && key in s.pending && MinInt <= s.pending[key].upstreamId <= MaxInt
    ensures Next(s, ClientAnswers(Some(IntID(s.pending[key].upstreamId)), optionId)) == ResolveBy(s, key, optionId)
    ensures ResolveBy(s, key, optionId).taken[|s.taken|..] != []
  {
    ReachableInv(s);
    AsIntOfIntID(s.pending[key].upstreamId);
  }

  /** After Stop nothing more is ever taken: what may still be written was taken before it. */
  lemma NothingTakenAfterStop(s: State)
    requires Reachable(s) && s.stopped
    ensures s.pending == map[] && |s.taken| == s.takenAtStop && forall i <- s.unsent :: i < s.takenAtStop
  {
    ReachableInv(s);
  }

  /** Upstream does not use an id again while it is pending. */
  ghost predicate FreshWhilePending(es: seq<Event>) {
    forall n | 0 <= n < |es| && es[n].Request? ::
      var m := Exec(Init(), es[..n]);
      var id := AsInt(es[n].raw);
      m.Some? && id.Some? ==> Itoa(id.value) !in m.value.pending
  }

  /** The step uses an id that is pending. */
  ghost predicate Reuses(s: State, e: Event) {
    e.Request? && AsInt(e.raw).Some? && Itoa(AsInt(e.raw).value) in s.pending
  }

  lemma FreshLast(es: seq<Event>)
    requires es != [] && Exec(Init(), es[..|es| - 1]).Some?
    ensures FreshWhilePending(es) <==>
              FreshWhilePending(es[..|es| - 1]) && !Reuses(Exec(Init(), es[..|es| - 1]).value, es[|es| - 1])
  {
    hide Exec, Init;
    var p := es[..|es| - 1];
    assert forall n | 0 <= n < |p| :: p[..n] == es[..n] && p[n] == es[n];
  }

  /** Exactly then no request is displaced: each is pending, answered once, or cleared by Stop. */
  lemma {:induction false} NothingDisplacedIff(es: seq<Event>)
    requires Exec(Init(), es).Some?
    ensures Exec(Init(), es).value.overwritten == {} <==> FreshWhilePending(es)
  {
    if es != [] {
      var p, e := es[..|es| - 1], es[|es| - 1];
      NothingDisplacedIff(p);
      FreshLast(es);
      ExecKeepsInv(p);
      hide Next, Enabled, Inv, FreshWhilePending, Reuses;
      StepDisplacesIff(Exec(Init(), p).value, e);
    }
  }

  lemma StepDisplacesIff(s: State, e: Event)
    requires Inv(s) && Enabled(s, e)
    ensures Next(s, e).overwritten == {} <==>
              s.overwritten == {} && !Reuses(s, e)
  {
  }
}
