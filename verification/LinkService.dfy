/** The link flow's critical sections as they run on the two maps, and the loops beside them. */
module LinkService {
  import opened Codec
  import opened LinkFlow

  /** constantTimeEqual: the accumulator is zero exactly when no byte differed. */
  method ConstantTimeEqual(a: seq<bv8>, b: seq<bv8>) returns (equal: bool)
    ensures equal <==> a == b
  {
    if |a| != |b| {
      return false;
    }
    var v: bv8 := 0;
    for i := 0 to |a|
      invariant v == 0 <==> a[..i] == b[..i]
    {
      OrXorZero(v, a[i], b[i]);
      assert a[..i + 1] == a[..i] + [a[i]] && b[..i + 1] == b[..i] + [b[i]];
      v := v | (a[i] ^ b[i]);
    }
    assert a[..|a|] == a && b[..|a|] == b;
    return v == 0;
  }

  lemma OrXorZero(v: bv8, x: bv8, y: bv8)
    ensures v | (x ^ y) == 0 <==> v == 0 && x == y
  {
  }

  /** githubLinkStates and githubLinkFlows, with the rest of the protocol's state as ghost. */
  class Links {
    var states: map<nat, LinkState>
    var flows: map<nat, Flow>
    ghost var rest: State

    constructor ()
      ensures Snapshot(rest.clock) == rest && Initial(rest)
    {
      states, flows := map[], map[];
      rest := State(map[], map[], 0, map[], map[], map[], map[], map[], [], {}, {});
    }

    ghost function Snapshot(clock: int): State
      reads this
    {
      rest.(states := states, flows := flows, clock := clock)
    }

    method Start(state: nat, flow: nat, account: string, kind: Kind, now: int, ghost clock: int)
      modifies this
      ensures Snapshot(clock) == StartStep(old(Snapshot(clock)), state, flow, account, kind, now)
      ensures states == old(states)[state := LinkState(flow, kind, now + 15 * 60)]
      ensures flows == old(flows)[flow := Flow(account, kind, Issued, now + 15 * 60, None, None)]
    {
      states := states[state := LinkState(flow, kind, now + FlowTTL)];
      flows := flows[flow := Flow(account, kind, Issued, now + FlowTTL, None, None)];
      rest := rest.(started := rest.started[flow := Origin(account, now, kind)]);
    }

    /** The callback's first critical section: the copy it goes on with. */
    method CallbackLook(ghost call: nat, state: nat, now: int, ghost clock: int) returns (st: Option<LinkState>)
      requires call !in rest.callbacks && now <= clock
      modifies this`rest
      ensures Snapshot(clock) == Next(old(Snapshot(clock)), LinkFlow.Event.CallbackLook(call, state, now))
      ensures st.Some? <==> state in states && now <= states[state].expiresAt
      ensures st.Some? ==> st.value == states[state]
      ensures st.Some? ==> call in rest.callbacks && rest.callbacks[call] == Callback(state, st.value, None)
    {
      st := None;
      if state in states && !(now > states[state].expiresAt) {
        st := Some(states[state]);
        rest := rest.(callbacks := rest.callbacks[call := Callback(state, states[state], None)]);
      }
    }

    method CallbackDenied(ghost call: nat, state: nat, st: LinkState, ghost clock: int)
      requires call in rest.callbacks && rest.callbacks[call] == Callback(state, st, None)
      modifies this
      ensures Snapshot(clock) == DeniedStep(old(Snapshot(clock)), call)
      ensures states == old(states) - {state} && flows.Keys == old(flows).Keys
      ensures forall f :: f in flows ==>
                flows[f] == if f == st.flow then old(flows)[f].(status := Denied) else old(flows)[f]
    {
      if st.flow in flows {
        flows := flows[st.flow := flows[st.flow].(status := Denied)];
      }
      states := states - {state};
      rest := rest.(callbacks := rest.callbacks - {call});
    }

    /** The callback's last critical section, after GitHub answered. */
    method CallbackFinish(ghost call: nat, state: nat, st: LinkState, tuple: Tuple, completer: nat, ghost clock: int)
      returns (ok: bool)
      requires call in rest.callbacks && rest.callbacks[call] == Callback(state, st, Some(tuple))
      modifies this
      ensures Snapshot(clock) == FinishStep(old(Snapshot(clock)), call, completer)
      ensures ok <==> st.flow in old(flows)
      ensures states == (if ok then old(states) - {state} else old(states)) && flows.Keys == old(flows).Keys
      ensures forall f :: f in flows ==>
                var was := old(flows)[f];
                flows[f] == if f != st.flow then was
                            else Flow(was.account, was.kind, Ready, was.expiresAt,
                                      if st.kind.Device? then None else Some(completer), Some(tuple))
    {
      ghost var after := FinishStep(Snapshot(clock), call, completer);
      if st.flow !in flows {
        rest := after;
        return false;
      }
      var secret := if st.kind.Web? || st.kind.Loopback? then Some(completer) else None;
      flows := flows[st.flow := flows[st.flow].(status := Ready, completer := secret, pending := Some(tuple))];
      states := states - {state};
      rest := after;
      return true;
    }

    /** A whole callback with nothing in between: a denial, a code that cannot be exchanged, an exchange whose
        answer is lost, a user that cannot be fetched, or a tuple for the flow. */
    method ServeCallback(ghost call: nat, state: nat, denied: bool, x: Exchange, userOk: bool, completer: nat,
                         now: int, ghost clock: int)
      returns (linked: bool)
      requires call !in rest.callbacks && now <= clock && completer !in rest.delivered
      requires !x.Refused? ==> x.tuple.access !in rest.exchanged
      modifies this
      ensures Snapshot(clock) == AfterCallback(old(Snapshot(clock)), call, state, denied, x, userOk, completer, now)
      ensures linked <==>
                && state in old(states) && now <= old(states)[state].expiresAt && !denied && x.Answered? && userOk
                && old(states)[state].flow in old(flows)
      ensures linked ==>
                var flow := old(states)[state].flow;
                states == old(states) - {state}
                && flow in flows && flows[flow].status.Ready? && flows[flow].pending == Some(x.tuple)
      ensures !linked && !denied ==> states == old(states) && flows == old(flows)
    {
      linked := false;
      var st := CallbackLook(call, state, now, clock);
      if st.None? {
        return;
      }
      if denied {
        CallbackDenied(call, state, st.value, clock);
        return;
      }
      if x.Refused? {
        rest := rest.(callbacks := rest.callbacks - {call});
        return;
      }
      rest := ExchangeStep(Snapshot(rest.clock), call, x.tuple, x.Answered?);
      if x.Lost? {
        return;
      }
      if !userOk {
        rest := DropStep(Snapshot(rest.clock), call);
        return;
      }
      linked := CallbackFinish(call, state, st.value, x.tuple, completer, clock);
    }

    /** The redeem's first critical section and the checks on its copy. */
    method RedeemLook(ghost call: nat, flow: nat, account: string, presented: Option<nat>, now: int, ghost clock: int)
      returns (snap: Option<Flow>)
      requires call !in rest.redeems && now <= clock
      modifies this`rest
      ensures snap.Some? <==>
                && flow in flows && now <= flows[flow].expiresAt && flows[flow].status.Ready?
                && flows[flow].account == account
                && (flows[flow].kind.Device? || (presented.Some? && presented == flows[flow].completer))
      ensures Snapshot(clock) ==
              Next(old(Snapshot(clock)), LinkFlow.Event.RedeemLook(call, flow, account, presented, now))
      ensures snap.Some? ==> snap.value == flows[flow] && call in rest.redeems
    {
      LookIs(Snapshot(clock), LinkFlow.Event.RedeemLook(call, flow, account, presented, now));
      hide Next;
      if flow !in flows || now > flows[flow].expiresAt {
        return None;
      }
      var copy := flows[flow];
      if !copy.status.Ready? || copy.account != account {
        return None;
      }
      match copy.kind {
        case Web =>
          if presented.None? || presented != copy.completer {
            return None;
          }
        case Loopback =>
          if presented.None? || presented != copy.completer {
            return None;
          }
        case Device =>
      }
      rest := rest.(redeems := rest.redeems[call := Redeem(flow, account, presented, copy, now, false)]);
      return Some(copy);
    }

    /** The atomic pop: the loser finds the flow gone. */
    method RedeemPop(ghost call: nat, flow: nat, ghost clock: int) returns (won: bool)
      requires call in rest.redeems && rest.redeems[call].flow == flow
      modifies this
      ensures Snapshot(clock) == PopStep(old(Snapshot(clock)), call)
      ensures won <==> flow in old(flows)
      ensures flows == old(flows) - {flow} && states == old(states)
    {
      ghost var after := PopStep(Snapshot(clock), call);
      won := flow in flows;
      if won {
        flows := flows - {flow};
      }
      rest := after;
    }

    /** reapGitHubLinkFlows: evicts exactly the expired entries, and takes on the access token of each
        abandoned flow that is ready. */
    method Reap(now: int, ghost clock: int) returns (abandoned: seq<nat>)
      modifies this
      ensures Snapshot(clock) == ReapStep(old(Snapshot(clock)), now)
      ensures flows == map f | f in old(flows) && now <= old(flows)[f].expiresAt :: old(flows)[f]
      ensures states == map k | k in old(states) && now <= old(states)[k].expiresAt :: old(states)[k]
      ensures forall t :: t in abandoned <==>
                exists f :: f in old(flows) && now > old(flows)[f].expiresAt && old(flows)[f].status.Ready?
                            && old(flows)[f].pending.Some? && old(flows)[f].pending.value.access == t
      ensures forall t :: t in abandoned <==> t in Abandoned(old(flows), now)
    {
      ghost var before := flows;
      abandoned := ReapFlows(now);
      ReapStates(now);
      rest := rest.(reaped := rest.reaped + Abandoned(before, now));
    }

    method ReapFlows(now: int) returns (abandoned: seq<nat>)
      modifies this`flows
      ensures flows == map f | f in old(flows) && !Expired(old(flows)[f], now) :: old(flows)[f]
      ensures forall t :: t in abandoned <==> t in Abandoned(old(flows), now)
    {
      ghost var was := flows;
      abandoned := [];
      var ids := flows.Keys;
      while ids != {}
        invariant ids <= was.Keys
        invariant forall f :: f in flows <==> f in was && (f in ids || !Expired(was[f], now))
        invariant forall f :: f in flows ==> flows[f] == was[f]
        invariant forall t :: t in abandoned <==> Collected(was, was.Keys - ids, now, t)
        decreases |ids|
      {
        var id :| id in ids;
        var f := flows[id];
        ghost var done, so := was.Keys - ids, abandoned;
        if now > f.expiresAt {
          if f.status.Ready? && f.pending.Some? {
            abandoned := abandoned + [f.pending.value.access];
          }
          flows := flows - {id};
        }
        ids := ids - {id};
        assert was.Keys - ids == done + {id};
        forall t
          ensures t in abandoned <==> Collected(was, done + {id}, now, t)
        {
          assert t in abandoned <==> t in so || AbandonedAt(was[id], now, t);
          CollectedGrows(was, done, id, now, t);
        }
      }
      assert was.Keys - ids == was.Keys;
      forall t
        ensures Collected(was, was.Keys, now, t) <==> t in Abandoned(was, now)
      {
        if t in Abandoned(was, now) {
          var f :| f in was && Expired(was[f], now) && was[f].status.Ready? && was[f].pending.Some?
                   && was[f].pending.value.access == t;
          assert AbandonedAt(was[f], now, t);
        }
      }
    }

    method ReapStates(now: int)
      modifies this`states
      ensures states == map k | k in old(states) && now <= old(states)[k].expiresAt :: old(states)[k]
    {
      ghost var was := states;
      var ids := states.Keys;
      while ids != {}
        invariant ids <= was.Keys
        invariant forall k :: k in states <==> k in was && (k in ids || now <= was[k].expiresAt)
        invariant forall k :: k in states ==> states[k] == was[k]
        decreases |ids|
      {
        var k :| k in ids;
        if now > states[k].expiresAt {
          states := states - {k};
        }
        ids := ids - {k};
      }
    }
  }

  lemma LookIs(s: State, e: Event)
    requires Enabled(s, e) && e.RedeemLook?
    ensures Next(s, e) ==
              if e.flow in s.flows && MayRedeem(s.flows[e.flow], e.account, e.presented, e.now)
              then s.(redeems := s.redeems[e.call :=
                        Redeem(e.flow, e.account, e.presented, s.flows[e.flow], e.now, false)])
              else s
  {
  }

  /** What comes of exchanging a code: GitHub refuses it, its answer is lost, or it arrives. */
  datatype Exchange = Refused | Lost(tuple: Tuple) | Answered(tuple: Tuple)

  /** A callback's steps one after the other. */
  ghost function AfterCallback(s: State, call: nat, state: nat, denied: bool, x: Exchange, userOk: bool,
                               completer: nat, now: int): State
    requires call !in s.callbacks && now <= s.clock
  {
    var m := Next(s, LinkFlow.Event.CallbackLook(call, state, now));
    if call !in m.callbacks then m
    else if denied then DeniedStep(m, call)
    else if x.Refused? then DropStep(m, call)
    else
      var h := ExchangeStep(m, call, x.tuple, x.Answered?);
      if x.Lost? then h else if !userOk then DropStep(h, call) else FinishStep(h, call, completer)
  }

  /** `t` is the token of the expired, ready flow. */
  predicate AbandonedAt(f: Flow, now: int, t: nat) {
    Expired(f, now) && f.status.Ready? && f.pending.Some? && f.pending.value.access == t
  }

  ghost predicate Collected(flows: map<nat, Flow>, done: set<nat>, now: int, t: nat) {
    exists f :: f in done && f in flows && AbandonedAt(flows[f], now, t)
  }

  lemma CollectedGrows(flows: map<nat, Flow>, done: set<nat>, id: nat, now: int, t: nat)
    requires id in flows
    ensures Collected(flows, done + {id}, now, t) <==> Collected(flows, done, now, t) || AbandonedAt(flows[id], now, t)
  {
  }
}
