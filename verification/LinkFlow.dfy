/** Linking a GitHub account: start, callback, redeem and reap over two maps guarded by one mutex, which
    callback and redeem both let go of in the middle. */
module LinkFlow {
  import opened Codec

  const FlowTTL: int := 900

  datatype Kind = Web | Loopback | Device
  datatype Status = Issued | Ready | Denied

  /** What an exchange at GitHub yields, told apart by its access token. */
  datatype Tuple = Tuple(access: nat, user: nat)

  datatype LinkState = LinkState(flow: nat, kind: Kind, expiresAt: int)

  datatype Flow = Flow(account: string, kind: Kind, status: Status, expiresAt: int, completer: Option<nat>,
                       pending: Option<Tuple>)

  function SecretId(account: string): string {
    "gh:" + account
  }

  datatype Link = Link(flow: nat, secretId: string, account: string, kind: Kind, tuple: Tuple, presented: Option<nat>,
                       redeemedAt: int)

  /** Who started a flow, when, and for which kind of client. */
  datatype Origin = Origin(account: string, at: int, kind: Kind)

  /** A callback talking to GitHub, with a copy of the state it found, and the tuple once it has one. */
  datatype Callback = Callback(state: nat, st: LinkState, held: Option<Tuple>)

  /** A redeem past its checks, holding a copy of the flow; `popped` once it has taken the flow itself. */
  datatype Redeem = Redeem(flow: nat, account: string, presented: Option<nat>, snap: Flow, at: int, popped: bool)

  datatype Delivery = Delivery(flow: nat, tuple: Tuple)

  /** The two maps and the calls under way, with the histories of flows started (by whom), completers
      delivered, access tokens GitHub issued (for which flow) and links persisted, and the tokens the reaper has
      taken on and those of them it had revoked. */
  datatype State = State(
    states: map<nat, LinkState>, flows: map<nat, Flow>, clock: int,
    callbacks: map<nat, Callback>, redeems: map<nat, Redeem>,
    started: map<nat, Origin>, delivered: map<nat, Delivery>, exchanged: map<nat, nat>,
    persisted: seq<Link>, reaped: set<nat>, revoked: set<nat>)

  /** Whoever looks at expiry times has read the clock before it waited for the mutex. */
  datatype Event =
    | Start(state: nat, flow: nat, account: string, kind: Kind, now: int)
    | CallbackLook(call: nat, state: nat, now: int)
    | CallbackDenied(call: nat)
    | CallbackExchange(call: nat, tuple: Tuple, arrives: bool)
    | CallbackFinish(call: nat, completer: nat)
    | CallbackDrop(call: nat)
    | RedeemLook(call: nat, flow: nat, account: string, presented: Option<nat>, now: int)
    | RedeemPop(call: nat)
    | RedeemPersist(call: nat, ok: bool)
    | RedeemDrop(call: nat)
    | Reap(now: int)
    | ReapRevoke(token: nat, ok: bool)
    | Crash
    | Tick(seconds: nat)

  predicate Holds(callbacks: map<nat, Callback>, call: nat) {
    call in callbacks && callbacks[call].held.Some?
  }

  /** Random identifiers and the tokens GitHub issues do not repeat. */
  predicate Enabled(s: State, e: Event) {
    match e
    case Start(state, flow, _, _, now) => state !in s.states && flow !in s.started && now <= s.clock
    case CallbackLook(call, _, now) => call !in s.callbacks && now <= s.clock
    case CallbackDenied(call) => call in s.callbacks && s.callbacks[call].held.None?
    case CallbackExchange(call, tuple, _) => call in s.callbacks && s.callbacks[call].held.None?
         && tuple.access !in s.exchanged
    case CallbackFinish(call, completer) => Holds(s.callbacks, call) && completer !in s.delivered
    case CallbackDrop(call) => call in s.callbacks
    case RedeemLook(call, _, _, _, now) => call !in s.redeems && now <= s.clock
    case RedeemPop(call) => call in s.redeems && !s.redeems[call].popped
    case RedeemPersist(call, _) => call in s.redeems && s.redeems[call].popped
    case RedeemDrop(call) => call in s.redeems && !s.redeems[call].popped
    case Reap(now) => now <= s.clock
    case ReapRevoke(token, _) => token in s.reaped && token !in s.revoked
    case _ => true
  }

  /** The checks a redeem makes on its copy before it takes the flow. */
  predicate MayRedeem(snap: Flow, account: string, presented: Option<nat>, now: int) {
    && now <= snap.expiresAt && snap.status.Ready? && snap.account == account
    && (snap.kind.Device? || (presented.Some? && presented == snap.completer))
  }

  function StartStep(s: State, state: nat, flow: nat, account: string, kind: Kind, now: int): State {
    s.(states := s.states[state := LinkState(flow, kind, now + FlowTTL)],
       flows := s.flows[flow := Flow(account, kind, Issued, now + FlowTTL, None, None)],
       started := s.started[flow := Origin(account, now, kind)])
  }

  /** The exchange of the code, which uses it up even if GitHub's answer is lost. */
  function ExchangeStep(s: State, call: nat, tuple: Tuple, arrives: bool): State
    requires call in s.callbacks
  {
    var cb := s.callbacks[call];
    var m := s.(exchanged := s.exchanged[tuple.access := cb.st.flow]);
    if arrives then m.(callbacks := m.callbacks[call := cb.(held := Some(tuple))])
    else m.(callbacks := m.callbacks - {call})
  }

  /** A callback that gives up: the exchange or the look-up of the user failed. */
  function DropStep(s: State, call: nat): State
    requires call in s.callbacks
  {
    s.(callbacks := s.callbacks - {call})
  }

  /** The denial overwrites whatever the flow had reached. */
  function DeniedStep(s: State, call: nat): State
    requires call in s.callbacks
  {
    var f := s.callbacks[call].st.flow;
    s.(states := s.states - {s.callbacks[call].state}, callbacks := s.callbacks - {call},
       flows := if f in s.flows then s.flows[f := s.flows[f].(status := Denied)] else s.flows)
  }

  /** The last section of a successful callback; a tuple already pending is overwritten. */
  function FinishStep(s: State, call: nat, completer: nat): State
    requires Holds(s.callbacks, call)
  {
    var st, tuple := s.callbacks[call].st, s.callbacks[call].held.value;
    var m := s.(callbacks := s.callbacks - {call});
    if st.flow !in s.flows then m
    else
      var secret := if st.kind.Device? then None else Some(completer);
      m.(states := m.states - {s.callbacks[call].state},
         flows := m.flows[st.flow := s.flows[st.flow].(status := Ready, completer := secret, pending := Some(tuple))],
         delivered := if st.kind.Device? then m.delivered else m.delivered[completer := Delivery(st.flow, tuple)])
  }

  function PopStep(s: State, call: nat): State
    requires call in s.redeems
  {
    var r := s.redeems[call];
    if r.flow !in s.flows then s.(redeems := s.redeems - {call})
    else s.(flows := s.flows - {r.flow}, redeems := s.redeems[call := r.(popped := true)])
  }

  function PersistStep(s: State, call: nat, ok: bool): State
    requires call in s.redeems
  {
    var r := s.redeems[call];
    var m := s.(redeems := s.redeems - {call});
    if ok && r.snap.pending.Some? then
      var l := Link(r.flow, SecretId(r.snap.account), r.account, r.snap.kind, r.snap.pending.value, r.presented, r.at);
      m.(persisted := m.persisted + [l])
    else m
  }

  predicate Expired(f: Flow, now: int) {
    now > f.expiresAt
  }

  /** Tokens of abandoned flows: those the reaper takes on. */
  function Abandoned(flows: map<nat, Flow>, now: int): set<nat> {
    set f | f in flows && Expired(flows[f], now) && flows[f].status.Ready?
        && flows[f].pending.Some? :: flows[f].pending.value.access
  }

  function ReapStep(s: State, now: int): State {
    s.(flows := map f | f in s.flows && !Expired(s.flows[f], now) :: s.flows[f],
       states := map k | k in s.states && now <= s.states[k].expiresAt :: s.states[k],
       reaped := s.reaped + Abandoned(s.flows, now))
  }

  /** The reaper asks GitHub once to revoke what it took on. */
  function RevokeStep(s: State, t: nat, ok: bool): State {
    if ok then s.(revoked := s.revoked + {t}) else s.(reaped := s.reaped - {t})
  }

  /** Everything but what was persisted or revoked lives in memory. */
  function CrashStep(s: State): State {
    s.(states := map[], flows := map[], callbacks := map[], redeems := map[], reaped := s.reaped * s.revoked)
  }

  function Next(s: State, e: Event): State
    requires Enabled(s, e)
  {
    match e
    case Start(state, flow, account, kind, now) => StartStep(s, state, flow, account, kind, now)
    case CallbackLook(call, state, now) =>
      if state in s.states && now <= s.states[state].expiresAt
      then s.(callbacks := s.callbacks[call := Callback(state, s.states[state], None)]) else s
    case CallbackDenied(call) => DeniedStep(s, call)
    case CallbackExchange(call, tuple, arrives) => ExchangeStep(s, call, tuple, arrives)
    case CallbackFinish(call, completer) => FinishStep(s, call, completer)
    case CallbackDrop(call) => DropStep(s, call)
    case RedeemLook(call, flow, account, presented, now) =>
      if flow in s.flows && MayRedeem(s.flows[flow], account, presented, now)
      then s.(redeems := s.redeems[call := Redeem(flow, account, presented, s.flows[flow], now, false)]) else s
    case RedeemPop(call) => PopStep(s, call)
    case RedeemPersist(call, ok) => PersistStep(s, call, ok)
    case RedeemDrop(call) => s.(redeems := s.redeems - {call})
    case Reap(now) => ReapStep(s, now)
    case ReapRevoke(t, ok) => RevokeStep(s, t, ok)
    case Crash => CrashStep(s)
    case Tick(n) => s.(clock := s.clock + n)
  }

  function Exec(s: State, es: seq<Event>): Option<State> {
    if es == [] then Some(s)
    else
      match Exec(s, es[..|es| - 1])
      case None => None
      case Some(m) => if Enabled(m, es[|es| - 1]) then Some(Next(m, es[|es| - 1])) else None
  }

  predicate Initial(s: State) {
    s == State(map[], map[], s.clock, map[], map[], map[], map[], map[], [], {}, {})
  }

  ghost predicate Reachable(s: State) {
    exists s0, es :: Initial(s0) && Exec(s0, es) == Some(s)
  }

  /** What goes on record: who started a flow and for what, and which flow a token of GitHub's is for, even if it
      never arrives. */
  predicate OriginsRecorded(s: State, e: Event, t: State)
    requires Enabled(s, e)
  {
    match e
    case Start(_, flow, account, kind, now) =>
      t.started == s.started[flow := Origin(account, now, kind)] && t.exchanged == s.exchanged
    case CallbackExchange(call, tuple, _) =>
      t.started == s.started && t.exchanged == s.exchanged[tuple.access := s.callbacks[call].st.flow]
    case _ => t.started == s.started && t.exchanged == s.exchanged
  }

  /** Which flow a completer was delivered for and with which tuple, never for a device, and each link persisted, under
      the account's name. */
  predicate LinksRecorded(s: State, e: Event, t: State)
    requires Enabled(s, e)
  {
    match e
    case CallbackFinish(call, completer) =>
      var cb := s.callbacks[call];
      && t.persisted == s.persisted
      && t.delivered == if cb.st.kind.Device? || cb.st.flow !in s.flows then s.delivered
                        else s.delivered[completer := Delivery(cb.st.flow, cb.held.value)]
    case RedeemPersist(call, ok) =>
      var r := s.redeems[call];
      && t.delivered == s.delivered
      && t.persisted == if !ok || r.snap.pending.None? then s.persisted
                        else s.persisted + [Link(r.flow, "gh:" + r.snap.account, r.account, r.snap.kind,
                                                 r.snap.pending.value, r.presented, r.at)]
    case _ => t.delivered == s.delivered && t.persisted == s.persisted
  }

  lemma StepRecords(s: State, e: Event)
    requires Enabled(s, e)
    ensures OriginsRecorded(s, e, Next(s, e)) && LinksRecorded(s, e, Next(s, e))
  {
    StepRecordsOrigins(s, e);
    StepRecordsLinks(s, e);
    hide *;
  }

  lemma StepRecordsOrigins(s: State, e: Event)
    requires Enabled(s, e)
    ensures OriginsRecorded(s, e, Next(s, e))
  {
    if e.Start? {
      StepRecordsOriginsAtStart(s, e);
    } else if e.CallbackExchange? {
      StepRecordsOriginsAtCallbackExchange(s, e);
    } else {
      StepRecordsOriginsElsewhere(s, e);
    }
    hide *;
  }

  lemma StepRecordsOriginsAtStart(s: State, e: Event)
    requires Enabled(s, e) && e.Start?
    ensures OriginsRecorded(s, e, Next(s, e))
  {
  }

  lemma StepRecordsOriginsAtCallbackExchange(s: State, e: Event)
    requires Enabled(s, e) && e.CallbackExchange?
    ensures OriginsRecorded(s, e, Next(s, e))
  {
  }

  lemma StepRecordsOriginsElsewhere(s: State, e: Event)
    requires Enabled(s, e) && !e.Start? && !e.CallbackExchange?
    ensures OriginsRecorded(s, e, Next(s, e))
  {
    match e
    case CallbackLook(_, _, _) =>
    case CallbackDenied(_) =>
    case CallbackFinish(_, _) =>
    case CallbackDrop(_) =>
    case RedeemLook(_, _, _, _, _) =>
    case RedeemPop(_) =>
    case RedeemPersist(_, _) =>
    case RedeemDrop(_) =>
    case Reap(_) =>
    case ReapRevoke(_, _) =>
    case Crash =>
    case Tick(_) =>
  }

  lemma StepRecordsLinks(s: State, e: Event)
    requires Enabled(s, e)
    ensures LinksRecorded(s, e, Next(s, e))
  {
    if e.CallbackFinish? {
      StepRecordsLinksAtCallbackFinish(s, e);
    } else if e.RedeemPersist? {
      StepRecordsLinksAtRedeemPersist(s, e);
    } else {
      StepRecordsLinksElsewhere(s, e);
    }
    hide *;
  }

  lemma StepRecordsLinksAtCallbackFinish(s: State, e: Event)
    requires Enabled(s, e) && e.CallbackFinish?
    ensures LinksRecorded(s, e, Next(s, e))
  {
  }

  lemma StepRecordsLinksAtRedeemPersist(s: State, e: Event)
    requires Enabled(s, e) && e.RedeemPersist?
    ensures LinksRecorded(s, e, Next(s, e))
  {
  }

  lemma StepRecordsLinksElsewhere(s: State, e: Event)
    requires Enabled(s, e) && !e.CallbackFinish? && !e.RedeemPersist?
    ensures LinksRecorded(s, e, Next(s, e))
  {
    match e
    case Start(_, _, _, _, _) =>
    case CallbackLook(_, _, _) =>
    case CallbackDenied(_) =>
    case CallbackExchange(_, _, _) =>
    case CallbackDrop(_) =>
    case RedeemLook(_, _, _, _, _) =>
    case RedeemPop(_) =>
    case RedeemDrop(_) =>
    case Reap(_) =>
    case ReapRevoke(_, _) =>
    case Crash =>
    case Tick(_) =>
  }

  /** A callback ends with its denial or its last section, when it gives up or its answer is lost. */
  predicate CallbacksMove(s: State, e: Event, t: State)
    requires Enabled(s, e)
  {
    t.callbacks ==
      match e
      case Crash => map[]
      case CallbackLook(call, state, now) =>
        if state in s.states && now <= s.states[state].expiresAt
        then s.callbacks[call := Callback(state, s.states[state], None)] else s.callbacks
      case CallbackExchange(call, tuple, true) =>
        s.callbacks[call := Callback(s.callbacks[call].state, s.callbacks[call].st, Some(tuple))]
      case CallbackExchange(call, _, false) => s.callbacks - {call}
      case CallbackDenied(call) => s.callbacks - {call}
      case CallbackFinish(call, _) => s.callbacks - {call}
      case CallbackDrop(call) => s.callbacks - {call}
      case _ => s.callbacks
  }

  /** A redeem ends when it stops, finds the flow taken or has persisted, and takes the flow before that; a crash
      empties the maps. */
  predicate RedeemsMove(s: State, e: Event, t: State)
    requires Enabled(s, e)
  {
    match e
    case RedeemDrop(call) => t.redeems == s.redeems - {call}
    case RedeemPersist(call, _) => t.redeems == s.redeems - {call}
    case RedeemPop(call) =>
      var r := s.redeems[call];
      && t.flows == s.flows - {r.flow}
      && t.redeems == if r.flow in s.flows then s.redeems[call := r.(popped := true)] else s.redeems - {call}
    case RedeemLook(_, _, _, _, _) => true
    case Crash => t.redeems == map[] && t.flows == map[] && t.states == map[] && t.reaped == s.reaped * s.revoked
    case _ => t.redeems == s.redeems
  }

  lemma StepMovesCalls(s: State, e: Event)
    requires Enabled(s, e)
    ensures CallbacksMove(s, e, Next(s, e)) && RedeemsMove(s, e, Next(s, e))
  {
    StepMovesCallbacks(s, e);
    StepMovesRedeems(s, e);
    hide *;
  }

  lemma StepMovesCallbacks(s: State, e: Event)
    requires Enabled(s, e)
    ensures CallbacksMove(s, e, Next(s, e))
  {
    if e.CallbackFinish? {
      StepMovesCallbacksAtCallbackFinish(s, e);
    } else if e.CallbackExchange? {
      StepMovesCallbacksAtCallbackExchange(s, e);
    } else {
      StepMovesCallbacksElsewhere(s, e);
    }
    hide *;
  }

  lemma StepMovesCallbacksAtCallbackFinish(s: State, e: Event)
    requires Enabled(s, e) && e.CallbackFinish?
    ensures CallbacksMove(s, e, Next(s, e))
  {
  }

  lemma StepMovesCallbacksAtCallbackExchange(s: State, e: Event)
    requires Enabled(s, e) && e.CallbackExchange?
    ensures CallbacksMove(s, e, Next(s, e))
  {
  }

  lemma StepMovesCallbacksElsewhere(s: State, e: Event)
    requires Enabled(s, e) && !e.CallbackFinish? && !e.CallbackExchange?
    ensures CallbacksMove(s, e, Next(s, e))
  {
    match e
    case Start(_, _, _, _, _) =>
    case CallbackLook(_, _, _) =>
    case CallbackDenied(_) =>
    case CallbackDrop(_) =>
    case RedeemLook(_, _, _, _, _) =>
    case RedeemPop(_) =>
    case RedeemPersist(_, _) =>
    case RedeemDrop(_) =>
    case Reap(_) =>
    case ReapRevoke(_, _) =>
    case Crash =>
    case Tick(_) =>
  }

  lemma StepMovesRedeems(s: State, e: Event)
    requires Enabled(s, e)
    ensures RedeemsMove(s, e, Next(s, e))
  {
    if e.RedeemPop? {
      StepMovesRedeemsAtRedeemPop(s, e);
    } else if e.RedeemPersist? {
      StepMovesRedeemsAtRedeemPersist(s, e);
    } else {
      StepMovesRedeemsElsewhere(s, e);
    }
    hide *;
  }

  lemma StepMovesRedeemsAtRedeemPop(s: State, e: Event)
    requires Enabled(s, e) && e.RedeemPop?
    ensures RedeemsMove(s, e, Next(s, e))
  {
  }

  lemma StepMovesRedeemsAtRedeemPersist(s: State, e: Event)
    requires Enabled(s, e) && e.RedeemPersist?
    ensures RedeemsMove(s, e, Next(s, e))
  {
  }

  lemma StepMovesRedeemsElsewhere(s: State, e: Event)
    requires Enabled(s, e) && !e.RedeemPop? && !e.RedeemPersist?
    ensures RedeemsMove(s, e, Next(s, e))
  {
    match e
    case Start(_, _, _, _, _) =>
    case CallbackLook(_, _, _) =>
    case CallbackDenied(_) =>
    case CallbackExchange(_, _, _) =>
    case CallbackFinish(_, _) =>
    case CallbackDrop(_) =>
    case RedeemLook(_, _, _, _, _) =>
    case RedeemDrop(_) =>
    case Reap(_) =>
    case ReapRevoke(_, _) =>
    case Crash =>
    case Tick(_) =>
  }

  // ------------------------------------------------------------------ what a flow and its copies know

  /** A ready flow of a browser holds the completer that was delivered with its tuple. */
  predicate FlowOk(s: State, id: nat, f: Flow) {
    && id in s.started && s.started[id].account == f.account && f.expiresAt == s.started[id].at + FlowTTL
    && f.kind == s.started[id].kind && (f.status.Ready? ==> (f.completer.Some? <==> !f.kind.Device?))
    && (f.status.Ready? ==> f.pending.Some?)
    && (f.pending.Some? ==> f.pending.value.access in s.exchanged && s.exchanged[f.pending.value.access] == id)
    && (f.completer.Some? ==>
          && f.completer.value in s.delivered && f.pending.Some?
          && s.delivered[f.completer.value] == Delivery(id, f.pending.value))
  }

  predicate RedeemOk(s: State, r: Redeem) {
    && FlowOk(s, r.flow, r.snap) && r.snap.status.Ready? && r.snap.account == r.account && r.at <= r.snap.expiresAt
    && (!r.snap.kind.Device? ==> r.presented.Some? && r.presented == r.snap.completer)
  }

  predicate LinkOk(s: State, l: Link) {
    && l.flow in s.started && s.started[l.flow].account == l.account && l.secretId == SecretId(l.account)
    && l.redeemedAt <= s.started[l.flow].at + FlowTTL && l.kind == s.started[l.flow].kind
    && l.tuple.access in s.exchanged && s.exchanged[l.tuple.access] == l.flow
    && (!l.kind.Device? ==>
          && l.presented.Some? && l.presented.value in s.delivered
          && s.delivered[l.presented.value] == Delivery(l.flow, l.tuple))
  }

  predicate Known(s: State) {
    && (forall f :: f in s.flows ==> FlowOk(s, f, s.flows[f]))
    && (forall c :: c in s.redeems ==> RedeemOk(s, s.redeems[c]))
    && (forall l :: l in s.persisted ==> LinkOk(s, l))
    && (forall c :: c in s.callbacks ==> CallbackOk(s, s.callbacks[c]))
    && (forall k :: k in s.states ==> StateOk(s, s.states[k]))
    && (forall t :: t in s.exchanged ==> s.exchanged[t] in s.started)
  }

  predicate StateOk(s: State, st: LinkState) {
    st.flow in s.started && st.kind == s.started[st.flow].kind && st.expiresAt == s.started[st.flow].at + FlowTTL
  }

  predicate CallbackOk(s: State, c: Callback) {
    && StateOk(s, c.st)
    && (c.held.Some? ==> c.held.value.access in s.exchanged && s.exchanged[c.held.value.access] == c.st.flow)
  }

  /** Histories only grow. */
  predicate Grows(s: State, s': State) {
    && (forall k :: k in s.started ==> k in s'.started && s'.started[k] == s.started[k])
    && (forall k :: k in s.delivered ==> k in s'.delivered && s'.delivered[k] == s.delivered[k])
    && (forall k :: k in s.exchanged ==> k in s'.exchanged && s'.exchanged[k] == s.exchanged[k])
  }

  lemma FinishGrows(s: State, call: nat, completer: nat)
    requires Holds(s.callbacks, call) && completer !in s.delivered
    ensures Grows(s, FinishStep(s, call, completer))
  {
  }

  lemma FlowStaysOk(s: State, s': State, id: nat, f: Flow)
    requires Grows(s, s') && FlowOk(s, id, f)
    ensures FlowOk(s', id, f)
  {
  }

  /** Everything but a flow, a redeem or a link of the step's own was known before. */
  lemma KnownStays(s: State, s': State)
    requires Known(s) && Grows(s, s')
    requires forall f :: f in s'.flows ==> (f in s.flows && s'.flows[f] == s.flows[f]) || FlowOk(s', f, s'.flows[f])
    requires forall c :: c in s'.redeems ==>
             (c in s.redeems && s'.redeems[c] == s.redeems[c]) || RedeemOk(s', s'.redeems[c])
    requires forall l :: l in s'.persisted ==> l in s.persisted || LinkOk(s', l)
    requires forall c :: c in s'.callbacks ==>
             (c in s.callbacks && s'.callbacks[c] == s.callbacks[c]) || CallbackOk(s', s'.callbacks[c])
    requires forall k :: k in s'.states ==>
             (k in s.states && s'.states[k] == s.states[k]) || StateOk(s', s'.states[k])
    requires forall t :: t in s'.exchanged ==> t in s.exchanged || s'.exchanged[t] in s'.started
    ensures Known(s')
  {
    hide FlowOk, LinkOk;
    forall f | f in s'.flows
      ensures FlowOk(s', f, s'.flows[f])
    {
      if f in s.flows && s'.flows[f] == s.flows[f] {
        FlowStaysOk(s, s', f, s.flows[f]);
      }
    }
    forall c | c in s'.redeems
      ensures RedeemOk(s', s'.redeems[c])
    {
      if c in s.redeems && s'.redeems[c] == s.redeems[c] {
        FlowStaysOk(s, s', s.redeems[c].flow, s.redeems[c].snap);
      }
    }
    forall l | l in s'.persisted
      ensures LinkOk(s', l)
    {
      if l in s.persisted {
        LinkStaysOk(s, s', l);
      }
    }
    forall c | c in s'.callbacks
      ensures CallbackOk(s', s'.callbacks[c])
    {
      assert c in s.callbacks && s'.callbacks[c] == s.callbacks[c] ==> CallbackOk(s, s.callbacks[c]);
    }
  }

  lemma LinkStaysOk(s: State, s': State, l: Link)
    requires Grows(s, s') && LinkOk(s, l)
    ensures LinkOk(s', l)
  {
  }

  lemma KnownMeans(s: State)
    requires Known(s)
    ensures forall c :: c in s.callbacks ==> CallbackOk(s, s.callbacks[c])
    ensures forall k :: k in s.states ==> StateOk(s, s.states[k])
    ensures forall f :: f in s.flows ==> FlowOk(s, f, s.flows[f])
    ensures forall c :: c in s.redeems ==> RedeemOk(s, s.redeems[c])
  {
  }

  lemma FinishedFlowOk(s: State, call: nat, completer: nat)
    requires Known(s) && Holds(s.callbacks, call) && s.callbacks[call].st.flow in s.flows
    ensures
      var s' := FinishStep(s, call, completer);
      FlowOk(s', s.callbacks[call].st.flow, s'.flows[s.callbacks[call].st.flow])
  {
    assert FlowOk(s, s.callbacks[call].st.flow, s.flows[s.callbacks[call].st.flow]) && CallbackOk(s, s.callbacks[call]);
  }

  lemma FinishKeepsKnown(s: State, call: nat, completer: nat)
    requires Known(s) && Holds(s.callbacks, call) && completer !in s.delivered
    ensures Known(FinishStep(s, call, completer))
  {
    FinishGrows(s, call, completer);
    KnownMeans(s);
    if s.callbacks[call].st.flow in s.flows {
      FinishedFlowOk(s, call, completer);
    }
    hide Known, FlowOk, RedeemOk, LinkOk, CallbackOk, Grows;
    KnownStays(s, FinishStep(s, call, completer));
  }

  lemma ExchangeGrows(s: State, call: nat, tuple: Tuple, arrives: bool)
    requires Known(s) && call in s.callbacks && tuple.access !in s.exchanged
    ensures Grows(s, ExchangeStep(s, call, tuple, arrives))
    ensures arrives ==> CallbackOk(ExchangeStep(s, call, tuple, arrives),
            ExchangeStep(s, call, tuple, arrives).callbacks[call])
    ensures s.callbacks[call].st.flow in s.started
  {
    assert CallbackOk(s, s.callbacks[call]);
  }

  lemma ExchangeKeepsKnown(s: State, call: nat, tuple: Tuple, arrives: bool)
    requires Known(s) && call in s.callbacks && tuple.access !in s.exchanged
    ensures Known(ExchangeStep(s, call, tuple, arrives))
  {
    ExchangeGrows(s, call, tuple, arrives);
    hide Known, FlowOk, RedeemOk, LinkOk, CallbackOk, Grows;
    KnownStays(s, ExchangeStep(s, call, tuple, arrives));
  }

  lemma DeniedKeepsKnown(s: State, call: nat)
    requires Known(s) && call in s.callbacks
    ensures Known(DeniedStep(s, call))
  {
    KnownMeans(s);
    var s' := DeniedStep(s, call);
    var f := s.callbacks[call].st.flow;
    if f in s.flows {
      assert FlowOk(s, f, s.flows[f]);
      assert FlowOk(s', f, s.flows[f].(status := Denied));
    }
    assert Grows(s, s');
    hide Known, FlowOk, RedeemOk, LinkOk, Grows;
    KnownStays(s, s');
  }

  lemma StartKeepsKnown(s: State, state: nat, flow: nat, account: string, kind: Kind, now: int)
    requires Known(s) && flow !in s.started
    ensures Known(StartStep(s, state, flow, account, kind, now))
  {
    var s' := StartStep(s, state, flow, account, kind, now);
    assert FlowOk(s', flow, s'.flows[flow]);
    assert Grows(s, s');
    KnownMeans(s);
    hide Known, FlowOk, RedeemOk, LinkOk, Grows;
    KnownStays(s, s');
  }

  /** Steps that touch redeems, or drop flows, states and callbacks. */
  lemma RedeemsChange(s: State, s': State)
    requires Known(s) && s'.persisted == s.persisted
    requires s'.started == s.started && s'.delivered == s.delivered && s'.exchanged == s.exchanged
    requires forall c :: c in s'.callbacks ==> CallbackOk(s, s'.callbacks[c])
    requires forall k :: k in s'.states ==> k in s.states && s'.states[k] == s.states[k]
    requires forall f :: f in s'.flows ==> f in s.flows && s'.flows[f] == s.flows[f]
    requires forall c :: c in s'.redeems ==>
             (c in s.redeems && s'.redeems[c] == s.redeems[c]) || RedeemOk(s, s'.redeems[c])
    ensures Known(s')
  {
    forall c | c in s'.redeems
      ensures RedeemOk(s', s'.redeems[c])
    {
      assert RedeemOk(s, s'.redeems[c]);
    }
    forall f | f in s'.flows
      ensures FlowOk(s', f, s'.flows[f])
    {
      assert FlowOk(s, f, s.flows[f]);
    }
    forall l | l in s'.persisted
      ensures LinkOk(s', l)
    {
      assert LinkOk(s, l);
    }
    forall c | c in s'.callbacks
      ensures CallbackOk(s', s'.callbacks[c])
    {
      assert CallbackOk(s, s'.callbacks[c]);
    }
  }

  lemma LookKeepsKnown(s: State, e: Event)
    requires Known(s) && Enabled(s, e) && e.RedeemLook?
    ensures Known(Next(s, e))
  {
    if Next(s, e) != s {
      KnownMeans(s);
      assert FlowOk(s, e.flow, s.flows[e.flow]);
      assert RedeemOk(s, Next(s, e).redeems[e.call]);
      hide Known, RedeemOk, MayRedeem;
      RedeemsChange(s, Next(s, e));
    }
  }

  lemma PoppedOk(s: State, r: Redeem)
    requires RedeemOk(s, r)
    ensures RedeemOk(s, r.(popped := true))
  {
  }

  lemma PopKeepsKnown(s: State, call: nat)
    requires Known(s) && call in s.redeems
    ensures Known(PopStep(s, call))
  {
    KnownMeans(s);
    PoppedOk(s, s.redeems[call]);
    hide Known, FlowOk, RedeemOk;
    RedeemsChange(s, PopStep(s, call));
  }

  lemma PersistKeepsKnown(s: State, call: nat, ok: bool)
    requires Known(s) && call in s.redeems
    ensures Known(PersistStep(s, call, ok))
  {
    KnownMeans(s);
    var s' := PersistStep(s, call, ok);
    assert RedeemOk(s, s.redeems[call]);
    assert forall l :: l in s'.persisted ==> l in s.persisted || LinkOk(s', l);
    assert Grows(s, s');
    hide Known, FlowOk, RedeemOk, LinkOk, Grows;
    KnownStays(s, s');
  }

  lemma ReapKeepsKnown(s: State, now: int)
    requires Known(s)
    ensures Known(ReapStep(s, now))
  {
    KnownMeans(s);
    hide Known, RedeemOk, FlowOk, CallbackOk, Abandoned;
    RedeemsChange(s, ReapStep(s, now));
  }

  lemma CallbackLookKeepsKnown(s: State, e: Event)
    requires Known(s) && Enabled(s, e) && e.CallbackLook?
    ensures Known(Next(s, e))
  {
    KnownMeans(s);
    hide Known, RedeemOk, FlowOk;
    RedeemsChange(s, Next(s, e));
  }

  lemma CrashKeepsKnown(s: State)
    requires Known(s)
    ensures Known(CrashStep(s))
  {
    hide Known, RedeemOk, FlowOk, CallbackOk;
    RedeemsChange(s, CrashStep(s));
  }

  lemma DropKeepsKnown(s: State, call: nat)
    requires Known(s) && call in s.callbacks
    ensures Known(DropStep(s, call))
  {
    KnownMeans(s);
    hide Known, RedeemOk, FlowOk, CallbackOk;
    RedeemsChange(s, DropStep(s, call));
  }

  lemma RevokeKeepsKnown(s: State, t: nat, ok: bool)
    requires Known(s)
    ensures Known(RevokeStep(s, t, ok))
  {
    KnownMeans(s);
    hide Known, RedeemOk, FlowOk, CallbackOk;
    RedeemsChange(s, RevokeStep(s, t, ok));
  }

  lemma QuietStepKeepsKnown(s: State, e: Event)
    requires Known(s) && Enabled(s, e) && (e.RedeemDrop? || e.Tick?)
    ensures Known(Next(s, e))
  {
    KnownMeans(s);
    hide Known, RedeemOk, FlowOk, CallbackOk;
    RedeemsChange(s, Next(s, e));
  }

  lemma StepKeepsKnown(s: State, e: Event)
    requires Known(s) && Enabled(s, e)
    ensures Known(Next(s, e))
  {
    hide Known;
    match e
    case Start(state, flow, account, kind, now) => StartKeepsKnown(s, state, flow, account, kind, now);
    case CallbackFinish(call, completer) => FinishKeepsKnown(s, call, completer);
    case CallbackExchange(call, tuple, arrives) => ExchangeKeepsKnown(s, call, tuple, arrives);
    case CallbackDenied(call) => DeniedKeepsKnown(s, call);
    case RedeemLook(_, _, _, _, _) => LookKeepsKnown(s, e);
    case RedeemPop(call) => PopKeepsKnown(s, call);
    case RedeemPersist(call, ok) => PersistKeepsKnown(s, call, ok);
    case Reap(now) => ReapKeepsKnown(s, now);
    case CallbackLook(_, _, _) => CallbackLookKeepsKnown(s, e);
    case CallbackDrop(call) => DropKeepsKnown(s, call);
    case Crash => CrashKeepsKnown(s);
    case ReapRevoke(t, ok) => RevokeKeepsKnown(s, t, ok);
    case _ => QuietStepKeepsKnown(s, e);
  }

  // ------------------------------------------------------------------ what becomes of a flow

  predicate Popped(redeems: map<nat, Redeem>, f: nat) {
    exists c :: c in redeems && redeems[c].popped && redeems[c].flow == f
  }

  predicate Persisted(persisted: seq<Link>, f: nat) {
    exists i :: 0 <= i < |persisted| && persisted[i].flow == f
  }

  /** A flow is in the map, taken by one redeem, or persisted once. */
  predicate TakenOnce(flows: set<nat>, redeems: map<nat, Redeem>, persisted: seq<Link>) {
    && (forall c :: c in redeems && redeems[c].popped ==>
          redeems[c].flow !in flows && !Persisted(persisted, redeems[c].flow))
    && (forall c, d :: c in redeems && d in redeems && c != d && redeems[c].popped && redeems[d].popped ==>
          redeems[c].flow != redeems[d].flow)
    && (forall i :: 0 <= i < |persisted| ==> persisted[i].flow !in flows)
    && (forall i, j :: 0 <= i < j < |persisted| ==> persisted[i].flow != persisted[j].flow)
  }

  /** The flow whose token was revoked is none of these. */
  predicate ReapedGone(flows: set<nat>, redeems: map<nat, Redeem>, persisted: seq<Link>, reaped: set<nat>,
                       exchanged: map<nat, nat>) {
    forall t :: t in reaped ==>
      t in exchanged && exchanged[t] !in flows && !Popped(redeems, exchanged[t]) && !Persisted(persisted, exchanged[t])
  }

  predicate OneFate(s: State) {
    && TakenOnce(s.flows.Keys, s.redeems, s.persisted)
    && ReapedGone(s.flows.Keys, s.redeems, s.persisted, s.reaped, s.exchanged)
  }

  /** Fewer flows, fewer redeems, and no redeem newly popped. */
  lemma FateShrinks(s: State, s': State)
    requires OneFate(s) && s'.flows.Keys <= s.flows.Keys && s'.persisted == s.persisted && s'.reaped <= s.reaped
    requires forall t :: t in s.exchanged ==> t in s'.exchanged && s'.exchanged[t] == s.exchanged[t]
    requires forall c :: c in s'.redeems && s'.redeems[c].popped ==> c in s.redeems && s'.redeems[c] == s.redeems[c]
    ensures OneFate(s')
  {
    forall t | t in s'.reaped
      ensures !Popped(s'.redeems, s'.exchanged[t])
    {
      assert !Popped(s.redeems, s.exchanged[t]);
    }
  }

  lemma StartKeepsFate(s: State, e: Event)
    requires Known(s) && OneFate(s) && Enabled(s, e) && e.Start?
    ensures OneFate(Next(s, e))
  {
    assert forall c :: c in s.redeems ==> RedeemOk(s, s.redeems[c]);
    assert forall i :: 0 <= i < |s.persisted| ==> LinkOk(s, s.persisted[i]);
  }

  lemma PopKeepsFate(s: State, call: nat)
    requires OneFate(s) && call in s.redeems && !s.redeems[call].popped && s.redeems[call].flow in s.flows
    ensures OneFate(PopStep(s, call))
  {
    var s', f := PopStep(s, call), s.redeems[call].flow;
    assert s'.flows.Keys == s.flows.Keys - {f};
    hide PopStep;
    assert !Persisted(s.persisted, f);
    forall c | c in s'.redeems && s'.redeems[c].popped && c != call
      ensures s'.redeems[c].flow != f
    {
      assert s.redeems[c].flow !in s.flows;
    }
    forall t | t in s'.reaped
      ensures !Popped(s'.redeems, s'.exchanged[t])
    {
      assert s.exchanged[t] != f && !Popped(s.redeems, s.exchanged[t]);
    }
  }

  lemma PersistKeepsFate(s: State, call: nat, ok: bool)
    requires OneFate(s) && call in s.redeems && s.redeems[call].popped
    ensures OneFate(PersistStep(s, call, ok))
  {
    var s', r := PersistStep(s, call, ok), s.redeems[call];
    if s'.persisted == s.persisted {
      FateShrinks(s, s');
    } else {
      var l := s'.persisted[|s.persisted|];
      PersistingKeepsFate(s, call, l);
      assert s'.persisted == s.persisted + [l];
      assert s'.redeems == s.redeems - {call};
    }
  }

  lemma PersistingKeepsFate(s: State, call: nat, l: Link)
    requires OneFate(s) && call in s.redeems && s.redeems[call].popped && l.flow == s.redeems[call].flow
    ensures OneFate(s.(redeems := s.redeems - {call}, persisted := s.persisted + [l]))
  {
    var f, redeems', persisted' := l.flow, s.redeems - {call}, s.persisted + [l];
    assert Popped(s.redeems, f) && !Persisted(s.persisted, f);
    forall g | g != f && !Persisted(s.persisted, g)
      ensures !Persisted(persisted', g)
    {
    }
    forall t | t in s.reaped
      ensures !Popped(redeems', s.exchanged[t]) && !Persisted(persisted', s.exchanged[t])
    {
      assert s.exchanged[t] != f && !Popped(s.redeems, s.exchanged[t]) && !Persisted(s.persisted, s.exchanged[t]);
    }
    forall c | c in redeems' && redeems'[c].popped
      ensures !Persisted(persisted', redeems'[c].flow)
    {
      assert s.redeems[c].flow != f && !Persisted(s.persisted, s.redeems[c].flow);
    }
  }

  lemma ReapKeepsFate(s: State, now: int)
    requires Known(s) && OneFate(s)
    ensures OneFate(ReapStep(s, now))
  {
    var s' := ReapStep(s, now);
    forall t | t in Abandoned(s.flows, now)
      ensures t in s.exchanged && s.exchanged[t] in s.flows && s.exchanged[t] !in s'.flows
      ensures !Popped(s.redeems, s.exchanged[t]) && !Persisted(s.persisted, s.exchanged[t])
    {
      var f :| f in s.flows && Expired(s.flows[f], now) && s.flows[f].status.Ready? && s.flows[f].pending.Some?
               && s.flows[f].pending.value.access == t;
      assert FlowOk(s, f, s.flows[f]);
    }
    hide Known, Abandoned;
    assert s'.flows.Keys <= s.flows.Keys;
  }

  lemma StepKeepsFate(s: State, e: Event)
    requires Known(s) && OneFate(s) && Enabled(s, e)
    ensures OneFate(Next(s, e))
  {
    hide Known, OneFate, Abandoned, MayRedeem;
    match e
    case Start(_, _, _, _, _) => StartKeepsFate(s, e);
    case RedeemPop(call) =>
      if s.redeems[call].flow in s.flows {
        PopKeepsFate(s, call);
      } else {
        FateShrinks(s, Next(s, e));
      }
    case RedeemPersist(call, ok) => PersistKeepsFate(s, call, ok);
    case Reap(now) => ReapKeepsFate(s, now);
    case CallbackFinish(call, completer) => FateShrinks(s, Next(s, e));
    case Crash => CrashKeepsFate(s);
    case CallbackDenied(_) => CallbackKeepsFate(s, e);
    case CallbackExchange(call, tuple, arrives) => ExchangeKeepsFate(s, call, tuple, arrives);
    case ReapRevoke(t, ok) => RevokeKeepsFate(s, t, ok);
    case CallbackDrop(_) => CallbackKeepsFate(s, e);
    case CallbackLook(_, _, _) => CallbackKeepsFate(s, e);
    case _ => QuietStepKeepsFate(s, e);
  }

  lemma CrashKeepsFate(s: State)
    requires OneFate(s)
    ensures OneFate(CrashStep(s))
  {
    hide OneFate;
    FateShrinks(s, CrashStep(s));
  }

  lemma ExchangeKeepsFate(s: State, call: nat, tuple: Tuple, arrives: bool)
    requires OneFate(s) && call in s.callbacks && tuple.access !in s.exchanged
    ensures OneFate(ExchangeStep(s, call, tuple, arrives))
  {
    hide OneFate;
    FateShrinks(s, ExchangeStep(s, call, tuple, arrives));
  }

  lemma RevokeKeepsFate(s: State, t: nat, ok: bool)
    requires OneFate(s)
    ensures OneFate(RevokeStep(s, t, ok))
  {
    hide OneFate;
    FateShrinks(s, RevokeStep(s, t, ok));
  }

  lemma CallbackKeepsFate(s: State, e: Event)
    requires OneFate(s) && Enabled(s, e) && (e.CallbackDenied? || e.CallbackDrop? || e.CallbackLook?)
    ensures OneFate(Next(s, e))
  {
    hide OneFate;
    FateShrinks(s, Next(s, e));
  }

  lemma QuietStepKeepsFate(s: State, e: Event)
    requires OneFate(s) && Enabled(s, e) && (e.RedeemLook? || e.RedeemDrop? || e.Tick?)
    ensures OneFate(Next(s, e))
  {
    hide OneFate, MayRedeem;
    FateShrinks(s, Next(s, e));
  }

  // ------------------------------------------------------------------ who has a token

  /** The flow is ready and has the token. */
  predicate ReadyWith(flows: map<nat, Flow>, f: nat, t: nat) {
    f in flows && flows[f].status.Ready? && flows[f].pending.Some? && flows[f].pending.value.access == t
  }

  predicate Pending(flows: map<nat, Flow>, f: nat, t: nat) {
    f in flows && flows[f].pending.Some? && flows[f].pending.value.access == t
  }

  predicate Has(r: Redeem, t: nat) {
    r.snap.pending.Some? && r.snap.pending.value.access == t
  }

  /** A redeem past its checks has a copy of it, and has not tried to take the flow yet. */
  predicate Waits(redeems: map<nat, Redeem>, t: nat) {
    exists c :: c in redeems && !redeems[c].popped && Has(redeems[c], t)
  }

  predicate Taken(redeems: map<nat, Redeem>, t: nat) {
    exists c :: c in redeems && redeems[c].popped && Has(redeems[c], t)
  }

  predicate Linked(persisted: seq<Link>, t: nat) {
    exists i :: 0 <= i < |persisted| && persisted[i].tuple.access == t
  }

  predicate Holding(cb: Callback, t: nat) {
    cb.held.Some? && cb.held.value.access == t
  }

  predicate Held(callbacks: map<nat, Callback>, t: nat) {
    exists c :: c in callbacks && Holding(callbacks[c], t)
  }

  /** While its flow is in the map: held by a callback, or ready in the flow, or copied by a redeem. */
  predicate InFlow(s: State, t: nat)
    requires t in s.exchanged
  {
    s.exchanged[t] in s.flows && (Held(s.callbacks, t) || ReadyWith(s.flows, s.exchanged[t], t) || Waits(s.redeems, t))
  }

  /** Someone has the token who may still put it to use or have it revoked: its flow, a redeem that took it from
      there, the store, or the reaper. */
  predicate Alive(s: State, t: nat)
    requires t in s.exchanged
  {
    InFlow(s, t) || Taken(s.redeems, t) || Linked(s.persisted, t) || t in s.reaped
  }

  predicate Stranded(s: State, t: nat) {
    t in s.exchanged && !Alive(s, t)
  }

  // ------------------------------------------------------------------ a token is in one place

  /** Some redeem's copy of a flow has the token. */
  predicate Copied(redeems: map<nat, Redeem>, t: nat) {
    exists c :: c in redeems && Has(redeems[c], t)
  }

  /** A callback's token is its own and has not been anywhere else yet. */
  predicate HeldAlone(s: State, c: nat)
    requires Holds(s.callbacks, c)
  {
    var t := s.callbacks[c].held.value.access;
    && (forall d :: d in s.callbacks && d != c ==> !Holding(s.callbacks[d], t))
    && !Copied(s.redeems, t) && !Linked(s.persisted, t) && t !in s.reaped
          && !Pending(s.flows, s.callbacks[c].st.flow, t)
  }

  ghost predicate HeldApart(s: State) {
    forall c :: Holds(s.callbacks, c) ==> HeldAlone(s, c)
  }

  lemma LinkedAppended(persisted: seq<Link>, l: Link, t: nat)
    ensures Linked(persisted + [l], t) <==> Linked(persisted, t) || l.tuple.access == t
  {
    if i :| 0 <= i < |persisted| && persisted[i].tuple.access == t {
      assert (persisted + [l])[i].tuple.access == t;
    }
    assert (persisted + [l])[|persisted|] == l;
  }

  /** The reaper decides by the token's own flow. */
  lemma ReapedToken(s: State, t: nat, now: int)
    requires Known(s) && t in s.exchanged
    ensures t in Abandoned(s.flows, now) <==>
            ReadyWith(s.flows, s.exchanged[t], t) && Expired(s.flows[s.exchanged[t]], now)
  {
    if t in Abandoned(s.flows, now) {
      var f :| f in s.flows && Expired(s.flows[f], now) && ReadyWith(s.flows, f, t);
      assert FlowOk(s, f, s.flows[f]);
    }
  }

  /** What leaves a callback alone, and puts its token nowhere. */
  lemma HeldFrame(s: State, s': State)
    requires HeldApart(s)
    requires forall c :: Holds(s'.callbacks, c) ==> c in s.callbacks && s'.callbacks[c] == s.callbacks[c]
    requires forall c :: Holds(s'.callbacks, c) ==>
               var t := s.callbacks[c].held.value.access;
               && (Copied(s'.redeems, t) ==> Copied(s.redeems, t))
                     && (Linked(s'.persisted, t) ==> Linked(s.persisted, t))
               && (t in s'.reaped ==> t in s.reaped)
               && (Pending(s'.flows, s.callbacks[c].st.flow, t) ==> Pending(s.flows, s.callbacks[c].st.flow, t))
    ensures HeldApart(s')
  {
    hide Copied, Linked, Pending;
    forall c | Holds(s'.callbacks, c)
      ensures HeldAlone(s', c)
    {
      assert HeldAlone(s, c);
      assert forall d :: d in s'.callbacks && s'.callbacks[d].held.Some? ==> Holds(s'.callbacks, d);
    }
  }

  lemma CopiedFrame(redeems: map<nat, Redeem>, redeems': map<nat, Redeem>, t: nat)
    requires forall c :: c in redeems' ==> c in redeems && redeems'[c].snap == redeems[c].snap
    ensures Copied(redeems', t) ==> Copied(redeems, t)
  {
  }

  lemma StepKeepsHeldApart(s: State, e: Event)
    requires Known(s) && OneFate(s) && HeldApart(s) && Enabled(s, e)
    ensures HeldApart(Next(s, e))
  {
    hide Known, OneFate, HeldApart, Copied, Linked, MayRedeem;
    match e
    case CallbackExchange(call, tuple, arrives) => ExchangeKeepsHeldApart(s, call, tuple, arrives);
    case CallbackFinish(call, completer) => FinishKeepsHeldApart(s, call, completer);
    case CallbackDenied(call) => HeldFrame(s, Next(s, e));
    case CallbackDrop(_) => HeldFrame(s, Next(s, e));
    case CallbackLook(_, _, _) => HeldFrame(s, Next(s, e));
    case Start(_, _, _, _, _) => HeldFrame(s, Next(s, e));
    case RedeemLook(_, _, _, _, _) => RedeemLookKeepsHeldApart(s, e);
    case RedeemPop(call) => PopKeepsHeldApart(s, call);
    case RedeemDrop(call) => DropKeepsHeldApart(s, call);
    case RedeemPersist(call, ok) => PersistKeepsHeldApart(s, call, ok);
    case Reap(now) => ReapKeepsHeldApart(s, now);
    case ReapRevoke(_, _) => HeldFrame(s, Next(s, e));
    case Crash => CrashKeepsHeldApart(s);
    case Tick(_) => HeldFrame(s, Next(s, e));
  }

  lemma ExchangeKeepsHeldApart(s: State, call: nat, tuple: Tuple, arrives: bool)
    requires Known(s) && OneFate(s) && HeldApart(s) && Enabled(s, CallbackExchange(call, tuple, arrives))
    ensures HeldApart(ExchangeStep(s, call, tuple, arrives))
  {
    var s' := ExchangeStep(s, call, tuple, arrives);
    NewTokenIsNowhere(s, tuple.access);
    assert forall c :: Holds(s.callbacks, c) ==> CallbackOk(s, s.callbacks[c]);
    hide Known, OneFate, Copied, Linked, Pending;
    if arrives {
      forall c | Holds(s'.callbacks, c)
        ensures HeldAlone(s', c)
      {
        assert c != call ==> Holds(s.callbacks, c) && HeldAlone(s, c);
      }
    } else {
      HeldFrame(s, s');
    }
  }

  lemma FinishKeepsHeldApart(s: State, call: nat, completer: nat)
    requires HeldApart(s) && Holds(s.callbacks, call)
    ensures HeldApart(FinishStep(s, call, completer))
  {
    assert HeldAlone(s, call);
    hide Copied, Linked;
    HeldFrame(s, FinishStep(s, call, completer));
  }

  lemma RedeemLookKeepsHeldApart(s: State, e: Event)
    requires Known(s) && HeldApart(s) && Enabled(s, e) && e.RedeemLook?
    ensures HeldApart(Next(s, e))
  {
    var s' := Next(s, e);
    if s' != s {
      assert FlowOk(s, e.flow, s.flows[e.flow]);
      forall c | Holds(s'.callbacks, c)
        ensures Copied(s'.redeems, s.callbacks[c].held.value.access) ==>
                Copied(s.redeems, s.callbacks[c].held.value.access)
      {
        assert HeldAlone(s, c) && CallbackOk(s, s.callbacks[c]);
        CopiedOneMore(s.redeems, e.call, s'.redeems[e.call], s.callbacks[c].held.value.access);
      }
      hide Known, MayRedeem, Copied, Linked, Pending;
      HeldFrame(s, s');
    }
  }

  lemma CopiedOneMore(redeems: map<nat, Redeem>, call: nat, r: Redeem, t: nat)
    ensures Copied(redeems[call := r], t) ==> Copied(redeems, t) || Has(r, t)
  {
  }

  lemma PopKeepsHeldApart(s: State, call: nat)
    requires HeldApart(s) && call in s.redeems
    ensures HeldApart(PopStep(s, call))
  {
    var s' := PopStep(s, call);
    assert forall c :: c in s'.redeems ==> c in s.redeems && s'.redeems[c].snap == s.redeems[c].snap;
    forall t: nat
      ensures Copied(s'.redeems, t) ==> Copied(s.redeems, t)
    {
      CopiedFrame(s.redeems, s'.redeems, t);
    }
    hide Copied, Linked;
    HeldFrame(s, s');
  }

  lemma DropKeepsHeldApart(s: State, call: nat)
    requires HeldApart(s) && call in s.redeems
    ensures HeldApart(s.(redeems := s.redeems - {call}))
  {
    var s' := s.(redeems := s.redeems - {call});
    forall t: nat
      ensures Copied(s'.redeems, t) ==> Copied(s.redeems, t)
    {
      CopiedFrame(s.redeems, s'.redeems, t);
    }
    hide Copied, Linked, Pending;
    HeldFrame(s, s');
  }

  lemma PersistKeepsHeldApart(s: State, call: nat, ok: bool)
    requires HeldApart(s) && call in s.redeems
    ensures HeldApart(PersistStep(s, call, ok))
  {
    var s' := PersistStep(s, call, ok);
    assert forall c :: c in s'.redeems ==> c in s.redeems && s'.redeems[c].snap == s.redeems[c].snap;
    forall c | Holds(s'.callbacks, c)
      ensures
        var t := s.callbacks[c].held.value.access;
        (Copied(s'.redeems, t) ==> Copied(s.redeems, t)) && (Linked(s'.persisted, t) ==> Linked(s.persisted, t))
    {
      var t := s.callbacks[c].held.value.access;
      assert HeldAlone(s, c);
      CopiedFrame(s.redeems, s'.redeems, t);
      if s'.persisted != s.persisted {
        LinkedAppended(s.persisted, s'.persisted[|s.persisted|], t);
        assert s'.persisted == s.persisted + [s'.persisted[|s.persisted|]];
      }
    }
    hide Copied, Linked, Pending;
    HeldFrame(s, s');
  }

  lemma ReapKeepsHeldApart(s: State, now: int)
    requires Known(s) && HeldApart(s)
    ensures HeldApart(ReapStep(s, now))
  {
    var s' := ReapStep(s, now);
    forall c | Holds(s'.callbacks, c)
      ensures s.callbacks[c].held.value.access !in Abandoned(s.flows, now)
    {
      assert HeldAlone(s, c) && CallbackOk(s, s.callbacks[c]);
      ReapedToken(s, s.callbacks[c].held.value.access, now);
    }
    hide Known, Copied, Linked, Abandoned;
    HeldFrame(s, s');
  }

  lemma CrashKeepsHeldApart(s: State)
    ensures HeldApart(CrashStep(s))
  {
  }

  /** A token of a flow that is still in the map is in no later place. */
  lemma InMapMeansNowhereElse(s: State, t: nat)
    requires Known(s) && OneFate(s) && t in s.exchanged && s.exchanged[t] in s.flows
    ensures !Taken(s.redeems, t) && !Linked(s.persisted, t) && t !in s.reaped
  {
    forall c | c in s.redeems && s.redeems[c].popped
      ensures !Has(s.redeems[c], t)
    {
      assert RedeemOk(s, s.redeems[c]);
    }
    forall i | 0 <= i < |s.persisted|
      ensures s.persisted[i].tuple.access != t
    {
      assert LinkOk(s, s.persisted[i]);
    }
  }

  /** A token never issued is nowhere. */
  lemma NewTokenIsNowhere(s: State, t: nat)
    requires Known(s) && OneFate(s) && t !in s.exchanged
    ensures !Copied(s.redeems, t) && !Linked(s.persisted, t) && t !in s.reaped && !Held(s.callbacks, t)
    ensures forall f :: f in s.flows ==> !Pending(s.flows, f, t)
  {
    forall c | c in s.redeems
      ensures !Has(s.redeems[c], t)
    {
      assert RedeemOk(s, s.redeems[c]);
    }
    forall c | c in s.callbacks
      ensures !Holding(s.callbacks[c], t)
    {
      assert CallbackOk(s, s.callbacks[c]);
    }
    forall i | 0 <= i < |s.persisted|
      ensures s.persisted[i].tuple.access != t
    {
      assert LinkOk(s, s.persisted[i]);
    }
    forall f | f in s.flows
      ensures !Pending(s.flows, f, t)
    {
      assert FlowOk(s, f, s.flows[f]);
    }
  }

  /** What a callback holds is nowhere else. */
  lemma HeldIsNowhereElse(s: State, t: nat)
    requires Known(s) && HeldApart(s) && t in s.exchanged && Held(s.callbacks, t)
    ensures !Copied(s.redeems, t) && !Linked(s.persisted, t) && t !in s.reaped && !Pending(s.flows, s.exchanged[t], t)
  {
    var c :| c in s.callbacks && Holding(s.callbacks[c], t);
    assert Holds(s.callbacks, c) && HeldAlone(s, c) && CallbackOk(s, s.callbacks[c]);
  }

  /** What a redeem took from its flow is that redeem's alone. */
  lemma OnlyTakerOf(s: State, call: nat)
    requires Known(s) && OneFate(s) && call in s.redeems && s.redeems[call].popped
    ensures s.redeems[call].snap.pending.Some?
    ensures
      var a := s.redeems[call].snap.pending.value.access;
      && a in s.exchanged && s.exchanged[a] == s.redeems[call].flow && s.exchanged[a] !in s.flows
      && !Taken(s.redeems - {call}, a) && !Linked(s.persisted, a) && a !in s.reaped
  {
    var r := s.redeems[call];
    assert RedeemOk(s, r);
    var a := r.snap.pending.value.access;
    forall c | c in s.redeems && c != call && s.redeems[c].popped
      ensures !Has(s.redeems[c], a)
    {
      assert RedeemOk(s, s.redeems[c]);
    }
    forall i | 0 <= i < |s.persisted|
      ensures s.persisted[i].tuple.access != a
    {
      assert LinkOk(s, s.persisted[i]) && !Persisted(s.persisted, r.flow);
    }
    assert Popped(s.redeems, r.flow);
  }

  lemma ReapedIsNowhereElse(s: State, t: nat)
    requires Known(s) && OneFate(s) && t in s.reaped
    ensures t in s.exchanged && s.exchanged[t] !in s.flows && !Taken(s.redeems, t) && !Linked(s.persisted, t)
  {
    forall c | c in s.redeems && s.redeems[c].popped
      ensures !Has(s.redeems[c], t)
    {
      assert RedeemOk(s, s.redeems[c]) && !Popped(s.redeems, s.exchanged[t]);
    }
    forall i | 0 <= i < |s.persisted|
      ensures s.persisted[i].tuple.access != t
    {
      assert LinkOk(s, s.persisted[i]) && !Persisted(s.persisted, s.exchanged[t]);
    }
  }

  lemma {:induction false} RunsAreSound(s0: State, es: seq<Event>)
    requires Initial(s0) && Exec(s0, es).Some?
    ensures Known(Exec(s0, es).value) && OneFate(Exec(s0, es).value) && HeldApart(Exec(s0, es).value)
    ensures Exec(s0, es).value.revoked <= Exec(s0, es).value.reaped
  {
    if es != [] {
      RunsAreSound(s0, es[..|es| - 1]);
      var m, e := Exec(s0, es[..|es| - 1]).value, es[|es| - 1];
      RevokedStay(m, e);
      hide Known, OneFate, HeldApart, Next, Enabled;
      StepKeepsKnown(m, e);
      StepKeepsFate(m, e);
      StepKeepsHeldApart(m, e);
    }
  }

  /** What the reaper had revoked it had taken on. */
  lemma RevokedStay(s: State, e: Event)
    requires Enabled(s, e) && s.revoked <= s.reaped
    ensures Next(s, e).revoked <= Next(s, e).reaped
  {
    hide Abandoned, MayRedeem;
    match e
    case Reap(_) =>
    case ReapRevoke(_, _) =>
    case Crash =>
    case CallbackExchange(_, _, _) =>
    case CallbackFinish(_, _) =>
    case RedeemPop(_) =>
    case RedeemPersist(_, _) =>
    case _ =>
  }

  lemma ReachableSound(s: State)
    requires Reachable(s)
    ensures Known(s) && OneFate(s) && HeldApart(s) && s.revoked <= s.reaped
  {
    var s0, es :| Initial(s0) && Exec(s0, es) == Some(s);
    RunsAreSound(s0, es);
  }

  // ------------------------------------------------------------------ theorems

  /** However callbacks, redeems and the reaper interleave, a flow is persisted at most once, under the
      secret id of the account that started it, for that account, and only if its redeem came within
      fifteen minutes of its start. */
  lemma PersistedOnceForItsStarter(s: State, i: nat, j: nat)
    requires Reachable(s) && i < |s.persisted| && j < |s.persisted|
    ensures s.persisted[i].flow == s.persisted[j].flow ==> i == j
    ensures s.persisted[i].flow in s.started && s.persisted[i].account == s.started[s.persisted[i].flow].account
    ensures s.persisted[i].secretId == "gh:" + s.started[s.persisted[i].flow].account
    ensures s.persisted[i].redeemedAt <= s.started[s.persisted[i].flow].at + 15 * 60
  {
    hide Exec;
    ReachableSound(s);
    assert LinkOk(s, s.persisted[i]);
  }

  /** Every record of a flow is of the kind its starter asked for. */
  lemma KindIsTheStarters(s: State)
    requires Reachable(s)
    ensures forall f :: f in s.flows ==> f in s.started && s.flows[f].kind == s.started[f].kind
    ensures forall k :: k in s.states ==>
              s.states[k].flow in s.started && s.states[k].kind == s.started[s.states[k].flow].kind
    ensures forall c :: c in s.callbacks ==>
              s.callbacks[c].st.flow in s.started && s.callbacks[c].st.kind == s.started[s.callbacks[c].st.flow].kind
    ensures forall c :: c in s.redeems ==>
              s.redeems[c].flow in s.started && s.redeems[c].snap.kind == s.started[s.redeems[c].flow].kind
    ensures forall i :: 0 <= i < |s.persisted| ==>
              s.persisted[i].flow in s.started && s.persisted[i].kind == s.started[s.persisted[i].flow].kind
  {
    hide Exec;
    ReachableSound(s);
    assert forall f :: f in s.flows ==> FlowOk(s, f, s.flows[f]);
    assert forall c :: c in s.redeems ==> RedeemOk(s, s.redeems[c]);
    assert forall c :: c in s.callbacks ==> CallbackOk(s, s.callbacks[c]);
    assert forall i :: 0 <= i < |s.persisted| ==> LinkOk(s, s.persisted[i]);
  }

  /** A redeem gets past its checks exactly if its flow is in the map and ready, within fifteen minutes of its
      start, and its caller started it; and, unless it was started for a device, the redeem presents the completer
      that was delivered with the tuple now in the flow. A device flow needs none. */
  lemma RedeemPassesIff(s: State, e: Event)
    requires Reachable(s) && Enabled(s, e) && e.RedeemLook?
    ensures e.call in Next(s, e).redeems <==>
              && e.flow in s.flows && e.flow in s.started && s.flows[e.flow].status.Ready?
              && e.now <= s.started[e.flow].at + 15 * 60 && e.account == s.started[e.flow].account
              && (s.started[e.flow].kind.Device? || (e.presented.Some? && e.presented == s.flows[e.flow].completer))
    ensures e.flow in s.flows && e.flow in s.started && s.flows[e.flow].status.Ready?
            && !s.started[e.flow].kind.Device? ==>
              && s.flows[e.flow].completer.Some? && s.flows[e.flow].pending.Some?
              && s.flows[e.flow].completer.value in s.delivered
              && s.delivered[s.flows[e.flow].completer.value] == Delivery(e.flow, s.flows[e.flow].pending.value)
  {
    hide Exec;
    ReachableSound(s);
    assert e.flow in s.flows ==> FlowOk(s, e.flow, s.flows[e.flow]);
    hide Reachable;
  }

  /** For flows started for web and loopback the tuple persisted is the one whose callback delivered the completer
      that the redeem presented, even if another callback overwrote the flow in between. */
  lemma CompleterNamesItsTuple(s: State, i: nat)
    requires Reachable(s) && i < |s.persisted|
    requires s.persisted[i].flow in s.started && !s.started[s.persisted[i].flow].kind.Device?
    ensures s.persisted[i].presented.Some? && s.persisted[i].presented.value in s.delivered
    ensures s.delivered[s.persisted[i].presented.value] == Delivery(s.persisted[i].flow, s.persisted[i].tuple)
  {
    hide Exec;
    ReachableSound(s);
    assert LinkOk(s, s.persisted[i]);
  }

  /** The reaper never takes on, or revokes, a token that was, or is about to be, persisted. */
  lemma ReaperSparesLinks(s: State, i: nat)
    requires Reachable(s) && i < |s.persisted|
    ensures s.persisted[i].tuple.access !in s.reaped + s.revoked
    ensures forall c :: c in s.redeems && s.redeems[c].popped ==>
              s.redeems[c].snap.pending.Some? && s.redeems[c].snap.pending.value.access !in s.reaped
  {
    hide Exec;
    ReachableSound(s);
    assert LinkOk(s, s.persisted[i]);
    assert Persisted(s.persisted, s.persisted[i].flow);
    forall c | c in s.redeems && s.redeems[c].popped
      ensures s.redeems[c].snap.pending.Some? && s.redeems[c].snap.pending.value.access !in s.reaped
    {
      OnlyTakerOf(s, c);
    }
  }

  /** A token is in one place at a time: with a callback, in a flow that is in the map (or copied from it by a
      redeem that may still take it), taken by a redeem, persisted, or with the reaper. */
  lemma OnePlaceAtATime(s: State, t: nat)
    requires Reachable(s) && t in s.exchanged
    ensures
      var inFlow := s.exchanged[t] in s.flows && (ReadyWith(s.flows, s.exchanged[t], t) || Waits(s.redeems, t));
      && !(Held(s.callbacks, t) && inFlow) && !(Held(s.callbacks, t) && Taken(s.redeems, t))
            && !(inFlow && Taken(s.redeems, t))
      && !((Held(s.callbacks, t) || inFlow || Taken(s.redeems, t)) && Linked(s.persisted, t))
      && !((Held(s.callbacks, t) || inFlow || Taken(s.redeems, t) || Linked(s.persisted, t)) && t in s.reaped)
  {
    hide Exec;
    ReachableSound(s);
    if Held(s.callbacks, t) {
      HeldIsNowhereElse(s, t);
      CopiedMeans(s.redeems, t);
    }
    if s.exchanged[t] in s.flows {
      InMapMeansNowhereElse(s, t);
    }
    if t in s.reaped {
      ReapedIsNowhereElse(s, t);
    }
    if Taken(s.redeems, t) {
      TakenIsNotLinked(s, t);
    }
  }

  lemma CopiedMeans(redeems: map<nat, Redeem>, t: nat)
    ensures Copied(redeems, t) <==> Waits(redeems, t) || Taken(redeems, t)
  {
  }

  lemma TakenIsNotLinked(s: State, t: nat)
    requires Known(s) && OneFate(s) && Taken(s.redeems, t)
    ensures t in s.exchanged && s.exchanged[t] !in s.flows && !Linked(s.persisted, t) && t !in s.reaped
  {
    var c :| c in s.redeems && s.redeems[c].popped && Has(s.redeems[c], t);
    OnlyTakerOf(s, c);
  }

  // ------------------------------------------------------------------ what strands a token

  /** The step is the last that anyone has token `t`: an exchange whose answer is lost, or arrives when the flow is
      gone; a callback that gives up with the token in hand; a callback that completes over a token no waiting
      redeem has a copy of, or a denial that comes after it; a redeem that takes the flow with another token; one
      whose link is not persisted; the last copy of an overwritten token given up; a reaper that evicts the flow
      while a callback holds the token or a redeem waits with an overwritten one; a reaper that fails to revoke; and
      a crash while it is still in memory. */
  predicate Strands(s: State, e: Event, t: nat)
    requires Enabled(s, e)
  {
    match e
    case CallbackExchange(call, tuple, arrives) => t == tuple.access
         && !(arrives && s.callbacks[call].st.flow in s.flows)
    case CallbackFinish(call, _) => ReadyWith(s.flows, s.callbacks[call].st.flow, t) && !Waits(s.redeems, t)
    case CallbackDenied(call) => ReadyWith(s.flows, s.callbacks[call].st.flow, t) && !Waits(s.redeems, t)
    case CallbackDrop(call) => Holding(s.callbacks[call], t) && s.callbacks[call].st.flow in s.flows
    case RedeemPop(call) =>
      t in s.exchanged && s.exchanged[t] == s.redeems[call].flow && InFlow(s, t) && !Has(s.redeems[call], t)
    case RedeemPersist(call, ok) => !ok && Has(s.redeems[call], t)
    case RedeemDrop(call) =>
      var r := s.redeems[call];
      r.flow in s.flows && Has(r, t) && !ReadyWith(s.flows, r.flow, t) && !Waits(s.redeems - {call}, t)
    case Reap(now) =>
      && t in s.exchanged && InFlow(s, t) && Expired(s.flows[s.exchanged[t]], now)
      && !ReadyWith(s.flows, s.exchanged[t], t)
    case ReapRevoke(x, ok) => t == x && !ok
    case Crash => t in s.exchanged && (InFlow(s, t) || Taken(s.redeems, t) || t in s.reaped - s.revoked)
    case _ => false
  }

  lemma WaitsWithout(redeems: map<nat, Redeem>, call: nat, t: nat)
    requires call in redeems
    ensures Waits(redeems, t) <==> Waits(redeems - {call}, t) || (!redeems[call].popped && Has(redeems[call], t))
    ensures Taken(redeems, t) <==> Taken(redeems - {call}, t) || (redeems[call].popped && Has(redeems[call], t))
  {
    var rest := redeems - {call};
    assert forall c :: c in rest <==> c in redeems && c != call;
  }

  /** Setting one entry. */
  lemma WaitsWith(redeems: map<nat, Redeem>, call: nat, r: Redeem, t: nat)
    ensures Waits(redeems[call := r], t) <==> Waits(redeems - {call}, t) || (!r.popped && Has(r, t))
    ensures Taken(redeems[call := r], t) <==> Taken(redeems - {call}, t) || (r.popped && Has(r, t))
  {
    WaitsWithout(redeems[call := r], call, t);
    assert redeems[call := r] - {call} == redeems - {call};
  }

  lemma HeldWithout(callbacks: map<nat, Callback>, call: nat, t: nat)
    requires call in callbacks
    ensures Held(callbacks, t) <==> Held(callbacks - {call}, t) || Holding(callbacks[call], t)
  {
    var rest := callbacks - {call};
    assert forall c :: c in rest <==> c in callbacks && c != call;
  }

  lemma HeldWith(callbacks: map<nat, Callback>, call: nat, cb: Callback, t: nat)
    ensures Held(callbacks[call := cb], t) <==> Held(callbacks - {call}, t) || Holding(cb, t)
  {
    HeldWithout(callbacks[call := cb], call, t);
    assert callbacks[call := cb] - {call} == callbacks - {call};
  }

  lemma ExchangeStrandsIff(s: State, call: nat, tuple: Tuple, arrives: bool, t: nat)
    requires Known(s) && OneFate(s) && Enabled(s, CallbackExchange(call, tuple, arrives))
    ensures Stranded(ExchangeStep(s, call, tuple, arrives), t) <==>
              Stranded(s, t) || Strands(s, CallbackExchange(call, tuple, arrives), t)
  {
    var cb := s.callbacks[call].(held := Some(tuple));
    HeldWithout(s.callbacks, call, t);
    HeldWith(s.callbacks, call, cb, t);
    NewTokenIsNowhere(s, tuple.access);
    CopiedMeans(s.redeems, tuple.access);
    assert s.callbacks[call].st.flow in s.flows ==> !Pending(s.flows, s.callbacks[call].st.flow, tuple.access);
    hide Known, OneFate, Held, Waits, Taken, Linked, Copied;
  }

  lemma FinishStrandsIff(s: State, call: nat, completer: nat, t: nat)
    requires Known(s) && OneFate(s) && HeldApart(s) && Holds(s.callbacks, call)
    ensures Stranded(FinishStep(s, call, completer), t) <==>
              Stranded(s, t) || (ReadyWith(s.flows, s.callbacks[call].st.flow, t) && !Waits(s.redeems, t))
  {
    assert CallbackOk(s, s.callbacks[call]);
    PlacesOf(s, t, s.callbacks[call].st.flow);
    HeldWithout(s.callbacks, call, t);
    PlacesOf(s, s.callbacks[call].held.value.access, s.callbacks[call].st.flow);
    HeldWithout(s.callbacks, call, s.callbacks[call].held.value.access);
    hide Known, OneFate, HeldApart, Held, Waits, Taken, Linked;
  }

  /** What the invariants say of one token's places. */
  lemma PlacesOf(s: State, t: nat, f: nat)
    requires Known(s) && OneFate(s) && HeldApart(s)
    ensures ReadyWith(s.flows, f, t) ==> t in s.exchanged && s.exchanged[t] == f
    ensures t in s.exchanged && s.exchanged[t] in s.flows ==>
            !Taken(s.redeems, t) && !Linked(s.persisted, t) && t !in s.reaped
    ensures t in s.exchanged && Held(s.callbacks, t) ==>
              && !Waits(s.redeems, t) && !Taken(s.redeems, t) && !Linked(s.persisted, t) && t !in s.reaped
              && !ReadyWith(s.flows, s.exchanged[t], t)
  {
    if f in s.flows {
      assert FlowOk(s, f, s.flows[f]);
    }
    if t in s.exchanged && s.exchanged[t] in s.flows {
      InMapMeansNowhereElse(s, t);
    }
    if t in s.exchanged && Held(s.callbacks, t) {
      HeldIsNowhereElse(s, t);
      CopiedMeans(s.redeems, t);
    }
  }

  lemma DeniedStrandsIff(s: State, call: nat, t: nat)
    requires Known(s) && OneFate(s) && HeldApart(s) && call in s.callbacks && s.callbacks[call].held.None?
    ensures Stranded(DeniedStep(s, call), t) <==>
              Stranded(s, t) || (ReadyWith(s.flows, s.callbacks[call].st.flow, t) && !Waits(s.redeems, t))
  {
    PlacesOf(s, t, s.callbacks[call].st.flow);
    HeldWithout(s.callbacks, call, t);
    hide Known, OneFate, HeldApart, Held, Waits, Taken, Linked;
  }

  lemma DropStrandsIff(s: State, call: nat, t: nat)
    requires Known(s) && OneFate(s) && HeldApart(s) && call in s.callbacks
    ensures Stranded(DropStep(s, call), t) <==>
              Stranded(s, t) || (Holding(s.callbacks[call], t) && s.callbacks[call].st.flow in s.flows)
  {
    assert CallbackOk(s, s.callbacks[call]);
    if Holding(s.callbacks[call], t) {
      assert HeldAlone(s, call);
    }
    PlacesOf(s, t, s.callbacks[call].st.flow);
    HeldWithout(s.callbacks, call, t);
    assert Holding(s.callbacks[call], t) ==> !Held(s.callbacks - {call}, t);
    hide Known, OneFate, HeldApart, Held, Waits, Taken, Linked;
  }

  lemma PopStrandsIff(s: State, call: nat, t: nat)
    requires Known(s) && OneFate(s) && HeldApart(s) && Enabled(s, RedeemPop(call))
    ensures Stranded(PopStep(s, call), t) <==> Stranded(s, t) || Strands(s, RedeemPop(call), t)
  {
    if s.redeems[call].flow in s.flows {
      PopTakesStrandsIff(s, call, t);
    } else {
      PopLosesStrandsIff(s, call, t);
    }
    hide Known, OneFate, HeldApart, Stranded, PopStep, InFlow;
  }

  lemma PopTakesStrandsIff(s: State, call: nat, t: nat)
    requires Known(s) && OneFate(s) && HeldApart(s) && call in s.redeems && !s.redeems[call].popped
    requires s.redeems[call].flow in s.flows
    ensures Stranded(PopStep(s, call), t) <==>
              Stranded(s, t) || (t in s.exchanged && s.exchanged[t] == s.redeems[call].flow && InFlow(s, t)
                                 && !Has(s.redeems[call], t))
  {
    var r := s.redeems[call];
    assert RedeemOk(s, r);
    PlacesOf(s, t, r.flow);
    WaitsWithout(s.redeems, call, t);
    WaitsWith(s.redeems, call, r.(popped := true), t);
    hide Known, OneFate, HeldApart, Held, Waits, Taken, Linked;
  }

  lemma PopLosesStrandsIff(s: State, call: nat, t: nat)
    requires Known(s) && OneFate(s) && HeldApart(s) && call in s.redeems && !s.redeems[call].popped
    requires s.redeems[call].flow !in s.flows
    ensures Stranded(PopStep(s, call), t) <==>
              Stranded(s, t) || (t in s.exchanged && s.exchanged[t] == s.redeems[call].flow && InFlow(s, t)
                                 && !Has(s.redeems[call], t))
  {
    var r := s.redeems[call];
    assert RedeemOk(s, r);
    PlacesOf(s, t, r.flow);
    WaitsWithout(s.redeems, call, t);
    hide Known, OneFate, HeldApart, Held, Waits, Taken, Linked;
  }

  lemma PersistStrandsIff(s: State, call: nat, ok: bool, t: nat)
    requires Known(s) && OneFate(s) && HeldApart(s) && Enabled(s, RedeemPersist(call, ok))
    ensures Stranded(PersistStep(s, call, ok), t) <==> Stranded(s, t) || (!ok && Has(s.redeems[call], t))
  {
    OnlyTakerOf(s, call);
    WaitsWithout(s.redeems, call, t);
    var l := PersistStep(s, call, true).persisted[|s.persisted|];
    LinkedAppended(s.persisted, l, t);
    assert ok ==> PersistStep(s, call, ok).persisted == s.persisted + [l];
    hide Known, OneFate, HeldApart, Held, Waits, Taken, Linked;
  }

  lemma RedeemDropStrandsIff(s: State, call: nat, t: nat)
    requires Known(s) && OneFate(s) && HeldApart(s) && Enabled(s, RedeemDrop(call))
    ensures Stranded(Next(s, RedeemDrop(call)), t) <==> Stranded(s, t) || Strands(s, RedeemDrop(call), t)
  {
    var r := s.redeems[call];
    assert RedeemOk(s, r);
    PlacesOf(s, t, r.flow);
    WaitsWithout(s.redeems, call, t);
    hide Known, OneFate, HeldApart, Held, Waits, Taken, Linked;
  }

  lemma ReapStrandsIff(s: State, now: int, t: nat)
    requires Known(s) && OneFate(s) && HeldApart(s)
    ensures Stranded(ReapStep(s, now), t) <==>
              Stranded(s, t) || (t in s.exchanged && InFlow(s, t) && Expired(s.flows[s.exchanged[t]], now)
                                 && !ReadyWith(s.flows, s.exchanged[t], t))
  {
    if t in s.exchanged {
      ReapedToken(s, t, now);
      PlacesOf(s, t, s.exchanged[t]);
    }
    hide Known, OneFate, HeldApart, Held, Waits, Taken, Linked, Abandoned;
  }

  lemma RevokeStrandsIff(s: State, x: nat, ok: bool, t: nat)
    requires Known(s) && OneFate(s) && x in s.reaped
    ensures Stranded(RevokeStep(s, x, ok), t) <==> Stranded(s, t) || (t == x && !ok)
  {
    ReapedIsNowhereElse(s, x);
    hide Known, OneFate, Held, Waits, Taken, Linked;
  }

  lemma CrashStrandsIff(s: State, t: nat)
    requires Known(s) && OneFate(s) && HeldApart(s) && s.revoked <= s.reaped
    ensures Stranded(CrashStep(s), t) <==> Stranded(s, t) || Strands(s, Crash, t)
  {
    if t in s.exchanged {
      PlacesOf(s, t, s.exchanged[t]);
      if Taken(s.redeems, t) {
        TakenIsNotLinked(s, t);
      }
      if t in s.reaped {
        ReapedIsNowhereElse(s, t);
      }
    }
    hide Known, OneFate, HeldApart, Linked;
  }

  lemma LookStrandsNone(s: State, e: Event, t: nat)
    requires Known(s) && Enabled(s, e) && e.RedeemLook?
    ensures Stranded(Next(s, e), t) <==> Stranded(s, t)
  {
    if Next(s, e) != s {
      assert FlowOk(s, e.flow, s.flows[e.flow]);
      WaitsWith(s.redeems, e.call, Next(s, e).redeems[e.call], t);
      assert s.redeems - {e.call} == s.redeems;
    }
    hide Known, Held, Waits, Taken, Linked;
  }

  lemma StartStrandsNone(s: State, e: Event, t: nat)
    requires Known(s) && Enabled(s, e) && (e.Start? || e.Tick?)
    ensures Stranded(Next(s, e), t) <==> Stranded(s, t)
  {
    hide Held, Waits, Taken, Linked;
  }

  lemma CallbackLookStrandsNone(s: State, e: Event, t: nat)
    requires Enabled(s, e) && e.CallbackLook?
    ensures Stranded(Next(s, e), t) <==> Stranded(s, t)
  {
    if Next(s, e) != s {
      HeldWith(s.callbacks, e.call, Next(s, e).callbacks[e.call], t);
      assert s.callbacks - {e.call} == s.callbacks;
    }
    hide Held, Waits, Taken, Linked;
  }

  /** A step strands exactly the tokens that Strands names, and what is stranded stays so. */
  lemma StrandsIff(s: State, e: Event, t: nat)
    requires Reachable(s) && Enabled(s, e)
    ensures Stranded(Next(s, e), t) <==> Stranded(s, t) || Strands(s, e, t)
  {
    hide Exec;
    ReachableSound(s);
    StepStrandsIff(s, e, t);
  }

  lemma StepStrandsIff(s: State, e: Event, t: nat)
    requires Known(s) && OneFate(s) && HeldApart(s) && s.revoked <= s.reaped && Enabled(s, e)
    ensures Stranded(Next(s, e), t) <==> Stranded(s, t) || Strands(s, e, t)
  {
    hide Known, OneFate, HeldApart, MayRedeem, Stranded, ReadyWith, InFlow, Waits, Taken, Holding, Has;
    hide ExchangeStep, FinishStep, DropStep, DeniedStep, PopStep, PersistStep, ReapStep, RevokeStep, CrashStep;
    match e
    case CallbackExchange(call, tuple, arrives) => ExchangeStrandsIff(s, call, tuple, arrives, t);
    case CallbackFinish(call, completer) => FinishStrandsIff(s, call, completer, t);
    case CallbackDenied(call) => DeniedStrandsIff(s, call, t);
    case CallbackDrop(call) => DropStrandsIff(s, call, t);
    case RedeemPop(call) => PopStrandsIff(s, call, t);
    case RedeemPersist(call, ok) => PersistStrandsIff(s, call, ok, t);
    case RedeemDrop(call) => RedeemDropStrandsIff(s, call, t);
    case Reap(now) => ReapStrandsIff(s, now, t);
    case ReapRevoke(x, ok) => RevokeStrandsIff(s, x, ok, t);
    case Crash => CrashStrandsIff(s, t);
    case RedeemLook(_, _, _, _, _) => LookStrandsNone(s, e, t);
    case CallbackLook(_, _, _) => CallbackLookStrandsNone(s, e, t);
    case Start(_, _, _, _, _) => StartStrandsNone(s, e, t);
    case Tick(_) => StartStrandsNone(s, e, t);
  }

  // ------------------------------------------------------------------ stranded means lost for good

  /** Some continuation persists the token or has it revoked. */
  ghost predicate Salvageable(s: State, t: nat) {
    exists es :: Salvages(s, es, t)
  }

  ghost predicate Salvages(s: State, es: seq<Event>, t: nat) {
    Exec(s, es).Some? && (Linked(Exec(s, es).value.persisted, t) || t in Exec(s, es).value.revoked)
  }

  lemma {:induction false} StrandedForGood(s: State, es: seq<Event>, t: nat)
    requires Known(s) && OneFate(s) && HeldApart(s) && s.revoked <= s.reaped && Stranded(s, t) && Exec(s, es).Some?
    ensures
      var s' := Exec(s, es).value;
      Stranded(s', t) && Known(s') && OneFate(s') && HeldApart(s') && s'.revoked <= s'.reaped
  {
    if es != [] {
      StrandedForGood(s, es[..|es| - 1], t);
      var m, e := Exec(s, es[..|es| - 1]).value, es[|es| - 1];
      RevokedStay(m, e);
      hide Known, OneFate, HeldApart, Stranded, Next, Enabled;
      StepKeepsKnown(m, e);
      StepKeepsFate(m, e);
      StepKeepsHeldApart(m, e);
      StepStrandsIff(m, e, t);
    }
  }

  lemma {:induction false} ExecAfter(s: State, e: Event, es: seq<Event>)
    requires Enabled(s, e)
    ensures Exec(s, [e] + es) == Exec(Next(s, e), es)
  {
    hide Next, Enabled;
    if es == [] {
      assert [e] + es == [e] && [e][..0] == [];
    } else {
      ExecAfter(s, e, es[..|es| - 1]);
      assert ([e] + es)[..|es|] == [e] + es[..|es| - 1];
    }
  }

  lemma SalvagedAfter(s: State, e: Event, t: nat)
    requires Enabled(s, e) && Salvageable(Next(s, e), t)
    ensures Salvageable(s, t)
  {
    hide Next, Enabled, Exec;
    var es :| Salvages(Next(s, e), es, t);
    ExecAfter(s, e, es);
    assert Salvages(s, [e] + es, t);
  }

  lemma SalvagedAlready(s: State, t: nat)
    requires Linked(s.persisted, t) || t in s.revoked
    ensures Salvageable(s, t)
  {
    assert Salvages(s, [], t);
  }

  lemma ReapedIsSalvageable(s: State, t: nat)
    requires t in s.reaped
    ensures Salvageable(s, t)
  {
    hide Salvageable;
    if t in s.revoked {
      SalvagedAlready(s, t);
    } else {
      SalvagedAlready(RevokeStep(s, t, true), t);
      SalvagedAfter(s, ReapRevoke(t, true), t);
    }
  }

  lemma TakenIsSalvageable(s: State, t: nat)
    requires Taken(s.redeems, t)
    ensures Salvageable(s, t)
  {
    hide Salvageable;
    var c :| c in s.redeems && s.redeems[c].popped && Has(s.redeems[c], t);
    var s' := PersistStep(s, c, true);
    assert s'.persisted[|s.persisted|].tuple.access == t;
    SalvagedAlready(s', t);
    SalvagedAfter(s, RedeemPersist(c, true), t);
  }

  lemma WaitingIsSalvageable(s: State, t: nat)
    requires Known(s) && t in s.exchanged && s.exchanged[t] in s.flows && Waits(s.redeems, t)
    ensures Salvageable(s, t)
  {
    var c :| c in s.redeems && !s.redeems[c].popped && Has(s.redeems[c], t);
    assert RedeemOk(s, s.redeems[c]);
    var s' := PopStep(s, c);
    assert c in s'.redeems && s'.redeems[c].popped && Has(s'.redeems[c], t);
    hide Known, Salvageable;
    TakenIsSalvageable(s', t);
    SalvagedAfter(s, RedeemPop(c), t);
  }

  /** Left alone, a ready flow falls to the reaper. */
  lemma ReadyIsSalvageable(s: State, f: nat, t: nat)
    requires ReadyWith(s.flows, f, t)
    ensures Salvageable(s, t)
  {
    hide Salvageable;
    var due := s.flows[f].expiresAt + 1;
    var wait: nat := if due <= s.clock then 0 else due - s.clock;
    var m := s.(clock := s.clock + wait);
    assert Expired(m.flows[f], m.clock) && t in Abandoned(m.flows, m.clock);
    ReapedIsSalvageable(ReapStep(m, m.clock), t);
    SalvagedAfter(m, Reap(m.clock), t);
    SalvagedAfter(s, Tick(wait), t);
  }

  /** There is always another completer to draw. */
  lemma {:induction false} FreshCompleter(taken: set<nat>) returns (n: nat)
    ensures forall k :: k in taken ==> k < n
    decreases taken
  {
    if taken == {} {
      n := 0;
    } else {
      var k :| k in taken;
      var m := FreshCompleter(taken - {k});
      n := if m <= k then k + 1 else m;
      assert forall j :: j in taken ==> j == k || j in taken - {k};
    }
  }

  lemma HeldIsSalvageable(s: State, t: nat)
    requires Known(s) && t in s.exchanged && s.exchanged[t] in s.flows && Held(s.callbacks, t)
    ensures Salvageable(s, t)
  {
    var c :| c in s.callbacks && Holding(s.callbacks[c], t);
    assert CallbackOk(s, s.callbacks[c]);
    hide Known, Salvageable;
    var completer := FreshCompleter(s.delivered.Keys);
    ReadyIsSalvageable(FinishStep(s, c, completer), s.exchanged[t], t);
    SalvagedAfter(s, CallbackFinish(c, completer), t);
  }

  /** A token is stranded exactly if no continuation, however lucky, persists it or has it revoked. */
  lemma StrandedMeansLost(s: State, t: nat)
    requires Reachable(s) && t in s.exchanged
    ensures Stranded(s, t) <==> forall es :: Exec(s, es).Some? ==>
              !Linked(Exec(s, es).value.persisted, t) && t !in Exec(s, es).value.revoked
  {
    hide Exec;
    ReachableSound(s);
    hide Known, OneFate, HeldApart, Held, Waits, Taken, Linked, ReadyWith;
    if Stranded(s, t) {
      forall es | Exec(s, es).Some?
        ensures !Linked(Exec(s, es).value.persisted, t) && t !in Exec(s, es).value.revoked
      {
        StrandedForGood(s, es, t);
      }
    } else {
      AliveIsSalvageable(s, t);
      var es :| Salvages(s, es, t);
      assert Exec(s, es).Some?;
    }
  }

  lemma AliveIsSalvageable(s: State, t: nat)
    requires Known(s) && t in s.exchanged && Alive(s, t)
    ensures Salvageable(s, t)
  {
    hide Known, Salvageable, Held, Waits, Taken, Linked, ReadyWith;
    if t in s.reaped {
      ReapedIsSalvageable(s, t);
    } else if Taken(s.redeems, t) {
      TakenIsSalvageable(s, t);
    } else if Linked(s.persisted, t) {
      SalvagedAlready(s, t);
    } else if Held(s.callbacks, t) {
      HeldIsSalvageable(s, t);
    } else if Waits(s.redeems, t) {
      WaitingIsSalvageable(s, t);
    } else {
      ReadyIsSalvageable(s, s.exchanged[t], t);
    }
  }

  lemma ReachableNext(s: State, e: Event)
    requires Reachable(s) && Enabled(s, e)
    ensures Reachable(Next(s, e))
  {
    var s0, es :| Initial(s0) && Exec(s0, es) == Some(s);
    assert (es + [e])[..|es|] == es;
    assert Exec(s0, es + [e]) == Some(Next(s, e));
  }

  lemma Walk(s: State, e: Event) returns (s': State)
    requires Reachable(s) && Enabled(s, e)
    ensures Reachable(s') && s' == Next(s, e)
  {
    ReachableNext(s, e);
    s' := Next(s, e);
  }

  /** One flow, and two callbacks for it that have looked. */
  lemma TwoCallbacks() returns (s: State)
    ensures Reachable(s) && s.flows == map[0 := Flow("a", Web, Issued, FlowTTL, None, None)] && s.exchanged == map[]
    ensures
      var cb := Callback(0, LinkState(0, Web, FlowTTL), None);
      s.callbacks == map[0 := cb, 1 := cb] && s.redeems == map[] && s.persisted == [] && s.reaped == {}
          && s.delivered == map[]
  {
    var s0 := State(map[], map[], 0, map[], map[], map[], map[], map[], [], {}, {});
    assert Exec(s0, []) == Some(s0) && Initial(s0);
    hide Exec, Reachable;
    s := Walk(s0, Start(0, 0, "a", Web, 0));
    s := Walk(s, CallbackLook(0, 0, 0));
    s := Walk(s, CallbackLook(1, 0, 0));
  }

  /** Nothing need fail for that: of two callbacks of one flow, each of which got a token from GitHub, the second
      overwrites the first one's before any redeem looked. */
  lemma OverwrittenTokenIsLost() returns (s: State)
    ensures Reachable(s) && Stranded(s, 1) && ReadyWith(s.flows, 0, 2) && s.exchanged == map[1 := 0, 2 := 0]
  {
    hide Exec, Reachable;
    s := TwoCallbacks();
    s := Walk(s, CallbackExchange(0, Tuple(1, 0), true));
    s := Walk(s, CallbackExchange(1, Tuple(2, 0), true));
    s := Walk(s, CallbackFinish(0, 10));
    s := Walk(s, CallbackFinish(1, 11));
  }
}
