/** Minting GitHub access tokens from a custodial link whose refresh token is single-use.

    A mint holds the link's lock and moves through store and GitHub calls, any of which may fail, take
    effect and still report failure, or be the last thing the process does. Relinking and revoking do
    not take that lock, so they may fall between any two of its steps. */
module GithubMint {
  import opened Codec

  /** Seconds of life an access token must have left to be handed out as it is. */
  const RefreshLead: int := 600

  /** A refresh token: the gen-th of the chain that one authorization started. */
  datatype Token = Token(chain: nat, gen: nat)

  datatype Tuple = Tuple(refresh: Token, refreshExpiresAt: int, access: string, accessExpiresAt: int, tokenType: string)

  /** The durably staged outcome of a rotation that has not been committed. */
  datatype Stage = Stage(tuple: Tuple, version: nat)

  datatype Link = Link(
    secretId: string, revoked: bool, relinkRequired: bool,
    live: Tuple, version: nat, deliveryId: string, pending: Option<Stage>)

  /** A request's link reference: none yet, or the version and delivery the node last received. */
  datatype Ref = Initial | Explicit(version: nat, deliveryId: string)

  datatype Answer = Answer(access: string, expiresAt: int, refreshed: bool, at: int, version: nat)

  function DeliveryId(secretId: string, version: nat): string {
    "github-access-" + secretId + "-v" + Itoa(version)
  }

  function TypeOrBearer(t: string): string {
    if TrimSpace(t) == "" then "bearer" else t
  }

  predicate Fresh(l: Link, now: int) {
    l.live.access != "" && l.live.accessExpiresAt > now + RefreshLead
  }

  datatype Decision = Deny | Broken | Recover(stage: Stage) | Serve | Refresh

  /** The node knows another delivery than the link's. */
  predicate Mismatched(l: Link, ref: Ref) {
    ref.Explicit? && (l.version != ref.version || l.deliveryId != ref.deliveryId)
  }

  /** What is left to decide for a link without mark or stage, once the clock is read. */
  function Judgement(l: Link, ref: Ref, now: int): Decision {
    if Mismatched(l, ref) then
      if ref.version < l.version && Fresh(l, now) then Serve else Deny
    else if Fresh(l, now) then Serve
    else Refresh
  }

  /** What MintGitHubAccessToken does with the link it read. */
  function Decide(l: Link, ref: Ref, now: int): Decision {
    if l.relinkRequired then Broken
    else if l.pending.Some? then Recover(l.pending.value)
    else Judgement(l, ref, now)
  }

  // The store's updates of an unrevoked row; a revoked or absent row is left alone (ErrNotFound).

  predicate Live(row: Option<Link>) {
    row.Some? && !row.value.revoked
  }

  /** StageRotation */
  function StageRow(row: Option<Link>, stage: Stage): Option<Link> {
    if Live(row) then Some(row.value.(pending := Some(stage))) else row
  }

  /** Rotate: the new tuple goes live, the stage and the relink mark are cleared. */
  function RotateRow(row: Option<Link>, stage: Stage): Option<Link> {
    if !Live(row) then row
    else
      var l := row.value;
      Some(l.(live := stage.tuple, version := if stage.version != 0 then stage.version else l.version,
              deliveryId := DeliveryId(l.secretId, stage.version), pending := None, relinkRequired := false))
  }

  /** MarkRelinkRequired */
  function MarkRow(row: Option<Link>): Option<Link> {
    if Live(row) then Some(row.value.(relinkRequired := true)) else row
  }

  /** Revoke */
  function RevokeRow(row: Option<Link>): Option<Link> {
    if Live(row) then Some(row.value.(revoked := true)) else row
  }

  /** RedeemUpsert, which does not touch a pending stage. */
  function RelinkRow(row: Option<Link>, secretId: string, tuple: Tuple): Option<Link> {
    match row
    case None => Some(Link(secretId, false, false, tuple, 1, DeliveryId(secretId, 1), None))
    case Some(l) =>
      Some(l.(live := tuple, version := l.version + 1, deliveryId := DeliveryId(l.secretId, l.version + 1),
              revoked := false, relinkRequired := false))
  }

  /** Where the holder of the link's lock stands, with what it has in its local variables. */
  datatype Phase =
    | Idle
    | Looked(link: Link, ref: Ref)       // about to read the clock
    | Fetched(link: Link, now: int)      // about to call GitHub
    | Rejected(now: int)                 // about to mark the link
    | Granted(stage: Stage, now: int)    // about to stage
    | Staged(stage: Stage, now: int)     // about to commit
    | Recovering(stage: Stage)           // about to commit what an earlier mint staged

  /** `current[c]` is the generation of chain c that GitHub would accept. */
  datatype State = State(row: Option<Link>, current: seq<nat>, clock: int, phase: Phase, answers: seq<Answer>)

  datatype Outcome =
    | Delivered(access: string, accessExpiresAt: int, refreshExpiresAt: int, tokenType: string)
    | ResponseLost        // GitHub rotated, but the answer never arrived (or was incomplete)
    | RefreshRejected
    | Unreachable         // GitHub never saw the request

  datatype StoreResult = Done | Failed | DoneButFailed

  datatype Event =
    | Begin(ref: Ref)
    | Judge
    | CallGitHub(outcome: Outcome)
    | MarkStep(r: StoreResult)
    | StageStep(r: StoreResult)
    | CommitStep(r: StoreResult)
    | Crash
    | Tick(seconds: nat)
    | Relink(secretId: string, access: string, accessExpiresAt: int, refreshExpiresAt: int)
    | Revoke

  predicate IsCurrent(current: seq<nat>, t: Token) {
    t.chain < |current| && current[t.chain] == t.gen
  }

  /** GitHub rotates a token only if it is the current one of its chain; a token it rejects is, or
      becomes, dead. */
  predicate Enabled(s: State, e: Event) {
    match e
    case Begin(_) => s.phase.Idle?
    case Judge => s.phase.Looked?
    case CallGitHub(o) =>
      s.phase.Fetched? && (o.Delivered? || o.ResponseLost? ==> IsCurrent(s.current, s.phase.link.live.refresh))
      && (o.Delivered? ==> o.access != "" && o.accessExpiresAt != 0 && o.refreshExpiresAt != 0)
    case MarkStep(_) => s.phase.Rejected?
    case StageStep(_) => s.phase.Granted?
    case CommitStep(_) => s.phase.Staged? || s.phase.Recovering?
    case _ => true
  }

  function Spend(current: seq<nat>, t: Token): seq<nat> {
    if IsCurrent(current, t) then current[t.chain := t.gen + 1] else current
  }

  /** The row is read before the clock is. */
  function BeginStep(s: State, ref: Ref): State {
    if !Live(s.row) || s.row.value.relinkRequired then s
    else if s.row.value.pending.Some? then s.(phase := Recovering(s.row.value.pending.value))
    else s.(phase := Looked(s.row.value, ref))
  }

  function JudgeStep(s: State): State
    requires s.phase.Looked?
  {
    var l := s.phase.link;
    match Judgement(l, s.phase.ref, s.clock)
    case Serve =>
      s.(phase := Idle, answers := s.answers
          + [Answer(l.live.access, l.live.accessExpiresAt, false, s.clock, l.version)])
    case Refresh => s.(phase := Fetched(l, s.clock))
    case _ => s.(phase := Idle)
  }

  function CallStep(s: State, o: Outcome): State
    requires s.phase.Fetched?
  {
    var l, now := s.phase.link, s.phase.now;
    match o
    case Unreachable => s.(phase := Idle)
    case ResponseLost => s.(current := Spend(s.current, l.live.refresh), phase := Idle)
    case RefreshRejected => s.(current := Spend(s.current, l.live.refresh), phase := Rejected(now))
    case Delivered(access, accessExp, refreshExp, tokenType) =>
      var next := Tuple(Token(l.live.refresh.chain, l.live.refresh.gen + 1), refreshExp, access, accessExp,
          TypeOrBearer(tokenType));
      s.(current := Spend(s.current, l.live.refresh), phase := Granted(Stage(next, l.version + 1), now))
  }

  function StageFrom(s: State, r: StoreResult): State
    requires s.phase.Granted?
  {
    var row := if r.Failed? then s.row else StageRow(s.row, s.phase.stage);
    s.(row := row, phase := if r.Done? && Live(s.row) then Staged(s.phase.stage, s.phase.now) else Idle)
  }

  function CommitFrom(s: State, r: StoreResult): State
    requires s.phase.Staged? || s.phase.Recovering?
  {
    var st := s.phase.stage;
    s.(row := if r.Failed? then s.row else RotateRow(s.row, st), phase := Idle,
       answers := if r.Done? && Live(s.row)
                  then s.answers + [Answer(st.tuple.access, st.tuple.accessExpiresAt, true, s.clock,
                                           RotateRow(s.row, st).value.version)]
                  else s.answers)
  }

  function Next(s: State, e: Event): State
    requires Enabled(s, e)
  {
    match e
    case Begin(ref) => BeginStep(s, ref)
    case Judge => JudgeStep(s)
    case CallGitHub(o) => CallStep(s, o)
    case MarkStep(r) => s.(row := if r.Failed? then s.row else MarkRow(s.row), phase := Idle)
    case StageStep(r) => StageFrom(s, r)
    case CommitStep(r) => CommitFrom(s, r)
    case Crash => s.(phase := Idle)
    case Tick(n) => s.(clock := s.clock + n)
    case Relink(secretId, access, accessExp, refreshExp) =>
      s.(row := RelinkRow(s.row, secretId, Tuple(Token(|s.current|, 0), refreshExp, access, accessExp, "bearer")),
         current := s.current + [0])
    case Revoke => s.(row := RevokeRow(s.row))
  }

  function Exec(s: State, es: seq<Event>): Option<State> {
    if es == [] then Some(s)
    else
      match Exec(s, es[..|es| - 1])
      case None => None
      case Some(m) => if Enabled(m, es[|es| - 1]) then Some(Next(m, es[|es| - 1])) else None
  }

  function Init(clock: int): State {
    State(None, [], clock, Idle, [])
  }

  // ------------------------------------------------------------------ crash consistency

  /** The stage is what comes next: GitHub's current token, one version on. */
  predicate StageFits(s: State, stage: Stage) {
    && s.row.Some?
    && IsCurrent(s.current, stage.tuple.refresh) && stage.version == s.row.value.version + 1
    && stage.tuple.refresh.chain == s.row.value.live.refresh.chain
    && stage.tuple.refresh.gen == s.row.value.live.refresh.gen + 1
  }

  /** The chain was lost before staging: GitHub has moved on and nobody kept the successor. */
  predicate Lost(s: State) {
    s.row.Some? && s.row.value.pending.None? && !IsCurrent(s.current, s.row.value.live.refresh)
  }

  /** The live token cannot be served any more. */
  predicate Spent(s: State) {
    s.row.Some? && !Fresh(s.row.value, s.clock)
  }

  predicate PhaseFits(s: State) {
    match s.phase
    case Idle => true
    case Looked(l, ref) => Mismatched(l, ref)
         || (Unstaged(s) && l.live == s.row.value.live && l.version == s.row.value.version)
    case Fetched(l, _) => Spent(s) && Unstaged(s) && l.live == s.row.value.live && l.version == s.row.value.version
    case Rejected(_) => Spent(s) && Lost(s)
    case Granted(stage, _) => Spent(s) && Unstaged(s) && StageFits(s, stage)
    case Staged(stage, _) => s.row.Some? && s.row.value.pending == Some(stage)
    case Recovering(stage) => s.row.Some? && s.row.value.pending == Some(stage)
  }

  predicate Unstaged(s: State) {
    s.row.Some? && s.row.value.pending.None? && !s.row.value.relinkRequired
  }

  /** Whatever has failed: a pending stage is GitHub's current token at version live + 1; with no stage
      the live token is current, or the chain is lost and its access token too old to serve. */
  predicate Coherent(s: State) {
    && (s.row.Some? && s.row.value.pending.Some? ==> StageFits(s, s.row.value.pending.value))
    && (Lost(s) ==> Spent(s))
    && (s.row.Some? && s.row.value.relinkRequired ==> Lost(s))
    && (s.row.Some? ==> s.row.value.live.refresh.chain < |s.current|)
    && PhaseFits(s)
  }

  /** None has left a stage, and no mint holds the lock but one that can only serve what it read or refuse. */
  predicate Settled(s: State) {
    && (s.phase.Idle? || (s.phase.Looked? && Mismatched(s.phase.link, s.phase.ref)))
    && (s.row.Some? ==> s.row.value.pending.None?)
  }

  /** The steps of the lock's holder, including its death. */
  lemma HolderKeepsCoherence(s: State, e: Event)
    requires Coherent(s) && Enabled(s, e) && !e.Relink? && !e.Revoke? && !e.Tick?
    ensures Coherent(Next(s, e))
  {
    hide DeliveryId, TypeOrBearer;
  }

  /** The steps that do not take the lock. */
  lemma OutsiderKeepsCoherence(s: State, e: Event)
    requires Coherent(s) && (e.Revoke? || e.Tick? || (e.Relink? && Settled(s)))
    ensures Coherent(Next(s, e))
  {
    hide DeliveryId, TypeOrBearer;
  }

  /** What holds however relinks race with mints. */
  predicate Guarded(s: State) {
    && (s.row.Some? ==>
          var l := s.row.value;
          && l.live.refresh.chain < |s.current| && (IsCurrent(s.current, l.live.refresh) || !Fresh(l, s.clock))
          && (l.pending.Some? ==> IsCurrent(s.current, l.pending.value.tuple.refresh)))
    && GuardedPhase(s)
  }

  /** A mint under way still holds what it read, or the user has relinked to a chain of its own since. */
  predicate GuardedPhase(s: State) {
    match s.phase
    case Idle => true
    case Looked(l, _) =>
      && s.row.Some? && s.row.value.pending.None? && l.live.refresh.chain < |s.current|
      && (s.row.value.live == l.live
          || (IsCurrent(s.current, s.row.value.live.refresh) && s.row.value.live.refresh.chain != l.live.refresh.chain))
    case Fetched(l, _) =>
      && s.row.Some? && s.row.value.pending.None? && l.live.refresh.chain < |s.current|
      && ((s.row.value.live == l.live && !Fresh(s.row.value, s.clock))
          || (IsCurrent(s.current, s.row.value.live.refresh) && s.row.value.live.refresh.chain != l.live.refresh.chain))
    case Rejected(_) => s.row.Some? && s.row.value.pending.None?
    case Granted(stage, _) => s.row.Some? && s.row.value.pending.None? && IsCurrent(s.current, stage.tuple.refresh)
    case Staged(stage, _) => s.row.Some? && s.row.value.pending == Some(stage)
    case Recovering(stage) => s.row.Some? && s.row.value.pending == Some(stage)
  }

  lemma StepStaysGuarded(s: State, e: Event)
    requires Guarded(s) && Enabled(s, e)
    ensures Guarded(Next(s, e))
  {
    hide DeliveryId, TypeOrBearer;
  }

  lemma {:induction false} RunsStayGuarded(clock: int, es: seq<Event>)
    requires Exec(Init(clock), es).Some?
    ensures Guarded(Exec(Init(clock), es).value)
  {
    if es != [] {
      RunsStayGuarded(clock, es[..|es| - 1]);
      hide Guarded, Enabled, Next;
      StepStaysGuarded(Exec(Init(clock), es[..|es| - 1]).value, es[|es| - 1]);
    }
  }

  /** A run from `s` whose last relink, if there was one, met a settled link; the relinks before it may have come
      at any time. */
  ghost predicate Careful(s: State, es: seq<Event>) {
    && Exec(s, es).Some?
    && (es == [] || if es[|es| - 1].Relink? then Settled(Exec(s, es[..|es| - 1]).value) else Careful(s, es[..|es| - 1]))
  }

  /** Whatever went before, relinking a settled link makes everything coherent. */
  lemma SettledRelinkRestores(s: State, e: Event)
    requires Guarded(s) && Settled(s) && e.Relink?
    ensures Coherent(Next(s, e))
  {
  }

  lemma {:induction false} RunKeepsCoherence(clock: int, es: seq<Event>)
    requires Careful(Init(clock), es)
    ensures Coherent(Exec(Init(clock), es).value)
  {
    if es != [] {
      var m, e := Exec(Init(clock), es[..|es| - 1]).value, es[|es| - 1];
      if e.Relink? {
        RunsStayGuarded(clock, es[..|es| - 1]);
        SettledRelinkRestores(m, e);
      } else {
        RunKeepsCoherence(clock, es[..|es| - 1]);
        if e.Revoke? || e.Tick? {
          OutsiderKeepsCoherence(m, e);
        } else {
          HolderKeepsCoherence(m, e);
        }
      }
    }
  }

  // ------------------------------------------------------------------ which steps lose a chain

  /** GitHub has moved on from the live token, there is no stage, and nobody is about to make one. */
  predicate Gone(s: State) {
    Lost(s) && !s.phase.Granted?
  }

  /** The steps that lose the chain of the live token: GitHub rotates it and its answer never arrives, or refuses
      it while it was current; the successor is not staged, for the store fails or the row is revoked; or the
      process dies between GitHub's answer and the stage. */
  predicate Loses(s: State, e: Event)
    requires Enabled(s, e)
  {
    match e
    case CallGitHub(o) =>
      && s.row.Some? && s.row.value.live == s.phase.link.live
      && (o.ResponseLost? || (o.RefreshRejected? && IsCurrent(s.current, s.phase.link.live.refresh)))
    case StageStep(r) => Lost(s) && (r.Failed? || !Live(s.row))
    case Crash => Lost(s) && s.phase.Granted?
    case _ => false
  }

  lemma StepLosesIff(s: State, e: Event)
    requires Guarded(s) && Enabled(s, e)
    ensures Gone(Next(s, e)) <==> !e.Relink? && (Gone(s) || Loses(s, e))
  {
    hide DeliveryId, TypeOrBearer, Fresh;
  }

  /** Since the last relink of the run, one of its steps has lost the chain. */
  ghost predicate LostSince(s: State, es: seq<Event>)
    requires Exec(s, es).Some?
  {
    es != [] && !es[|es| - 1].Relink?
    && (LostSince(s, es[..|es| - 1]) || Loses(Exec(s, es[..|es| - 1]).value, es[|es| - 1]))
  }

  lemma {:induction false} GoneIffLostSince(clock: int, es: seq<Event>)
    requires Exec(Init(clock), es).Some?
    ensures Gone(Exec(Init(clock), es).value) <==> LostSince(Init(clock), es)
  {
    if es != [] {
      GoneIffLostSince(clock, es[..|es| - 1]);
      RunsStayGuarded(clock, es[..|es| - 1]);
      var m, e := Exec(Init(clock), es[..|es| - 1]).value, es[|es| - 1];
      hide Guarded, Gone, Loses, Enabled, Next;
      StepLosesIff(m, e);
    }
  }

  /** Crash consistency, whatever failed, wherever the process died and whenever the user relinked: a pending
      stage holds GitHub's current token; with no stage and no mint under way the live token is current, unless
      one of the losing steps has happened since the last relink, and then only; and if it is not current, its
      access token can no longer be served. If besides the last relink met a settled link, a pending stage stands
      at version live + 1, and a link is marked only when its chain is lost. */
  lemma CrashConsistent(clock: int, es: seq<Event>)
    requires Exec(Init(clock), es).Some?
    ensures
      var s := Exec(Init(clock), es).value;
      s.row.Some? ==>
        var l := s.row.value;
        && (l.pending.Some? ==> IsCurrent(s.current, l.pending.value.tuple.refresh))
        && (l.pending.None? && s.phase.Idle? ==>
              (IsCurrent(s.current, l.live.refresh) <==> !LostSince(Init(clock), es)))
        && (IsCurrent(s.current, l.live.refresh) || !Fresh(l, s.clock))
        && (Careful(Init(clock), es) ==>
              && (l.pending.Some? ==> l.pending.value.version == l.version + 1)
              && (l.relinkRequired ==> l.pending.None? && !IsCurrent(s.current, l.live.refresh)))
  {
    RunsStayGuarded(clock, es);
    GoneIffLostSince(clock, es);
    if Careful(Init(clock), es) {
      RunKeepsCoherence(clock, es);
    }
  }

  // ------------------------------------------------------------------ when a relink is safe

  /** The row has the tuple of chain `c` or a later one of that chain, and is marked only when it is lost. */
  predicate Keeps(s: State, c: nat) {
    && s.row.Some? && s.row.value.live.refresh.chain == c
    && (s.row.value.relinkRequired ==> !IsCurrent(s.current, s.row.value.live.refresh))
  }

  predicate NoRelink(es: seq<Event>) {
    forall e :: e in es ==> !e.Relink?
  }

  ghost predicate Spoils(s: State, es: seq<Event>, c: nat) {
    NoRelink(es) && Exec(s, es).Some? && !Keeps(Exec(s, es).value, c)
  }

  ghost predicate Spoilable(s: State, c: nat) {
    exists es :: Spoils(s, es, c)
  }

  lemma {:induction false} CoherentRunKeeps(s: State, es: seq<Event>, c: nat)
    requires Coherent(s) && Keeps(s, c) && NoRelink(es) && Exec(s, es).Some?
    ensures Coherent(Exec(s, es).value) && Keeps(Exec(s, es).value, c)
  {
    if es != [] {
      CoherentRunKeeps(s, es[..|es| - 1], c);
      var m, e := Exec(s, es[..|es| - 1]).value, es[|es| - 1];
      assert e in es;
      StepKeepsChain(m, e, c);
      hide Coherent, Keeps, Enabled, Next;
      if e.Revoke? || e.Tick? {
        OutsiderKeepsCoherence(m, e);
      } else {
        HolderKeepsCoherence(m, e);
      }
    }
  }

  lemma StepKeepsChain(s: State, e: Event, c: nat)
    requires Coherent(s) && Keeps(s, c) && Enabled(s, e) && !e.Relink?
    ensures Next(s, e).row.Some? && Next(s, e).row.value.live.refresh.chain == c
    ensures Coherent(Next(s, e)) ==> Keeps(Next(s, e), c)
  {
    hide DeliveryId, TypeOrBearer, Fresh;
  }

  lemma {:induction false} ExecAfter(s: State, e: Event, es: seq<Event>)
    requires Enabled(s, e)
    ensures Exec(s, [e] + es) == Exec(Next(s, e), es)
  {
    hide Next, Enabled;
    if es == [] {
      assert [e] + es == [e] && [e][..0] == [];
    } else {
      ExecAfter(s, e, es[..|es| - 1]);
      assert ([e] + es)[..|es|] == [e] + es[..|es| - 1];
    }
  }

  lemma SpoiledAfter(s: State, e: Event, c: nat)
    requires Enabled(s, e) && !e.Relink? && Spoilable(Next(s, e), c)
    ensures Spoilable(s, c)
  {
    hide Next, Enabled, Exec;
    var es :| Spoils(Next(s, e), es, c);
    ExecAfter(s, e, es);
    assert Spoils(s, [e] + es, c);
  }

  lemma SpoiledAlready(s: State, c: nat)
    requires !Keeps(s, c)
    ensures Spoilable(s, c)
  {
    assert Spoils(s, [], c);
  }

  /** A commit ahead promotes another chain's tuple. */
  lemma CommitSpoils(s: State, c: nat)
    requires (s.phase.Staged? || s.phase.Recovering?) && Live(s.row) && s.phase.stage.tuple.refresh.chain != c
    ensures Spoilable(s, c)
  {
    hide Spoilable, DeliveryId;
    SpoiledAlready(Next(s, CommitStep(Done)), c);
    SpoiledAfter(s, CommitStep(Done), c);
  }

  /** A refusal ahead marks the row although its token is good. */
  lemma MarkSpoils(s: State, c: nat)
    requires s.phase.Rejected? && Live(s.row) && IsCurrent(s.current, s.row.value.live.refresh)
    ensures Spoilable(s, c)
  {
    hide Spoilable;
    SpoiledAlready(Next(s, MarkStep(Done)), c);
    SpoiledAfter(s, MarkStep(Done), c);
  }

  lemma CallSpoils(s: State, c: nat)
    requires s.phase.Fetched? && Live(s.row) && IsCurrent(s.current, s.row.value.live.refresh)
    requires s.phase.link.live.refresh.chain != s.row.value.live.refresh.chain
    ensures Spoilable(s, c)
  {
    hide Spoilable;
    MarkSpoils(Next(s, CallGitHub(RefreshRejected)), c);
    SpoiledAfter(s, CallGitHub(RefreshRejected), c);
  }

  /** Given time, a mint that has only looked, at the delivery its node knows, goes to GitHub. */
  lemma LookedSpoils(s: State, c: nat)
    requires s.phase.Looked? && !Mismatched(s.phase.link, s.phase.ref)
    requires Live(s.row) && IsCurrent(s.current, s.row.value.live.refresh)
    requires s.phase.link.live.refresh.chain != s.row.value.live.refresh.chain
    ensures Spoilable(s, c)
  {
    hide Spoilable;
    var due := s.phase.link.live.accessExpiresAt;
    var wait: nat := if due <= s.clock then 0 else due - s.clock;
    var m := Next(s, Tick(wait));
    assert !Fresh(m.phase.link, m.clock);
    CallSpoils(Next(m, Judge), c);
    SpoiledAfter(m, Judge, c);
    SpoiledAfter(s, Tick(wait), c);
  }

  /** Relinking clears neither a pending stage nor a mint in flight. From any state of any run, the new chain
      stays the link's in every continuation without another relink, and is marked only when it is lost itself,
      exactly if the relink met no stage, and no mint but one whose node knows another delivery. */
  lemma RelinkSafeIff(s: State, e: Event)
    requires Guarded(s) && e.Relink?
    ensures Settled(s) <==>
            forall es :: NoRelink(es) && Exec(Next(s, e), es).Some? ==> Keeps(Exec(Next(s, e), es).value, |s.current|)
  {
    var r, c := Next(s, e), |s.current|;
    if Settled(s) {
      SettledRelinkRestores(s, e);
      forall es | NoRelink(es) && Exec(r, es).Some?
        ensures Keeps(Exec(r, es).value, c)
      {
        CoherentRunKeeps(r, es, c);
      }
    } else {
      UnsettledSpoils(s, e);
      var es :| Spoils(r, es, c);
    }
  }

  lemma UnsettledSpoils(s: State, e: Event)
    requires Guarded(s) && e.Relink? && !Settled(s)
    ensures Spoilable(Next(s, e), |s.current|)
  {
    hide Spoilable, DeliveryId, Fresh;
    var r, c := Next(s, e), |s.current|;
    match s.phase
    case Idle =>
      var m := Next(r, Begin(Initial));
      CommitSpoils(m, c);
      SpoiledAfter(r, Begin(Initial), c);
    case Looked(_, _) => LookedSpoils(r, c);
    case Fetched(_, _) => CallSpoils(r, c);
    case Rejected(_) => MarkSpoils(r, c);
    case Granted(_, _) =>
      CommitSpoils(Next(r, StageStep(Done)), c);
      SpoiledAfter(r, StageStep(Done), c);
    case Staged(_, _) => CommitSpoils(r, c);
    case Recovering(_) => CommitSpoils(r, c);
  }

  /** The relinked row after the mint under way has finished: it is the old chain's at the relink's version. */
  predicate Overwritten(s: State, e: Event, t: State) {
    && t.phase.Idle? && Live(t.row) && s.row.Some? && t.row.value.version == s.row.value.version + 1
    && t.row.value.live.refresh.chain < |s.current| && t.row.value.pending.None?
  }

  /** What becomes of a relink that a mint under way overtakes. One that has its new token, or still gets it,
      overwrites the relink; one that GitHub has refused, or still will, marks the new link although its
      token is good. */
  lemma MintOvertakesRelink(s: State, e: Event, o: Outcome)
    requires Coherent(s) && e.Relink?
    ensures
      var r := Next(s, e);
      && (s.phase.Staged? || s.phase.Recovering? ==> Overwritten(s, e, Next(r, CommitStep(Done))))
      && (s.phase.Granted? ==>
            Enabled(Next(r, StageStep(Done)), CommitStep(Done))
                && Overwritten(s, e, Next(Next(r, StageStep(Done)), CommitStep(Done))))
      && (s.phase.Fetched? && o.Delivered? && Enabled(r, CallGitHub(o)) ==>
            var g := Next(r, CallGitHub(o));
            && Enabled(g, StageStep(Done)) && Enabled(Next(g, StageStep(Done)), CommitStep(Done))
            && Overwritten(s, e, Next(Next(g, StageStep(Done)), CommitStep(Done))))
      && (s.phase.Looked? && o.Delivered? && Next(r, Judge).phase.Fetched? && Enabled(Next(r, Judge), CallGitHub(o)) ==>
            var g := Next(Next(r, Judge), CallGitHub(o));
            && Enabled(g, StageStep(Done)) && Enabled(Next(g, StageStep(Done)), CommitStep(Done))
            && Overwritten(s, e, Next(Next(g, StageStep(Done)), CommitStep(Done))))
      && (s.phase.Fetched? && o.RefreshRejected? ==>
            var g := Next(r, CallGitHub(o));
            Enabled(g, MarkStep(Done)) && MarkedThoughGood(Next(g, MarkStep(Done)), e))
      && (s.phase.Looked? && o.RefreshRejected? && Next(r, Judge).phase.Fetched? ==>
            var g := Next(Next(r, Judge), CallGitHub(o));
            Enabled(g, MarkStep(Done)) && MarkedThoughGood(Next(g, MarkStep(Done)), e))
      && (s.phase.Rejected? ==> MarkedThoughGood(Next(r, MarkStep(Done)), e))
  {
    hide DeliveryId, TypeOrBearer, Fresh;
  }

  predicate MarkedThoughGood(t: State, e: Event)
    requires e.Relink?
  {
    Live(t.row) && t.row.value.relinkRequired && IsCurrent(t.current, t.row.value.live.refresh)
        && t.row.value.live.access == e.access
  }

  /** A mint that dies after the relink, or does not reach GitHub, leaves it unharmed exactly if it had not
      staged yet. */
  lemma DeadMintSparesRelinkIff(s: State, e: Event)
    requires Coherent(s) && e.Relink?
    ensures Coherent(Next(Next(s, e), Crash)) <==> (s.row.Some? ==> s.row.value.pending.None?)
    ensures s.phase.Fetched? ==> Coherent(Next(Next(s, e), CallGitHub(Unreachable)))
  {
  }

  /** Where it is not safe the relink is lost: over any stage left behind, the next mint promotes the old
      chain's token at the very version the relink had, and no row holds the new chain any more. */
  lemma RelinkOverStageIsUndone(s: State, e: Event)
    requires Coherent(s) && s.phase.Idle? && Live(s.row) && s.row.value.pending.Some? && e.Relink?
    ensures
      var r := Next(s, e);
      var m := Next(r, Begin(Initial));
      && r.row.value.live.access == e.access && r.row.value.version == s.row.value.version + 1
      && Enabled(m, CommitStep(Done))
      && Next(m, CommitStep(Done)).row.value.live == s.row.value.pending.value.tuple
      && Next(m, CommitStep(Done)).row.value.live.refresh.chain < |s.current|
      && Next(m, CommitStep(Done)).row.value.version == r.row.value.version
  {
  }

  lemma RunOne(s: State, es: seq<Event>, m: State, e: Event)
    requires Exec(s, es) == Some(m) && Enabled(m, e)
    ensures Exec(s, es + [e]) == Some(Next(m, e))
  {
    assert (es + [e])[..|es + [e]| - 1] == es;
  }

  /** Such stages do occur: one careful run whose commit fails leaves one behind. */
  lemma StageCanOutliveItsMint()
    ensures exists es :: Careful(Init(0), es) && Exec(Init(0), es).value.phase.Idle?
                         && Live(Exec(Init(0), es).value.row) && Exec(Init(0), es).value.row.value.pending.Some?
  {
    hide DeliveryId;
    var e0, e1, e2 := Relink("gh:1", "a", 500, 9000), Begin(Initial), Judge;
    var e3, e4 := CallGitHub(Delivered("b", 1400, 9000, "bearer")), StageStep(DoneButFailed);
    var s0 := Init(0);
    RunOne(s0, [], s0, e0);
    var s1 := Next(s0, e0);
    RunOne(s0, [e0], s1, e1);
    var s2 := Next(s1, e1);
    assert [e0] + [e1] == [e0, e1];
    RunOne(s0, [e0, e1], s2, e2);
    var s3 := Next(s2, e2);
    assert [e0, e1] + [e2] == [e0, e1, e2];
    RunOne(s0, [e0, e1, e2], s3, e3);
    var s4 := Next(s3, e3);
    assert [e0, e1, e2] + [e3] == [e0, e1, e2, e3];
    RunOne(s0, [e0, e1, e2, e3], s4, e4);
    assert [e0, e1, e2, e3] + [e4] == [e0, e1, e2, e3, e4];
    var es := [e0, e1, e2, e3, e4];
    assert es[..4] == [e0, e1, e2, e3] && [e0, e1, e2, e3][..3] == [e0, e1, e2];
    assert [e0, e1, e2][..2] == [e0, e1] && [e0, e1][..1] == [e0] && [e0][..0] == [];
    assert Careful(s0, [e0]);
    assert Careful(s0, [e0, e1]);
    assert Careful(s0, [e0, e1, e2]);
    assert Careful(s0, [e0, e1, e2, e3]);
    assert Careful(s0, es);
  }

  // ------------------------------------------------------------------ loss

  /** The chain is lost and nobody is about to stage its successor. */
  predicate Dead(s: State) {
    Guarded(s) && Lost(s) && !s.phase.Granted?
  }

  lemma DeadStepStays(s: State, e: Event)
    requires Dead(s) && Enabled(s, e) && !e.Relink?
    ensures Dead(Next(s, e)) && Next(s, e).answers == s.answers
  {
    hide DeliveryId, TypeOrBearer;
  }

  lemma {:induction false} DeadStays(s: State, es: seq<Event>)
    requires Dead(s) && Exec(s, es).Some? && (forall e :: e in es ==> !e.Relink?)
    ensures Dead(Exec(s, es).value) && Exec(s, es).value.answers == s.answers
  {
    if es != [] {
      DeadStays(s, es[..|es| - 1]);
      hide Dead, Enabled, Next;
      DeadStepStays(Exec(s, es[..|es| - 1]).value, es[|es| - 1]);
    }
  }

  /** Once a chain is lost, whatever relinks went before, no mint hands out a token until the user relinks
      again: not the lost one, not a cached one, not one recovered from a stage. */
  lemma LossIsFinal(clock: int, before: seq<Event>, after: seq<Event>)
    requires Exec(Init(clock), before).Some? && Exec(Exec(Init(clock), before).value, after).Some?
    requires Lost(Exec(Init(clock), before).value) && !Exec(Init(clock), before).value.phase.Granted?
    requires forall e :: e in after ==> !e.Relink?
    ensures Exec(Exec(Init(clock), before).value, after).value.answers == Exec(Init(clock), before).value.answers
  {
    RunsStayGuarded(clock, before);
    DeadStays(Exec(Init(clock), before).value, after);
  }

  /** A link marked relink_required is shut: until a relink no mint even reaches GitHub. */
  lemma {:induction false} MarkedLinkIsShut(s: State, es: seq<Event>)
    requires s.row.Some? && s.row.value.relinkRequired && s.phase.Idle?
    requires Exec(s, es).Some? && (forall e :: e in es ==> !e.Relink?)
    ensures
      var t := Exec(s, es).value;
      t.row.Some? && t.row.value.relinkRequired && t.phase.Idle? && t.answers == s.answers && t.current == s.current
  {
    if es != [] {
      MarkedLinkIsShut(s, es[..|es| - 1]);
    }
  }

  /** A mint whose chain was lost before it began either marks the link, or leaves it as it found it, to
      be marked by a later one; GitHub's refusal is the only answer it can get. */
  lemma LostChainConverges(s: State, ref: Ref, o: Outcome, r: StoreResult)
    requires Coherent(s) && Lost(s) && Live(s.row) && !s.row.value.relinkRequired && s.phase.Idle?
    requires ref.Initial? || (ref.version == s.row.value.version && ref.deliveryId == s.row.value.deliveryId)
    ensures
      var m := Next(Next(s, Begin(ref)), Judge);
      && m.phase.Fetched?
      && (Enabled(m, CallGitHub(o)) ==>
            && (o.RefreshRejected? || o.Unreachable?)
            && (o.RefreshRejected? ==>
                  var t := Next(m, CallGitHub(o));
                  Enabled(t, MarkStep(r)) && t.row == s.row
                  && (!r.Failed? ==> Next(t, MarkStep(r)).row == Some(s.row.value.(relinkRequired := true)))))
  {
  }

  // ------------------------------------------------------------------ what is handed out

  /** In any run, even with relinks at the worst moment, GitHub is never called while a stage is pending. */
  lemma NeverRefreshesOverAStage(clock: int, es: seq<Event>, o: Outcome)
    requires Exec(Init(clock), es).Some? && Enabled(Exec(Init(clock), es).value, CallGitHub(o))
    ensures Exec(Init(clock), es).value.row.Some? && Exec(Init(clock), es).value.row.value.pending.None?
  {
    RunsStayGuarded(clock, es);
  }

  /** Answers without a refresh have life left. */
  predicate CachedLive(answers: seq<Answer>) {
    forall i :: 0 <= i < |answers| && !answers[i].refreshed ==>
      answers[i].access != "" && answers[i].expiresAt > answers[i].at + RefreshLead
  }

  lemma {:induction false} RunsAnswerLive(clock: int, es: seq<Event>)
    requires Exec(Init(clock), es).Some?
    ensures CachedLive(Exec(Init(clock), es).value.answers)
  {
    if es != [] {
      RunsAnswerLive(clock, es[..|es| - 1]);
    }
  }

  /** In any run, a token handed out without a refresh has more than ten minutes left. */
  lemma CachedAnswersLive(clock: int, es: seq<Event>, i: nat)
    requires Exec(Init(clock), es).Some? && i < |Exec(Init(clock), es).value.answers|
    requires !Exec(Init(clock), es).value.answers[i].refreshed
    ensures Exec(Init(clock), es).value.answers[i].expiresAt > Exec(Init(clock), es).value.answers[i].at + 600
  {
    RunsAnswerLive(clock, es);
  }

  /** That promise does not extend to a recovered stage: it is handed out however old it has become, so
      its token has life left exactly when the recovery comes before its expiry. */
  lemma RecoveredTokenExpiredIff(s: State, n: nat)
    requires Coherent(s) && s.phase.Idle? && Live(s.row) && s.row.value.pending.Some?
    ensures
      var stage := s.row.value.pending.value;
      var m := Next(Next(s, Tick(n)), Begin(Initial));
      && Enabled(m, CommitStep(Done))
      && var t := Next(m, CommitStep(Done));
      && |t.answers| == |s.answers| + 1
      && t.answers[|s.answers|] ==
            Answer(stage.tuple.access, stage.tuple.accessExpiresAt, true, s.clock + n, stage.version)
      && (t.answers[|s.answers|].expiresAt > t.answers[|s.answers|].at <==> s.clock + n < stage.tuple.accessExpiresAt)
  {
  }

  // ------------------------------------------------------------------ versions name tokens

  /** Each commit moves the link exactly one version on, to the tuple that was staged. */
  lemma CommitAdvancesByOne(s: State, r: StoreResult)
    requires Coherent(s) && (s.phase.Staged? || s.phase.Recovering?) && Live(s.row) && !r.Failed?
    ensures
      var t := Next(s, CommitStep(r));
      && t.row.value.version == s.row.value.version + 1 && t.row.value.live == s.phase.stage.tuple
      && t.row.value.pending.None? && IsCurrent(t.current, t.row.value.live.refresh)
      && t.row.value.deliveryId == DeliveryId(s.row.value.secretId, s.row.value.version + 1)
  {
  }

  /** Answers so far carry versions up to the row's, below any stage's, and never go back; each version stands
      for one token, the row's for the live one. */
  predicate Numbered(s: State) {
    && (s.answers != [] ==> s.row.Some?)
    && (s.row.Some? ==> UpTo(s.answers, s.row.value.version) && NamesLive(s.answers, s.row.value))
    && (s.row.Some? && s.row.value.pending.Some? ==> Below(s.answers, s.row.value.pending.value.version))
    && (s.phase.Looked? ==>
          && s.row.Some? && Before(s.phase.link, s.row.value)
          && UpTo(s.answers, s.phase.link.version) && NamesLive(s.answers, s.phase.link))
    && (s.phase.Fetched? ==> UpTo(s.answers, s.phase.link.version))
    && (s.phase.Granted? ==> Below(s.answers, s.phase.stage.version))
    && OneToken(s.answers)
  }

  /** The row has moved on since the link was read, or has the same live token. */
  predicate Before(l: Link, row: Link) {
    l.version < row.version || (l.version == row.version && l.live == row.live)
  }

  predicate UpTo(answers: seq<Answer>, version: nat) {
    forall i :: 0 <= i < |answers| ==> answers[i].version <= version
  }

  predicate Below(answers: seq<Answer>, version: nat) {
    forall i :: 0 <= i < |answers| ==> answers[i].version < version
  }

  predicate NamesLive(answers: seq<Answer>, l: Link) {
    forall i :: 0 <= i < |answers| && answers[i].version == l.version ==>
      answers[i].access == l.live.access && answers[i].expiresAt == l.live.accessExpiresAt
  }

  predicate OneToken(answers: seq<Answer>) {
    && (forall i, j :: 0 <= i < j < |answers| ==> answers[i].version <= answers[j].version)
    && (forall i, j :: 0 <= i < j < |answers| && answers[i].version == answers[j].version ==>
          answers[i].access == answers[j].access && answers[i].expiresAt == answers[j].expiresAt)
  }

  /** One more answer, with the row's version and live token. */
  lemma AnswerKeepsOneToken(answers: seq<Answer>, l: Link, a: Answer)
    requires OneToken(answers) && UpTo(answers, l.version) && NamesLive(answers, l)
    requires a.version == l.version && a.access == l.live.access && a.expiresAt == l.live.accessExpiresAt
    ensures OneToken(answers + [a]) && UpTo(answers + [a], l.version) && NamesLive(answers + [a], l)
  {
  }

  /** A token served stands for the version it was read with, whatever the row has become since. */
  lemma JudgeKeepsNumbers(s: State)
    requires Numbered(s) && Guarded(s) && Enabled(s, Judge)
    ensures Numbered(Next(s, Judge))
  {
    hide OneToken, Fresh;
    var l := s.phase.link;
    AnswerKeepsOneToken(s.answers, l, Answer(l.live.access, l.live.accessExpiresAt, false, s.clock, l.version));
  }

  lemma CommitKeepsNumbers(s: State, r: StoreResult)
    requires Numbered(s) && Guarded(s) && Enabled(s, CommitStep(r))
    ensures Numbered(Next(s, CommitStep(r)))
  {
    hide OneToken, Fresh;
    var st := s.phase.stage;
    if Live(s.row) && !r.Failed? {
      var l := RotateRow(s.row, st).value;
      assert UpTo(s.answers, l.version) && NamesLive(s.answers, l);
      AnswerKeepsOneToken(s.answers, l, Answer(st.tuple.access, st.tuple.accessExpiresAt, true, s.clock, l.version));
    }
  }

  lemma StepKeepsNumbers(s: State, e: Event)
    requires Numbered(s) && Guarded(s) && Enabled(s, e)
    ensures Numbered(Next(s, e))
  {
    hide OneToken;
    match e
    case Begin(_) =>
    case Judge => JudgeKeepsNumbers(s);
    case CommitStep(r) => CommitKeepsNumbers(s, r);
    case CallGitHub(_) =>
    case MarkStep(_) =>
    case StageStep(_) =>
    case Crash =>
    case Tick(_) =>
    case Relink(_, _, _, _) =>
    case Revoke =>
  }

  lemma {:induction false} RunKeepsNumbers(clock: int, es: seq<Event>)
    requires Exec(Init(clock), es).Some?
    ensures Numbered(Exec(Init(clock), es).value)
  {
    if es != [] {
      RunKeepsNumbers(clock, es[..|es| - 1]);
      RunsStayGuarded(clock, es[..|es| - 1]);
      hide Numbered, Guarded, Enabled, Next;
      StepKeepsNumbers(Exec(Init(clock), es[..|es| - 1]).value, es[|es| - 1]);
    }
  }

  /** A delivery's version names its token: over a whole run, through crashes, recoveries and relinks at any
      time, two mints that answer with one version answer with one token, and versions never go back. */
  lemma VersionNamesToken(clock: int, es: seq<Event>, i: nat, j: nat)
    requires Exec(Init(clock), es).Some?
    requires i < j < |Exec(Init(clock), es).value.answers|
    ensures
      var a, b := Exec(Init(clock), es).value.answers[i], Exec(Init(clock), es).value.answers[j];
      a.version <= b.version && (a.version == b.version ==> a.access == b.access && a.expiresAt == b.expiresAt)
  {
    RunKeepsNumbers(clock, es);
  }
}
