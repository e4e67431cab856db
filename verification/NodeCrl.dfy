/** Issuing and publishing the node certificate revocation list. An operation commits rows and list in one
    transaction under the mutation lock, then, under the publish lock, re-reads the committed list and
    writes it to the sink. Any of it may fail, or take effect and still report failure. */
module NodeCrl {
  import opened Codec

  const Validity: int := 86400

  /** The issuing intermediate: its serial and when it expires. */
  datatype Authority = Authority(issuer: nat, notAfter: int)

  datatype Cert = Cert(issuer: nat, leaf: nat)
  datatype Revocation = Revocation(node: nat, revokedAt: int)

  /** A signed list: the leaves it names with their revocation times. */
  datatype Crl = Crl(number: nat, entries: map<nat, int>, thisUpdate: int, nextUpdate: int)

  /** Rows by certificate, rows of an older schema that name only a node, and the committed list. */
  datatype Db = Db(rows: map<Cert, Revocation>, legacy: map<nat, int>, crl: Option<Crl>)

  datatype Op =
    | Revoke(node: nat, leaf: nat)
    | Reconcile(certificates: map<nat, nat>)   // a verified leaf for each legacy node
    | Ensure(renewBefore: nat)

  function ListByIssuer(rows: map<Cert, Revocation>, issuer: nat): map<nat, int> {
    map c | c in rows && c.issuer == issuer :: c.leaf := rows[c].revokedAt
  }

  function NextUpdate(ca: Authority, now: int): int {
    if now + Validity > ca.notAfter then ca.notAfter else now + Validity
  }

  /** issueNodeCRL */
  function Issue(ca: Authority, db: Db, now: int): Db {
    var number := if db.crl.Some? then db.crl.value.number + 1 else 1;
    db.(crl := Some(Crl(number, ListByIssuer(db.rows, ca.issuer), now, NextUpdate(ca, now))))
  }

  /** The rows that take the place of the legacy ones. */
  function Bound(ca: Authority, certificates: map<nat, nat>, legacy: map<nat, int>): map<Cert, Revocation>
    requires certificates.Keys == legacy.Keys
    requires forall m, n :: m in certificates && n in certificates && m != n ==> certificates[m] != certificates[n]
  {
    map n | n in certificates :: Cert(ca.issuer, certificates[n]) := Revocation(n, legacy[n])
  }

  /** ReconcileLegacy for every legacy row, or None if a certificate already has a row. */
  function BindLegacy(ca: Authority, db: Db, certificates: map<nat, nat>): Option<Db> {
    if certificates.Keys != db.legacy.Keys
       || (exists n :: n in certificates && Cert(ca.issuer, certificates[n]) in db.rows)
       || (exists m, n :: m in certificates && n in certificates && m != n && certificates[m] == certificates[n])
    then None
    else
      Some(db.(rows := db.rows + Bound(ca, certificates, db.legacy), legacy := map[]))
  }

  /** An operation's transaction: the new database and the number it stands for, or an error. */
  function Transact(ca: Authority, db: Db, op: Op, now: int): Option<Db> {
    match op
    case Revoke(node, leaf) =>
      var c := Cert(ca.issuer, leaf);
      if c !in db.rows then Some(Issue(ca, db.(rows := db.rows[c := Revocation(node, now)]), now))
      else if db.rows[c].node != node || db.crl.None? then None
      else Some(db)
    case Reconcile(certificates) =>
      var bound := BindLegacy(ca, db, certificates);
      if bound.None? then None else Some(Issue(ca, bound.value, now))
    case Ensure(renewBefore) =>
      if db.crl.None? || db.crl.value.nextUpdate <= now + renewBefore then Some(Issue(ca, db, now)) else Some(db)
  }

  // ------------------------------------------------------------------ threads

  /** Where a call stands; `now` was read before it first waited for a lock. */
  datatype Phase = Waiting | Committed(number: nat) | Publishing(crl: Crl) | Returned(ok: bool)
  datatype Thread = Thread(op: Op, now: int, phase: Phase)

  /** `commits` and `published` are the histories of the database's list and of the sink; `acked` holds
      the leaves whose revocation some call reported as done. */
  datatype State = State(
    ca: Authority, db: Db, sink: Option<Crl>, clock: int, threads: map<nat, Thread>, publisher: Option<nat>,
    commits: seq<Crl>, published: seq<Crl>, acked: set<nat>)

  datatype Fault = Fine | Failed | DoneButFailed

  datatype Event =
    | Start(id: nat, op: Op)
    | Commit(id: nat, fault: Fault)
    | Read(id: nat, fails: bool)
    | Write(id: nat, fault: Fault)
    | Crash
    | Tick(seconds: nat)

  predicate Enabled(s: State, e: Event) {
    match e
    case Start(id, op) => id !in s.threads && (op.Ensure? ==> op.renewBefore < Validity)
    case Commit(id, _) => id in s.threads && s.threads[id].phase.Waiting?
    case Read(id, _) => id in s.threads && s.threads[id].phase.Committed? && s.publisher.None?
    case Write(id, _) => id in s.threads && s.threads[id].phase.Publishing?
    case _ => true
  }

  function At(s: State, id: nat, phase: Phase): State
    requires id in s.threads
  {
    s.(threads := s.threads[id := s.threads[id].(phase := phase)])
  }

  function Leaves(op: Op): set<nat> {
    match op
    case Revoke(_, leaf) => {leaf}
    case Reconcile(certificates) => certificates.Values
    case Ensure(_) => {}
  }

  function StartStep(s: State, id: nat, op: Op): State {
    var phase :=
      if op.Reconcile? && op.certificates.Keys != s.db.legacy.Keys then Returned(false)
      else if op.Reconcile? && op.certificates == map[] then Committed(0)
      else Waiting;
    s.(threads := s.threads[id := Thread(op, s.clock, phase)])
  }

  function CommitStep(s: State, id: nat, fault: Fault): State
    requires id in s.threads
  {
    var t := s.threads[id];
    var db := Transact(s.ca, s.db, t.op, t.now);
    if db.None? || fault.Failed? then At(s, id, Returned(false))
    else
      var m := s.(db := db.value,
                  commits := if db.value.crl != s.db.crl && db.value.crl.Some? then s.commits + [db.value.crl.value]
                      else s.commits);
      At(m, id, if fault.Fine? then Committed(|m.commits|) else Returned(false))
  }

  function ReadStep(s: State, id: nat, fails: bool): State
    requires id in s.threads
  {
    if fails then At(s, id, Returned(false))
    else if s.db.crl.None? then At(s, id, Returned(true)).(acked := s.acked + Leaves(s.threads[id].op))
    else At(s, id, Publishing(s.db.crl.value)).(publisher := Some(id))
  }

  function WriteStep(s: State, id: nat, fault: Fault): State
    requires id in s.threads && s.threads[id].phase.Publishing?
  {
    var crl := s.threads[id].phase.crl;
    var m := if fault.Failed? then s else s.(sink := Some(crl), published := s.published + [crl]);
    At(m, id, Returned(fault.Fine?)).(
      publisher := None, acked := if fault.Fine? then m.acked + Leaves(s.threads[id].op) else m.acked)
  }

  function Next(s: State, e: Event): State
    requires Enabled(s, e)
  {
    match e
    case Start(id, op) => StartStep(s, id, op)
    case Commit(id, fault) => CommitStep(s, id, fault)
    case Read(id, fails) => ReadStep(s, id, fails)
    case Write(id, fault) => WriteStep(s, id, fault)
    case Crash => s.(threads := map[], publisher := None)
    case Tick(n) => s.(clock := s.clock + n)
  }

  function Exec(s: State, es: seq<Event>): Option<State> {
    if es == [] then Some(s)
    else
      match Exec(s, es[..|es| - 1])
      case None => None
      case Some(m) => if Enabled(m, es[|es| - 1]) then Some(Next(m, es[|es| - 1])) else None
  }

  /** A service that has never issued a list; rows may be left over from earlier schemas and issuers. */
  predicate Initial(s: State) {
    s.db.crl.None? && s.sink.None? && s.threads == map[] && s.publisher.None? && s.commits == [] && s.published == []
    && s.acked == {}
  }

  ghost predicate Reachable(s: State) {
    exists s0, es :: Initial(s0) && Exec(s0, es) == Some(s)
  }

  /** A call's steps. A reconciliation that does not name exactly the legacy nodes fails at once, and with none of them
      has nothing to commit; a transaction that fails or is refused ends the call with nothing changed, and one that
      commits may still be reported as failed; the committed list is read and written to the sink whole or not at all;
      the call succeeds when the write is reported as done, or when there is no list. */
  lemma CallMeans(s: State, e: Event)
    requires Enabled(s, e) && (e.Start? || e.Commit? || e.Read? || e.Write?)
    ensures
      var t := Next(s, e);
      && e.id in t.threads && t.threads == s.threads[e.id := t.threads[e.id]] && t.clock == s.clock && t.ca == s.ca
      && var to := t.threads[e.id];
      && var from := if e.Start? then Thread(e.op, s.clock, Waiting) else s.threads[e.id];
      && to == from.(phase := to.phase)
      && match e
         case Start(_, op) =>
           && t == s.(threads := t.threads)
           && (to.phase == Returned(false) <==> op.Reconcile? && op.certificates.Keys != s.db.legacy.Keys)
           && (to.phase == Committed(0) <==> op.Reconcile? && op.certificates == map[] && s.db.legacy == map[])
           && (to.phase.Returned? || to.phase.Waiting? || to.phase == Committed(0))
         case Commit(_, fault) =>
           var db := Transact(s.ca, s.db, from.op, from.now);
           if db.None? || fault.Failed? then t == s.(threads := t.threads) && to.phase == Returned(false)
           else
             && t == s.(threads := t.threads, db := db.value, commits := t.commits)
             && t.commits == (if db.value.crl == s.db.crl || db.value.crl.None? then s.commits
                              else s.commits + [db.value.crl.value])
             && (if fault.Fine? then to.phase.Committed? else to.phase == Returned(false))
         case Read(_, fails) =>
           && t == s.(threads := t.threads, publisher := t.publisher, acked := t.acked)
           && to.phase == (if fails then Returned(false) else if s.db.crl.None? then Returned(true)
                           else Publishing(s.db.crl.value))
           && t.publisher == (if to.phase.Publishing? then Some(e.id) else s.publisher)
           && t.acked == if to.phase == Returned(true) then s.acked + Leaves(from.op) else s.acked
         case Write(_, fault) =>
           && to.phase == Returned(fault.Fine?) && t.publisher == None && t.db == s.db && t.commits == s.commits
           && t.sink == (if fault.Failed? then s.sink else Some(from.phase.crl))
           && t.published == (if fault.Failed? then s.published else s.published + [from.phase.crl])
           && t.acked == if fault.Fine? then s.acked + Leaves(from.op) else s.acked
  {
    hide Transact, Leaves;
    assert e.Start? && e.op.Reconcile? ==> (e.op.certificates == map[] <==> e.op.certificates.Keys == {});
    assert s.db.legacy == map[] <==> s.db.legacy.Keys == {};
  }

  // ------------------------------------------------------------------ invariant

  predicate SubMap(a: map<nat, int>, b: map<nat, int>) {
    forall k :: k in a ==> k in b && b[k] == a[k]
  }

  /** The database's list is the last one committed, and names exactly the issuer's rows. */
  predicate DbOk(ca: Authority, db: Db, commits: seq<Crl>) {
    && (db.crl.None? <==> commits == [])
    && (commits != [] ==> db.crl == Some(commits[|commits| - 1]))
    && (db.crl.Some? ==> db.crl.value.entries == ListByIssuer(db.rows, ca.issuer))
  }

  predicate CommitsOk(ca: Authority, commits: seq<Crl>) {
    && (forall i :: 0 <= i < |commits| ==> commits[i].number == i + 1)
    && (forall i :: 0 <= i < |commits| ==> commits[i].nextUpdate == NextUpdate(ca, commits[i].thisUpdate))
    && (forall i, j :: 0 <= i < j < |commits| ==> SubMap(commits[i].entries, commits[j].entries))
  }

  predicate IsCommit(commits: seq<Crl>, crl: Crl) {
    1 <= crl.number <= |commits| && commits[crl.number - 1] == crl
  }

  predicate Lists(crl: Crl, leaves: set<nat>) {
    leaves <= crl.entries.Keys
  }

  /** A thread has read the clock; from its commit on, its leaves are in the list it stands for. */
  predicate ThreadOk(s: State, id: nat)
    requires id in s.threads
  {
    var t := s.threads[id];
    && t.now <= s.clock && (t.op.Ensure? ==> t.op.renewBefore < Validity)
    && match t.phase
    case Waiting => t.op.Reconcile? ==> t.op.certificates != map[]
    case Committed(n) => n <= |s.commits| && (n == 0 ==> Leaves(t.op) == {})
         && (n > 0 ==> Lists(s.commits[n - 1], Leaves(t.op)))
    case Publishing(crl) =>
      && s.publisher == Some(id) && IsCommit(s.commits, crl) && Lists(crl, Leaves(t.op))
      && (s.sink.Some? ==> s.sink.value.number <= crl.number)
    case _ => true
  }

  predicate SinkOk(s: State) {
    && (s.sink.Some? ==> IsCommit(s.commits, s.sink.value))
    && (s.sink.None? <==> s.published == [])
    && (s.published != [] ==> s.sink == Some(s.published[|s.published| - 1]))
    && (forall i, j :: 0 <= i < j < |s.published| ==> s.published[i].number <= s.published[j].number)
    && (s.acked != {} ==> s.sink.Some? && Lists(s.sink.value, s.acked))
  }

  predicate Inv(s: State) {
    && DbOk(s.ca, s.db, s.commits) && CommitsOk(s.ca, s.commits) && SinkOk(s)
    && (forall id :: id in s.threads ==> ThreadOk(s, id))
    && (s.publisher.Some? ==> s.publisher.value in s.threads && s.threads[s.publisher.value].phase.Publishing?)
  }

  /** Rows are only ever added, so each list names at least what the last one did. */
  lemma TransactGrows(ca: Authority, db: Db, op: Op, now: int)
    requires Transact(ca, db, op, now).Some?
    ensures SubMap(ListByIssuer(db.rows, ca.issuer), ListByIssuer(Transact(ca, db, op, now).value.rows, ca.issuer))
    ensures forall k :: k in Leaves(op) ==> k in ListByIssuer(Transact(ca, db, op, now).value.rows, ca.issuer)
    ensures forall c :: c in db.rows ==>
            c in Transact(ca, db, op, now).value.rows && Transact(ca, db, op, now).value.rows[c] == db.rows[c]
  {
    var db' := Transact(ca, db, op, now).value;
    forall k | k in Leaves(op)
      ensures Cert(ca.issuer, k) in db'.rows
    {
      if op.Reconcile? {
        var n :| n in op.certificates && op.certificates[n] == k;
      }
    }
    assert forall c :: c in db.rows ==> c in db'.rows && db'.rows[c] == db.rows[c];
  }

  /** The list names exactly the rows of the issuer, with their times; it has the number after the last, or 1, is
      dated `now`, and lasts a day but no longer than the issuer. */
  ghost predicate IssuedOver(ca: Authority, last: Option<Crl>, rows: map<Cert, Revocation>, now: int,
                             crl: Option<Crl>) {
    && crl.Some? && crl.value.number == (if last.Some? then last.value.number + 1 else 1)
    && (forall k :: k in crl.value.entries <==> Cert(ca.issuer, k) in rows)
    && (forall k :: k in crl.value.entries ==> crl.value.entries[k] == rows[Cert(ca.issuer, k)].revokedAt)
    && crl.value.thisUpdate == now
    && crl.value.nextUpdate == if now + 24 * 3600 > ca.notAfter then ca.notAfter else now + 24 * 3600
  }

  /** A revocation's transaction succeeds exactly if its certificate has no row, or one that names the same node
      under a committed list. In the first case it adds the row and issues, in the second it changes nothing. */
  lemma RevokeTransacts(ca: Authority, db: Db, node: nat, leaf: nat, now: int)
    ensures
      var c, r := Cert(ca.issuer, leaf), Transact(ca, db, Revoke(node, leaf), now);
      && (r.Some? <==> c !in db.rows || (db.rows[c].node == node && db.crl.Some?))
      && (c in db.rows && r.Some? ==> r.value == db)
      && (c !in db.rows ==>
            && r.value.rows == db.rows[c := Revocation(node, now)] && r.value.legacy == db.legacy
            && IssuedOver(ca, db.crl, r.value.rows, now, r.value.crl))
  {
    var c := Cert(ca.issuer, leaf);
    ListByIssuerIsExact(db.(rows := db.rows[c := Revocation(node, now)]), ca.issuer);
    hide ListByIssuer;
  }

  /** A reconciliation's succeeds exactly if it names all legacy nodes and no others, each with a certificate of
      its own that has no row yet. Then every legacy row becomes one under its certificate, and a list is issued. */
  lemma ReconcileTransacts(ca: Authority, db: Db, certificates: map<nat, nat>, now: int)
    ensures
      var r := Transact(ca, db, Reconcile(certificates), now);
      && (r.Some? <==>
            && certificates.Keys == db.legacy.Keys
            && (forall n :: n in certificates ==> Cert(ca.issuer, certificates[n]) !in db.rows)
            && (forall m, n :: m in certificates && n in certificates && m != n ==> certificates[m] != certificates[n]))
      && (r.Some? ==>
            && r.value.legacy == map[] && IssuedOver(ca, db.crl, r.value.rows, now, r.value.crl)
            && (forall c :: c in db.rows ==> c in r.value.rows && r.value.rows[c] == db.rows[c])
            && (forall n :: n in certificates ==>
                  && Cert(ca.issuer, certificates[n]) in r.value.rows
                  && r.value.rows[Cert(ca.issuer, certificates[n])] == Revocation(n, db.legacy[n]))
            && (forall c :: c in r.value.rows && c !in db.rows ==>
                  exists n :: n in certificates && c == Cert(ca.issuer, certificates[n])))
  {
    ReconcileSucceedsIff(ca, db, certificates, now);
    var r := Transact(ca, db, Reconcile(certificates), now);
    if r.Some? {
      ReconcileIssues(ca, db, certificates, now);
      BoundJoins(ca, certificates, db, r.value.rows);
    }
    hide Transact, IssuedOver, Bound;
  }

  lemma BoundJoins(ca: Authority, certificates: map<nat, nat>, db: Db, rows: map<Cert, Revocation>)
    requires certificates.Keys == db.legacy.Keys
    requires forall m, n :: m in certificates && n in certificates && m != n ==> certificates[m] != certificates[n]
    requires forall n :: n in certificates ==> Cert(ca.issuer, certificates[n]) !in db.rows
    requires rows == db.rows + Bound(ca, certificates, db.legacy)
    ensures forall c :: c in db.rows ==> c in rows && rows[c] == db.rows[c]
    ensures forall n :: n in certificates ==>
              && Cert(ca.issuer, certificates[n]) in rows
              && rows[Cert(ca.issuer, certificates[n])] == Revocation(n, db.legacy[n])
    ensures forall c :: c in rows && c !in db.rows ==>
              exists n :: n in certificates && c == Cert(ca.issuer, certificates[n])
  {
    BoundIs(ca, certificates, db.legacy);
    hide Bound;
  }

  lemma ReconcileSucceedsIff(ca: Authority, db: Db, certificates: map<nat, nat>, now: int)
    ensures
      Transact(ca, db, Reconcile(certificates), now).Some? <==>
        && certificates.Keys == db.legacy.Keys
        && (forall n :: n in certificates ==> Cert(ca.issuer, certificates[n]) !in db.rows)
        && (forall m, n :: m in certificates && n in certificates && m != n ==> certificates[m] != certificates[n])
  {
    hide Issue, Bound;
  }

  lemma ReconcileIssues(ca: Authority, db: Db, certificates: map<nat, nat>, now: int)
    requires Transact(ca, db, Reconcile(certificates), now).Some?
    ensures certificates.Keys == db.legacy.Keys
    ensures forall m, n :: m in certificates && n in certificates && m != n ==> certificates[m] != certificates[n]
    ensures
      var t := Transact(ca, db, Reconcile(certificates), now).value;
      && t.rows == db.rows + Bound(ca, certificates, db.legacy) && t.legacy == map[]
      && IssuedOver(ca, db.crl, t.rows, now, t.crl)
  {
    ListByIssuerIsExact(Transact(ca, db, Reconcile(certificates), now).value, ca.issuer);
    hide ListByIssuer, Bound;
  }

  lemma BoundIs(ca: Authority, certificates: map<nat, nat>, legacy: map<nat, int>)
    requires certificates.Keys == legacy.Keys
    requires forall m, n :: m in certificates && n in certificates && m != n ==> certificates[m] != certificates[n]
    ensures
      var bound := Bound(ca, certificates, legacy);
      && (forall n :: n in certificates ==>
            && Cert(ca.issuer, certificates[n]) in bound
            && bound[Cert(ca.issuer, certificates[n])] == Revocation(n, legacy[n]))
      && forall c :: c in bound ==> exists n :: n in certificates && c == Cert(ca.issuer, certificates[n])
  {
  }

  /** A renewal's always succeeds, and issues over the same rows exactly if there is no list or the last one ends
      by now + renewBefore. */
  lemma EnsureTransacts(ca: Authority, db: Db, renewBefore: nat, now: int)
    ensures
      var r := Transact(ca, db, Ensure(renewBefore), now);
      && r.Some? && r.value.rows == db.rows && r.value.legacy == db.legacy
      && if db.crl.Some? && db.crl.value.nextUpdate > now + renewBefore then r.value == db
         else IssuedOver(ca, db.crl, db.rows, now, r.value.crl)
  {
    ListByIssuerIsExact(db, ca.issuer);
    hide ListByIssuer;
  }

  /** Either nothing was issued, or the next number was, naming exactly the issuer's rows. */
  lemma TransactIssues(ca: Authority, db: Db, op: Op, now: int)
    requires Transact(ca, db, op, now).Some?
    ensures
      var db' := Transact(ca, db, op, now).value;
      || (db' == db && db.crl.Some?)
      || db'.crl == Some(Crl(if db.crl.Some? then db.crl.value.number + 1 else 1,
                             ListByIssuer(db'.rows, ca.issuer), now, NextUpdate(ca, now)))
  {
    hide ListByIssuer;
  }

  lemma IssueKeepsHistory(ca: Authority, db: Db, commits: seq<Crl>, db': Db)
    requires DbOk(ca, db, commits) && CommitsOk(ca, commits)
    requires SubMap(ListByIssuer(db.rows, ca.issuer), ListByIssuer(db'.rows, ca.issuer))
    requires db'.crl.Some? && db'.crl.value.number == |commits| + 1
    requires db'.crl.value.entries == ListByIssuer(db'.rows, ca.issuer)
    requires db'.crl.value.nextUpdate == NextUpdate(ca, db'.crl.value.thisUpdate)
    ensures DbOk(ca, db', commits + [db'.crl.value]) && CommitsOk(ca, commits + [db'.crl.value])
  {
    var commits' := commits + [db'.crl.value];
    forall i | 0 <= i < |commits|
      ensures SubMap(commits'[i].entries, commits'[|commits|].entries)
    {
      assert SubMap(commits[i].entries, commits[|commits| - 1].entries);
    }
  }

  /** Growing the history disturbs neither the sink nor the threads. */
  lemma HistoryGrows(s: State, s': State)
    requires Inv(s) && s'.sink == s.sink && s'.published == s.published && s'.acked == s.acked
             && s'.publisher == s.publisher
    requires s.commits <= s'.commits && s'.threads == s.threads && s'.clock == s.clock
    ensures SinkOk(s') && forall id :: id in s.threads ==> ThreadOk(s', id)
  {
    assert forall i :: 0 <= i < |s.commits| ==> s'.commits[i] == s.commits[i];
    forall id | id in s.threads
      ensures ThreadOk(s', id)
    {
      assert ThreadOk(s, id);
    }
  }

  /** Moving a thread that does not hold the publish lock. */
  lemma PhaseKeepsInv(s: State, id: nat, phase: Phase)
    requires Inv(s) && id in s.threads && !s.threads[id].phase.Publishing? && !phase.Publishing?
    requires ThreadOk(At(s, id, phase), id)
    ensures Inv(At(s, id, phase))
  {
    hide DbOk, CommitsOk;
    var s' := At(s, id, phase);
    forall k | k in s'.threads
      ensures ThreadOk(s', k)
    {
      assert k != id ==> ThreadOk(s, k);
    }
  }

  /** The list a transaction leaves names its leaves. */
  lemma CommittedListsLeaves(ca: Authority, db: Db, op: Op, now: int, commits: seq<Crl>)
    requires Transact(ca, db, op, now).Some? && DbOk(ca, db, commits) && CommitsOk(ca, commits)
    ensures
      var db' := Transact(ca, db, op, now).value;
      var commits' := if db'.crl != db.crl && db'.crl.Some? then commits + [db'.crl.value] else commits;
      && DbOk(ca, db', commits') && CommitsOk(ca, commits') && commits <= commits'
      && commits' != [] && Lists(commits'[|commits'| - 1], Leaves(op))
  {
    TransactGrows(ca, db, op, now);
    TransactIssues(ca, db, op, now);
    var db' := Transact(ca, db, op, now).value;
    hide Transact, ListByIssuer;
    if db' != db {
      IssueKeepsHistory(ca, db, commits, db');
    }
  }

  lemma CommitKeepsInv(s: State, id: nat, fault: Fault)
    requires Inv(s) && Enabled(s, Commit(id, fault))
    ensures Inv(Next(s, Commit(id, fault)))
  {
    hide Transact, DbOk, CommitsOk, SinkOk;
    var t := s.threads[id];
    var db := Transact(s.ca, s.db, t.op, t.now);
    if db.None? || fault.Failed? {
      PhaseKeepsInv(s, id, Returned(false));
    } else {
      CommittedListsLeaves(s.ca, s.db, t.op, t.now, s.commits);
      var m := s.(db := db.value,
                  commits := if db.value.crl != s.db.crl && db.value.crl.Some? then s.commits + [db.value.crl.value]
                      else s.commits);
      HistoryGrows(s, m);
      PhaseKeepsInv(m, id, if fault.Fine? then Committed(|m.commits|) else Returned(false));
    }
  }

  lemma StartKeepsInv(s: State, id: nat, op: Op)
    requires Inv(s) && Enabled(s, Start(id, op))
    ensures Inv(Next(s, Start(id, op)))
  {
    hide DbOk, CommitsOk;
    var s' := Next(s, Start(id, op));
    forall k | k in s'.threads
      ensures ThreadOk(s', k)
    {
      assert k != id ==> ThreadOk(s, k);
    }
  }

  lemma ReadKeepsInv(s: State, id: nat, fails: bool)
    requires Inv(s) && Enabled(s, Read(id, fails))
    ensures Inv(Next(s, Read(id, fails)))
  {
    assert ThreadOk(s, id);
    if fails {
      PhaseKeepsInv(s, id, Returned(false));
    } else if s.db.crl.None? {
      PhaseKeepsInv(s, id, Returned(true));
      assert s.acked + Leaves(s.threads[id].op) == s.acked;
    } else {
      LastListsAll(s, id);
      LockingKeepsInv(s, id, s.db.crl.value);
    }
  }

  lemma LockingKeepsInv(s: State, id: nat, crl: Crl)
    requires Inv(s) && id in s.threads && s.publisher.None?
    requires IsCommit(s.commits, crl) && Lists(crl, Leaves(s.threads[id].op))
    requires s.sink.Some? ==> s.sink.value.number <= crl.number
    ensures Inv(At(s, id, Publishing(crl)).(publisher := Some(id)))
  {
    hide DbOk, CommitsOk, IsCommit, Lists;
    var s' := At(s, id, Publishing(crl)).(publisher := Some(id));
    forall k | k in s'.threads
      ensures ThreadOk(s', k)
    {
      assert k != id ==> ThreadOk(s, k);
    }
    assert SinkOk(s) && s'.sink == s.sink && s'.published == s.published;
  }

  /** Whatever a thread committed, the list read back names it. */
  lemma LastListsAll(s: State, id: nat)
    requires DbOk(s.ca, s.db, s.commits) && CommitsOk(s.ca, s.commits) && SinkOk(s) && s.db.crl.Some?
    requires id in s.threads && s.threads[id].phase.Committed? && ThreadOk(s, id)
    ensures IsCommit(s.commits, s.db.crl.value) && Lists(s.db.crl.value, Leaves(s.threads[id].op))
    ensures s.sink.Some? ==> s.sink.value.number <= s.db.crl.value.number
  {
    var n := s.threads[id].phase.number;
    assert 0 < n < |s.commits| ==> SubMap(s.commits[n - 1].entries, s.commits[|s.commits| - 1].entries);
  }

  /** What the sink held is named by what replaces it. */
  lemma NewerListsMore(ca: Authority, commits: seq<Crl>, older: Crl, newer: Crl)
    requires CommitsOk(ca, commits) && IsCommit(commits, older) && IsCommit(commits, newer)
             && older.number <= newer.number
    ensures older.entries.Keys <= newer.entries.Keys
  {
    assert older.number < newer.number ==> SubMap(commits[older.number - 1].entries, commits[newer.number - 1].entries);
  }

  lemma WriteKeepsInv(s: State, id: nat, fault: Fault)
    requires Inv(s) && Enabled(s, Write(id, fault))
    ensures Inv(Next(s, Write(id, fault)))
  {
    assert ThreadOk(s, id);
    if s.sink.Some? {
      NewerListsMore(s.ca, s.commits, s.sink.value, s.threads[id].phase.crl);
    }
    WrittenSinkOk(s, id, fault);
    hide DbOk, CommitsOk, SinkOk, ThreadOk, Lists, IsCommit;
    WriterIsAlone(s, id, fault);
  }

  /** No other thread is publishing. */
  lemma WriterIsAlone(s: State, id: nat, fault: Fault)
    requires Enabled(s, Write(id, fault)) && forall k :: k in s.threads ==> ThreadOk(s, k)
    ensures forall k :: k in s.threads ==> ThreadOk(Next(s, Write(id, fault)), k)
  {
    hide IsCommit, Lists;
    forall k | k in s.threads
      ensures ThreadOk(Next(s, Write(id, fault)), k)
    {
      assert ThreadOk(s, k) && ThreadOk(s, id);
    }
  }

  lemma WrittenSinkOk(s: State, id: nat, fault: Fault)
    requires SinkOk(s) && Enabled(s, Write(id, fault)) && ThreadOk(s, id)
    requires s.sink.Some? ==> s.sink.value.entries.Keys <= s.threads[id].phase.crl.entries.Keys
    ensures SinkOk(Next(s, Write(id, fault)))
  {
  }

  lemma QuietStepKeepsInv(s: State, e: Event)
    requires Inv(s) && (e.Crash? || e.Tick?)
    ensures Inv(Next(s, e))
  {
    hide DbOk, CommitsOk;
    forall k | k in Next(s, e).threads
      ensures ThreadOk(Next(s, e), k)
    {
      assert ThreadOk(s, k);
    }
  }

  lemma StepKeepsInv(s: State, e: Event)
    requires Inv(s) && Enabled(s, e)
    ensures Inv(Next(s, e))
  {
    hide Inv, Next, Enabled;
    match e
    case Start(id, op) => StartKeepsInv(s, id, op);
    case Commit(id, fault) => CommitKeepsInv(s, id, fault);
    case Read(id, fails) => ReadKeepsInv(s, id, fails);
    case Write(id, fault) => WriteKeepsInv(s, id, fault);
    case _ => QuietStepKeepsInv(s, e);
  }

  lemma {:induction false} RunKeepsInv(s: State, es: seq<Event>)
    requires Inv(s) && Exec(s, es).Some?
    ensures Inv(Exec(s, es).value)
  {
    hide Inv, Next, Enabled;
    if es != [] {
      RunKeepsInv(s, es[..|es| - 1]);
      StepKeepsInv(Exec(s, es[..|es| - 1]).value, es[|es| - 1]);
    }
  }

  lemma ReachableInv(s: State)
    requires Reachable(s)
    ensures Inv(s)
  {
    var s0, es :| Initial(s0) && Exec(s0, es) == Some(s);
    assert Inv(s0) by {
      assert s0.threads == map[];
    }
    hide Inv;
    RunKeepsInv(s0, es);
  }

  // ------------------------------------------------------------------ what commits and publications promise

  /** The i-th list committed has number i + 1 and lasts a day or as long as the issuer; and at all times the
      database's list is the last one committed and names exactly the issuer's revoked leaves. */
  lemma CommitsCountUp(s: State, i: nat)
    requires Reachable(s) && i < |s.commits|
    ensures s.commits[i].number == i + 1
    ensures s.commits[i].nextUpdate ==
            (if s.commits[i].thisUpdate + 24 * 3600 <= s.ca.notAfter then s.commits[i].thisUpdate + 24 * 3600
             else s.ca.notAfter)
    ensures s.db.crl == Some(s.commits[|s.commits| - 1])
    ensures forall k :: k in s.db.crl.value.entries <==> Cert(s.ca.issuer, k) in s.db.rows
    ensures forall k :: k in s.db.crl.value.entries ==>
            s.db.crl.value.entries[k] == s.db.rows[Cert(s.ca.issuer, k)].revokedAt
  {
    hide Exec, Initial, SinkOk, ThreadOk;
    ReachableInv(s);
    ListByIssuerIsExact(s.db, s.ca.issuer);
  }

  lemma ListByIssuerIsExact(db: Db, issuer: nat)
    ensures forall k :: k in ListByIssuer(db.rows, issuer) <==> Cert(issuer, k) in db.rows
    ensures forall k :: k in ListByIssuer(db.rows, issuer) ==>
            ListByIssuer(db.rows, issuer)[k] == db.rows[Cert(issuer, k)].revokedAt
  {
  }

  /** Whoever publishes when, the sink never goes back to an older list, and holds only committed ones. */
  lemma PublicationsNeverGoBack(s: State, i: nat, j: nat)
    requires Reachable(s) && i < j < |s.published|
    ensures s.published[i].number <= s.published[j].number
    ensures s.sink == Some(s.published[|s.published| - 1]) && s.sink.value in s.commits
  {
    hide Exec, Initial, DbOk, CommitsOk, ThreadOk;
    ReachableInv(s);
    assert SinkOk(s);
  }

  lemma {:induction false} AckedGrows(s: State, es: seq<Event>)
    requires Exec(s, es).Some?
    ensures s.acked <= Exec(s, es).value.acked
  {
    hide Transact;
    if es != [] {
      AckedGrows(s, es[..|es| - 1]);
    }
  }

  lemma {:induction false} ExecConcat(s: State, a: seq<Event>, b: seq<Event>)
    requires Exec(s, a).Some?
    ensures Exec(s, a + b) == Exec(Exec(s, a).value, b)
  {
    hide Next, Enabled;
    if b == [] {
      assert a + b == a;
    } else {
      assert (a + b)[..|a + b| - 1] == a + b[..|b| - 1];
      ExecConcat(s, a, b[..|b| - 1]);
    }
  }

  lemma RunStaysReachable(s: State, es: seq<Event>)
    requires Reachable(s) && Exec(s, es).Some?
    ensures Reachable(Exec(s, es).value)
  {
    hide Initial;
    var s0, before :| Initial(s0) && Exec(s0, before) == Some(s);
    ExecConcat(s0, before, es);
  }

  /** Once a revocation returns success the sink lists its leaf, from then on, through every later
      publication, sink failure and crash. */
  lemma RevokedStaysListed(s: State, e: Event, id: nat, es: seq<Event>)
    requires Reachable(s) && Enabled(s, e) && id in s.threads && !s.threads[id].phase.Returned?
    requires id in Next(s, e).threads && Next(s, e).threads[id].phase == Returned(true)
    requires Exec(Next(s, e), es).Some?
    ensures forall leaf :: leaf in Leaves(s.threads[id].op) ==>
              Exec(Next(s, e), es).value.sink.Some? && leaf in Exec(Next(s, e), es).value.sink.value.entries
  {
    SuccessAcks(s, e, id);
    AckedGrows(Next(s, e), es);
    assert Exec(s, [e]) == Some(Next(s, e)) by {
      assert [e][..0] == [];
    }
    RunStaysReachable(s, [e]);
    RunStaysReachable(Next(s, e), es);
    ReachableInv(Exec(Next(s, e), es).value);
  }

  lemma SuccessAcks(s: State, e: Event, id: nat)
    requires Enabled(s, e) && id in s.threads && !s.threads[id].phase.Returned?
    requires id in Next(s, e).threads && Next(s, e).threads[id].phase == Returned(true)
    ensures Leaves(s.threads[id].op) <= Next(s, e).acked
  {
    hide Transact;
  }

  // ------------------------------------------------------------------ trying again

  /** The certificate has its row, naming the node, and a list is committed. */
  predicate Recorded(s: State, node: nat, leaf: nat) {
    Cert(s.ca.issuer, leaf) in s.db.rows && s.db.rows[Cert(s.ca.issuer, leaf)].node == node && s.db.crl.Some?
  }

  /** A revocation that has committed is recorded, even if the commit was reported as failed. */
  lemma CommitRecords(s: State, id: nat, fault: Fault)
    requires Enabled(s, Commit(id, fault)) && s.threads[id].op.Revoke? && !fault.Failed?
    requires
      var c := Cert(s.ca.issuer, s.threads[id].op.leaf);
      c !in s.db.rows || (s.db.rows[c].node == s.threads[id].op.node && s.db.crl.Some?)
    ensures Recorded(Next(s, Commit(id, fault)), s.threads[id].op.node, s.threads[id].op.leaf)
  {
    RevokeTransacts(s.ca, s.db, s.threads[id].op.node, s.threads[id].op.leaf, s.threads[id].now);
    hide Transact;
  }

  lemma StepKeepsRecorded(s: State, e: Event, node: nat, leaf: nat)
    requires Enabled(s, e) && Recorded(s, node, leaf)
    ensures Recorded(Next(s, e), node, leaf)
  {
    if e.Commit? {
      var t := s.threads[e.id];
      if Transact(s.ca, s.db, t.op, t.now).Some? {
        TransactGrows(s.ca, s.db, t.op, t.now);
        TransactIssues(s.ca, s.db, t.op, t.now);
      }
    }
    hide Transact, ListByIssuer;
  }

  /** What is recorded stays so through everything that happens, crashes included. */
  lemma {:induction false} RecordedStays(s: State, es: seq<Event>, node: nat, leaf: nat)
    requires Recorded(s, node, leaf) && Exec(s, es).Some?
    ensures Recorded(Exec(s, es).value, node, leaf)
  {
    if es != [] {
      RecordedStays(s, es[..|es| - 1], node, leaf);
      hide Recorded, Next, Enabled;
      StepKeepsRecorded(Exec(s, es[..|es| - 1]).value, es[|es| - 1], node, leaf);
    }
  }

  /** From every reachable state, calling again for a recorded revocation succeeds if the sink takes the list: the
      call issues nothing, and leaves the committed list, with the leaf, in the sink. */
  lemma RetryPublishes(s: State, id: nat, node: nat, leaf: nat)
    requires Reachable(s) && Recorded(s, node, leaf) && id !in s.threads && s.publisher.None?
    ensures
      var s1 := Next(s, Start(id, Revoke(node, leaf)));
      var s2 := Next(s1, Commit(id, Fine));
      && Enabled(s1, Commit(id, Fine)) && Enabled(s2, Read(id, false))
      && var s3 := Next(s2, Read(id, false));
      && Enabled(s3, Write(id, Fine))
      && var s4 := Next(s3, Write(id, Fine));
      && s4.threads[id].phase == Returned(true) && s4.db == s.db && s4.commits == s.commits
      && s4.sink == s.db.crl && leaf in s4.sink.value.entries
  {
    ReachableInv(s);
    RevokeTransacts(s.ca, s.db, node, leaf, s.clock);
    ListByIssuerIsExact(s.db, s.ca.issuer);
    hide Transact, Reachable, CommitsOk, SinkOk, ThreadOk, ListByIssuer;
  }

  // ------------------------------------------------------------------ renewal

  lemma EnsureRunsBeyond(ca: Authority, db: Db, renewBefore: nat, now: int, commits: seq<Crl>)
    requires DbOk(ca, db, commits) && CommitsOk(ca, commits) && renewBefore < Validity
    ensures
      var db' := Transact(ca, db, Ensure(renewBefore), now).value;
      db'.crl.Some? && (db'.crl.value.nextUpdate > now + renewBefore <==> ca.notAfter > now + renewBefore)
  {
    hide ListByIssuer;
  }

  /** When an ensure commits, the list in the database runs beyond now + renewBefore exactly when the
      issuer lives that long. */
  lemma EnsureCommitsFresh(s: State, id: nat)
    requires Reachable(s) && id in s.threads && s.threads[id].op.Ensure? && s.threads[id].phase.Waiting?
    ensures
      var until := s.threads[id].now + s.threads[id].op.renewBefore;
      var t := Next(s, Commit(id, Fine));
      && t.threads[id].phase == Committed(|t.commits|) && t.db.crl.Some?
      && (t.db.crl.value.nextUpdate > until <==> s.ca.notAfter > until)
  {
    ReachableInv(s);
    assert ThreadOk(s, id);
    var op := s.threads[id].op;
    EnsureRunsBeyond(s.ca, s.db, op.renewBefore, s.threads[id].now, s.commits);
    assert Transact(s.ca, s.db, op, s.threads[id].now).Some?;
    hide Transact, Inv, Reachable;
  }

  /** Where a committed operation has got to: never to an older list than its own. */
  predicate Followed(s: State, id: nat, n: nat) {
    && id in s.threads
    && match s.threads[id].phase
       case Waiting => false
       case Committed(k) => k == n
       case Publishing(crl) => crl.number >= n
       case Returned(ok) => ok ==> s.sink.Some? && s.sink.value.number >= n
  }

  lemma StepFollows(s: State, e: Event, id: nat, n: nat)
    requires Inv(s) && Enabled(s, e) && !e.Crash? && Followed(s, id, n) && 0 < n <= |s.commits|
    ensures Followed(Next(s, e), id, n)
  {
    hide Transact;
    assert ThreadOk(s, id);
    if e.Write? {
      assert ThreadOk(s, e.id);
    }
  }

  // ------------------------------------------------------------------ stragglers

  /** The operation's transaction would issue a list dated from when it read the clock. (A renewal that read it
      long ago would not, as long as the list is fresh.) */
  predicate CanIssue(ca: Authority, db: Db, op: Op) {
    match op
    case Revoke(_, leaf) => Cert(ca.issuer, leaf) !in db.rows
    case Reconcile(certificates) => BindLegacy(ca, db, certificates).Some?
    case Ensure(_) => false
  }

  /** A call that read the clock a day or more before `until` still waits to commit such a list. */
  predicate Straggler(s: State, until: int) {
    exists j :: j in s.threads && s.threads[j].phase.Waiting? && s.threads[j].now + Validity <= until
                && CanIssue(s.ca, s.db, s.threads[j].op)
  }

  /** A certificate that has its row, and legacy rows that are gone, stay so. */
  lemma CannotIssueStays(ca: Authority, db: Db, op: Op, now: int, other: Op)
    requires Transact(ca, db, op, now).Some? && !CanIssue(ca, db, other)
    requires other.Reconcile? ==> other.certificates != map[]
    ensures !CanIssue(ca, Transact(ca, db, op, now).value, other)
  {
    var db' := Transact(ca, db, op, now).value;
    TransactGrows(ca, db, op, now);
    LegacyOnceBound(ca, db, op, now);
    hide Transact, ListByIssuer, BindLegacy;
    if other.Reconcile? {
      UnbindableStays(ca, db, db', other.certificates);
    }
  }

  lemma LegacyOnceBound(ca: Authority, db: Db, op: Op, now: int)
    requires Transact(ca, db, op, now).Some?
    ensures Transact(ca, db, op, now).value.legacy == db.legacy || Transact(ca, db, op, now).value.legacy == map[]
  {
    hide ListByIssuer;
  }

  lemma UnbindableStays(ca: Authority, db: Db, db': Db, certificates: map<nat, nat>)
    requires BindLegacy(ca, db, certificates).None? && certificates != map[]
    requires db'.legacy == db.legacy || db'.legacy == map[]
    requires forall c :: c in db.rows ==> c in db'.rows
    ensures BindLegacy(ca, db', certificates).None?
  {
    if certificates.Keys != db.legacy.Keys {
      var n :| n in certificates;
      assert n in certificates.Keys;
    }
  }

  lemma IssuesLate(ca: Authority, db: Db, op: Op, now: int)
    requires CanIssue(ca, db, op)
    ensures Transact(ca, db, op, now).Some?
    ensures Transact(ca, db, op, now).value.crl.Some?
            && Transact(ca, db, op, now).value.crl.value.nextUpdate <= now + Validity
  {
    hide ListByIssuer;
  }

  /** Every list from the n-th on runs beyond `until`, and so will all to come. */
  predicate StaysFresh(s: State, n: nat, until: int) {
    && 0 < n <= |s.commits| && s.clock + Validity > until && s.ca.notAfter > until && !Straggler(s, until)
    && (forall i :: n - 1 <= i < |s.commits| ==> s.commits[i].nextUpdate > until)
  }

  /** Whoever else waits too long stays unable to issue. */
  lemma CommitMakesNoStraggler(s: State, id: nat, fault: Fault, until: int)
    requires Inv(s) && Enabled(s, Commit(id, fault)) && !Straggler(s, until)
    ensures !Straggler(Next(s, Commit(id, fault)), until)
  {
    var t, s' := s.threads[id], Next(s, Commit(id, fault));
    assert s'.ca == s.ca && (s'.db == s.db || Some(s'.db) == Transact(s.ca, s.db, t.op, t.now));
    assert s'.threads.Keys == s.threads.Keys && !s'.threads[id].phase.Waiting?;
    assert forall j :: j in s.threads && j != id ==> s'.threads[j] == s.threads[j];
    hide Next, Transact, CanIssue, DbOk, CommitsOk, SinkOk, ThreadOk;
    forall j | j in s'.threads && s'.threads[j].phase.Waiting? && s'.threads[j].now + Validity <= until
      ensures !CanIssue(s'.ca, s'.db, s'.threads[j].op)
    {
      WaitingHasWork(s, j);
      if s'.db != s.db {
        CannotIssueStays(s.ca, s.db, t.op, t.now, s.threads[j].op);
      }
    }
  }

  lemma WaitingHasWork(s: State, j: nat)
    requires Inv(s) && j in s.threads && s.threads[j].phase.Waiting?
    ensures s.threads[j].op.Reconcile? ==> s.threads[j].op.certificates != map[]
  {
    assert ThreadOk(s, j);
  }

  /** A call that is no straggler issues a fresh list, if any; the last list being fresh, a late renewal issues
      none. */
  lemma IssuesFresh(ca: Authority, db: Db, op: Op, now: int, until: int)
    requires Transact(ca, db, op, now).Some? && ca.notAfter > until
    requires db.crl.Some? && db.crl.value.nextUpdate > until
    requires op.Ensure? ==> op.renewBefore < Validity
    requires now + Validity > until || !CanIssue(ca, db, op)
    ensures
      var db' := Transact(ca, db, op, now).value;
      db'.crl == db.crl || (db'.crl.Some? && db'.crl.value.nextUpdate > until)
  {
    TransactIssues(ca, db, op, now);
    hide ListByIssuer;
  }

  lemma LastIsStored(s: State)
    requires Inv(s) && s.commits != []
    ensures s.db.crl == Some(s.commits[|s.commits| - 1])
  {
  }

  /** A commit adds the list its transaction issued, if any. */
  lemma CommitShape(s: State, id: nat, fault: Fault)
    requires Enabled(s, Commit(id, fault))
    ensures
      var s', db := Next(s, Commit(id, fault)), Transact(s.ca, s.db, s.threads[id].op, s.threads[id].now);
      && s'.ca == s.ca && s'.clock == s.clock
      && (s'.commits == s.commits
          || (db.Some? && db.value.crl.Some? && db.value.crl != s.db.crl
              && s'.commits == s.commits + [db.value.crl.value]))
  {
    hide Transact;
  }

  lemma NotStraggling(s: State, id: nat, until: int)
    requires Inv(s) && !Straggler(s, until) && id in s.threads && s.threads[id].phase.Waiting?
    ensures s.threads[id].now + Validity > until || !CanIssue(s.ca, s.db, s.threads[id].op)
    ensures s.threads[id].op.Ensure? ==> s.threads[id].op.renewBefore < Validity
  {
    hide CanIssue, DbOk, CommitsOk, SinkOk;
    assert ThreadOk(s, id);
  }

  lemma CommitStaysFresh(s: State, id: nat, fault: Fault, n: nat, until: int)
    requires Inv(s) && Enabled(s, Commit(id, fault)) && StaysFresh(s, n, until)
    ensures StaysFresh(Next(s, Commit(id, fault)), n, until)
  {
    hide Transact, CanIssue, Inv, Straggler, Next;
    CommitMakesNoStraggler(s, id, fault, until);
    CommitShape(s, id, fault);
    LastIsStored(s);
    NotStraggling(s, id, until);
    if Transact(s.ca, s.db, s.threads[id].op, s.threads[id].now).Some? {
      IssuesFresh(s.ca, s.db, s.threads[id].op, s.threads[id].now, until);
    }
  }

  lemma StepStaysFresh(s: State, e: Event, n: nat, until: int)
    requires Inv(s) && Enabled(s, e) && StaysFresh(s, n, until)
    ensures StaysFresh(Next(s, e), n, until)
  {
    hide Inv, CanIssue, Transact;
    match e
    case Commit(id, fault) => CommitStaysFresh(s, id, fault, n, until);
    case Start(_, _) =>
    case Read(_, _) =>
    case Write(_, _) =>
    case Crash =>
    case Tick(_) =>
  }

  predicate NoCrash(es: seq<Event>) {
    forall e :: e in es ==> !e.Crash?
  }

  lemma {:induction false} RunFollows(s: State, es: seq<Event>, id: nat, n: nat, until: int)
    requires Inv(s) && Exec(s, es).Some? && NoCrash(es) && Followed(s, id, n) && StaysFresh(s, n, until)
    ensures Inv(Exec(s, es).value) && Followed(Exec(s, es).value, id, n) && StaysFresh(Exec(s, es).value, n, until)
  {
    if es != [] {
      var m, e := Exec(s, es[..|es| - 1]).value, es[|es| - 1];
      assert e in es;
      RunFollows(s, es[..|es| - 1], id, n, until);
      hide Inv, Next, Enabled, Followed;
      StepFollows(m, e, id, n);
      StepStaysFresh(m, e, n, until);
      StepKeepsInv(m, e);
    }
  }

  predicate Succeeded(s: State, id: nat) {
    id in s.threads && s.threads[id].phase == Returned(true)
  }

  predicate FreshSink(s: State, until: int) {
    s.sink.Some? && s.sink.value.nextUpdate > until
  }

  ghost predicate LeavesStale(s: State, es: seq<Event>, id: nat, until: int) {
    NoCrash(es) && Exec(s, es).Some? && Succeeded(Exec(s, es).value, id) && !FreshSink(Exec(s, es).value, until)
  }

  ghost predicate MayGoStale(s: State, id: nat, until: int) {
    exists es :: LeavesStale(s, es, id, until)
  }

  lemma StaleAfter(s: State, e: Event, id: nat, until: int)
    requires Enabled(s, e) && !e.Crash? && MayGoStale(Next(s, e), id, until)
    ensures MayGoStale(s, id, until)
  {
    var es :| LeavesStale(Next(s, e), es, id, until);
    assert [e][..0] == [] && Exec(s, [e]) == Some(Next(s, e));
    ExecConcat(s, [e], es);
    hide Exec;
    assert LeavesStale(s, [e] + es, id, until);
  }

  /** A call that has committed publishes the database's list next, once the publish lock is free. */
  lemma StaleListIsPublished(s: State, id: nat, until: int)
    requires Inv(s) && id in s.threads && s.threads[id].phase.Committed? && s.db.crl.Some?
             && s.db.crl.value.nextUpdate <= until
    ensures MayGoStale(s, id, until)
  {
    hide MayGoStale, DbOk, CommitsOk, SinkOk, ThreadOk;
    if s.publisher.Some? {
      FreeListIsPublished(Next(s, Write(s.publisher.value, Fine)), id, until);
      StaleAfter(s, Write(s.publisher.value, Fine), id, until);
    } else {
      FreeListIsPublished(s, id, until);
    }
  }

  lemma FreeListIsPublished(s: State, id: nat, until: int)
    requires s.publisher.None? && id in s.threads && s.threads[id].phase.Committed?
    requires s.db.crl.Some? && s.db.crl.value.nextUpdate <= until
    ensures MayGoStale(s, id, until)
  {
    var r := Next(s, Read(id, false));
    var w := Next(r, Write(id, Fine));
    assert LeavesStale(w, [], id, until);
    hide MayGoStale;
    StaleAfter(r, Write(id, Fine), id, until);
    StaleAfter(s, Read(id, false), id, until);
  }

  /** What holds as an ensure has committed. */
  lemma EnsureCommitted(s: State, id: nat)
    requires Inv(s) && Enabled(s, Commit(id, Fine)) && s.threads[id].op.Ensure?
    ensures
      var m, until := Next(s, Commit(id, Fine)), s.threads[id].now + s.threads[id].op.renewBefore;
      && Inv(m) && m.ca == s.ca && m.clock + Validity > until && m.commits != [] && Followed(m, id, |m.commits|)
      && m.db.crl == Some(m.commits[|m.commits| - 1]) && id in m.threads && m.threads[id].phase.Committed?
      && (m.commits[|m.commits| - 1].nextUpdate > until <==> s.ca.notAfter > until)
  {
    assert ThreadOk(s, id);
    StepKeepsInv(s, Commit(id, Fine));
    EnsureRunsBeyond(s.ca, s.db, s.threads[id].op.renewBefore, s.threads[id].now, s.commits);
    assert Transact(s.ca, s.db, s.threads[id].op, s.threads[id].now).Some?;
    LastCommitIsCurrent(Next(s, Commit(id, Fine)));
    hide Inv, Transact;
  }

  /** After an ensure has committed, the sink runs beyond now + renewBefore in every crash-free continuation in
      which it returns success, and from then on, exactly if the issuer lives that long and no straggler waits:
      a revocation or reconciliation that read the clock a day or more before that time and is still to commit. */
  lemma EnsurePublishesFreshIff(s: State, id: nat)
    requires Reachable(s) && Enabled(s, Commit(id, Fine)) && s.threads[id].op.Ensure?
    ensures
      var m, until := Next(s, Commit(id, Fine)), s.threads[id].now + s.threads[id].op.renewBefore;
      s.ca.notAfter > until && !Straggler(m, until) <==>
      forall es :: NoCrash(es) && Exec(m, es).Some? && Succeeded(Exec(m, es).value, id) ==>
          FreshSink(Exec(m, es).value, until)
  {
    hide Reachable, Inv, Next, Straggler, Followed, Exec, FreshSink, Succeeded, NoCrash;
    ReachableInv(s);
    EnsureCommitted(s, id);
    FreshIff(Next(s, Commit(id, Fine)), id, s.threads[id].now + s.threads[id].op.renewBefore);
  }

  lemma FreshIff(m: State, id: nat, until: int)
    requires Inv(m) && m.clock + Validity > until && m.commits != [] && Followed(m, id, |m.commits|)
    requires m.db.crl == Some(m.commits[|m.commits| - 1]) && id in m.threads && m.threads[id].phase.Committed?
    requires m.commits[|m.commits| - 1].nextUpdate > until <==> m.ca.notAfter > until
    ensures
      m.ca.notAfter > until && !Straggler(m, until) <==>
      forall es :: NoCrash(es) && Exec(m, es).Some? && Succeeded(Exec(m, es).value, id) ==>
          FreshSink(Exec(m, es).value, until)
  {
    hide Inv, Straggler, Followed, Exec, FreshSink, Succeeded, NoCrash;
    if m.ca.notAfter > until && !Straggler(m, until) {
      forall es | NoCrash(es) && Exec(m, es).Some? && Succeeded(Exec(m, es).value, id)
        ensures FreshSink(Exec(m, es).value, until)
      {
        RunFollows(m, es, id, |m.commits|, until);
        FollowedIsFresh(Exec(m, es).value, id, |m.commits|, until);
      }
    } else {
      if m.ca.notAfter > until {
        StragglerSpoils(m, id, until);
      } else {
        StaleListIsPublished(m, id, until);
      }
      var es :| LeavesStale(m, es, id, until);
    }
  }

  lemma FollowedIsFresh(s: State, id: nat, n: nat, until: int)
    requires Inv(s) && Followed(s, id, n) && StaysFresh(s, n, until) && Succeeded(s, id)
    ensures FreshSink(s, until)
  {
    hide DbOk, ThreadOk, Straggler;
    assert s.commits[s.sink.value.number - 1] == s.sink.value;
  }

  lemma LastCommitIsCurrent(s: State)
    requires Inv(s) && s.db.crl.Some?
    ensures s.commits != [] && s.db.crl.value == s.commits[|s.commits| - 1]
  {
  }

  /** The straggler's list replaces the renewed one, and is what gets published. */
  lemma StragglerSpoils(s: State, id: nat, until: int)
    requires Inv(s) && Straggler(s, until) && id in s.threads && s.threads[id].phase.Committed?
    ensures MayGoStale(s, id, until)
  {
    hide MayGoStale;
    var j :| j in s.threads && s.threads[j].phase.Waiting? && s.threads[j].now + Validity <= until
             && CanIssue(s.ca, s.db, s.threads[j].op);
    IssuesLate(s.ca, s.db, s.threads[j].op, s.threads[j].now);
    StepKeepsInv(s, Commit(j, Fine));
    hide Inv, Transact, CanIssue, IsCommit;
    StaleListIsPublished(Next(s, Commit(j, Fine)), id, until);
    StaleAfter(s, Commit(j, Fine), id, until);
  }

  /** Stragglers occur: a revocation reads the clock and waits for the lock, fourteen hours later an ensure that
      renews 80000 seconds ahead overtakes it. */
  lemma StragglerOccurs(issuer: nat) returns (s: State)
    ensures Reachable(s) && 1 in s.threads && s.threads[1].op.Ensure? && s.threads[1].phase.Committed?
    ensures
      var until := s.threads[1].now + s.threads[1].op.renewBefore;
      s.ca.notAfter > until && Straggler(s, until)
  {
    var s0 := State(Authority(issuer, 1000000), Db(map[], map[], None), None, 0, map[], None, [], [], {});
    var e := [Start(0, Revoke(7, 9)), Tick(50000), Start(1, Ensure(80000)), Commit(1, Fine)];
    var early, late := Thread(Revoke(7, 9), 0, Waiting), Thread(Ensure(80000), 50000, Waiting);
    var s1 := s0.(threads := map[0 := early]);
    var s2 := s1.(clock := 50000);
    var s3 := s2.(threads := map[0 := early, 1 := late]);
    assert Next(s0, e[0]) == s1 && Next(s1, e[1]) == s2 && Next(s2, e[2]) == s3;
    s := Next(s3, e[3]);
    assert 0 in s.threads && s.threads[0] == early && CanIssue(s.ca, s.db, early.op);
    RunOf4(s0, s1, s2, s3, s, e);
  }

  lemma RunOf4(s0: State, s1: State, s2: State, s3: State, s4: State, e: seq<Event>)
    requires |e| == 4
    requires Enabled(s0, e[0]) && Next(s0, e[0]) == s1 && Enabled(s1, e[1]) && Next(s1, e[1]) == s2
    requires Enabled(s2, e[2]) && Next(s2, e[2]) == s3 && Enabled(s3, e[3]) && Next(s3, e[3]) == s4
    ensures Exec(s0, e) == Some(s4)
  {
    hide Enabled, Next;
    assert Exec(s0, e[..0]) == Some(s0);
    assert e[..1][..0] == e[..0] && Exec(s0, e[..1]) == Some(s1);
    assert e[..2][..1] == e[..1] && Exec(s0, e[..2]) == Some(s2);
    assert e[..3][..2] == e[..2] && Exec(s0, e[..3]) == Some(s3);
  }
}
