/** The revocation service as one call at a time runs it: transactions over the rows, then publication. */
module NodeCrlService {
  import opened Codec
  import opened NodeCrl

  class Service {
    const ca: Authority
    var db: Db
    var sink: Option<Crl>
    ghost var commits: seq<Crl>

    constructor (ca: Authority, rows: map<Cert, Revocation>, legacy: map<nat, int>)
      ensures this.ca == ca && db == Db(rows, legacy, None) && sink == None && commits == [] && Valid()
    {
      this.ca, db, sink, commits := ca, Db(rows, legacy, None), None, [];
    }

    ghost predicate Valid()
      reads this
    {
      DbOk(ca, db, commits) && CommitsOk(ca, commits) && (sink.Some? ==> IsCommit(commits, sink.value))
    }

    /** issueNodeCRL: the next number over the issuer's rows. */
    method IssueNodeCRL(now: int) returns (number: nat)
      modifies this`db
      ensures db == Issue(ca, old(db), now) && db.crl.Some? && number == db.crl.value.number
      ensures db.rows == old(db).rows && db.legacy == old(db).legacy
      ensures IssuedOver(ca, old(db).crl, db.rows, now, db.crl)
    {
      number := 1;
      if db.crl.Some? {
        number := db.crl.value.number + 1;
      }
      var rows := set c | c in db.rows && c.issuer == ca.issuer;
      var entries: map<nat, int> := map[];
      var rest := rows;
      while rest != {}
        invariant rest <= rows
        invariant forall k :: k in entries <==> Cert(ca.issuer, k) in rows - rest
        invariant forall k :: k in entries ==> entries[k] == db.rows[Cert(ca.issuer, k)].revokedAt
        decreases |rest|
      {
        var c :| c in rest;
        entries := entries[c.leaf := db.rows[c].revokedAt];
        rest := rest - {c};
      }
      assert entries == ListByIssuer(db.rows, ca.issuer);
      var nextUpdate := now + Validity;
      if nextUpdate > ca.notAfter {
        nextUpdate := ca.notAfter;
      }
      db := db.(crl := Some(Crl(number, entries, now, nextUpdate)));
    }

    /** The body of RevokeNodeCertificate's transaction. */
    method RevokeTx(node: nat, leaf: nat, now: int) returns (number: Option<nat>)
      modifies this`db
      ensures number.None? <==> Transact(ca, old(db), Op.Revoke(node, leaf), now).None?
      ensures number.Some? ==> Some(db) == Transact(ca, old(db), Op.Revoke(node, leaf), now)
                               && db.crl.Some? && number.value == db.crl.value.number
    {
      var c := Cert(ca.issuer, leaf);
      if c in db.rows {
        if db.rows[c].node != node || db.crl.None? {
          return None;
        }
        return Some(db.crl.value.number);
      }
      db := db.(rows := db.rows[c := Revocation(node, now)]);
      var n := IssueNodeCRL(now);
      return Some(n);
    }

    /** The body of EnsureCurrentNodeCRL's transaction. */
    method EnsureTx(renewBefore: nat, now: int) returns (number: nat)
      modifies this`db
      ensures Some(db) == Transact(ca, old(db), Op.Ensure(renewBefore), now)
      ensures db.crl.Some? && number == db.crl.value.number
    {
      if db.crl.None? || db.crl.value.nextUpdate <= now + renewBefore {
        number := IssueNodeCRL(now);
      } else {
        number := db.crl.value.number;
      }
    }

    /** publishCurrentNodeCRL: the sink is written whole or not at all, and may be written and still fail. */
    method PublishCurrent(readFails: bool, write: Fault) returns (ok: bool)
      modifies this`sink
      ensures sink == if readFails || db.crl.None? || write.Failed? then old(sink) else db.crl
      ensures ok <==> !readFails && (db.crl.None? || write.Fine?)
    {
      if readFails {
        return false;
      }
      if db.crl.None? {
        return true;
      }
      if !write.Failed? {
        sink := db.crl;
      }
      return write.Fine?;
    }

    /** Ends the transaction of `op` that began at `before`: commits, perhaps reporting failure all the
        same, or rolls back. */
    method EndTx(before: Db, op: Op, now: int, fault: Fault) returns (ok: bool)
      requires DbOk(ca, before, commits) && CommitsOk(ca, commits) && (sink.Some? ==> IsCommit(commits, sink.value))
      requires Some(db) == Transact(ca, before, op, now)
      modifies this`db, this`commits
      ensures Valid() && old(commits) <= commits
      ensures db == if fault.Failed? then before else old(db)
      ensures ok <==> fault.Fine?
      ensures ok ==> db.crl.Some? && Lists(db.crl.value, Leaves(op)) && IsCommit(commits, db.crl.value)
      ensures commits == if !fault.Failed? && db.crl != before.crl && db.crl.Some?
                         then old(commits) + [db.crl.value] else old(commits)
    {
      if fault.Failed? {
        db := before;
        return false;
      }
      CommittedListsLeaves(ca, before, op, now, commits);
      hide Transact, ListByIssuer;
      ghost var was := commits;
      commits := if db.crl != before.crl && db.crl.Some? then commits + [db.crl.value] else commits;
      assert forall i :: 0 <= i < |was| ==> commits[i] == was[i];
      return fault.Fine?;
    }

    /** RevokeNodeCertificate: on success the sink lists the leaf; on failure the revocation is there in
        full, list and all, or not at all. */
    method RevokeNodeCertificate(node: nat, issuer: nat, leaf: nat, now: int, commit: Fault, readFails: bool,
                                 write: Fault)
      returns (ok: bool)
      requires Valid()
      modifies this
      ensures Valid() && old(commits) <= commits
      ensures issuer != ca.issuer ==> !ok && db == old(db) && sink == old(sink)
      ensures db == old(db) || Some(db) == Transact(ca, old(db), Op.Revoke(node, leaf), now)
      ensures sink == old(sink) || sink == db.crl
      ensures ok ==> sink.Some? && sink == db.crl && leaf in sink.value.entries
      ensures
        var c := Cert(ca.issuer, leaf);
        var may := issuer == ca.issuer && (c !in old(db).rows || (old(db).rows[c].node == node && old(db).crl.Some?));
        && (commit.Fine? && !readFails && write.Fine? ==> (ok <==> may))
        && (!may ==> db == old(db) && commits == old(commits) && sink == old(sink))
        && (may && c in old(db).rows ==> db == old(db) && commits == old(commits))
        && (may && c !in old(db).rows && commit.Fine? ==>
              && db.rows == old(db).rows[c := Revocation(node, now)] && db.legacy == old(db).legacy
              && IssuedOver(ca, old(db).crl, db.rows, now, db.crl) && commits == old(commits) + [db.crl.value])
    {
      if issuer != ca.issuer {
        return false;
      }
      var before := db;
      RevokeTransacts(ca, db, node, leaf, now);
      var number := RevokeTx(node, leaf, now);
      hide Transact, DbOk, CommitsOk;
      if number.None? {
        db := before;
        return false;
      }
      var committed := EndTx(before, Op.Revoke(node, leaf), now, commit);
      if !committed {
        return false;
      }
      assert leaf in Leaves(Op.Revoke(node, leaf));
      ok := PublishCurrent(readFails, write);
    }

    /** EnsureCurrentNodeCRL, undisturbed: on success the sink runs beyond now + renewBefore exactly when
        the issuer does. */
    method EnsureCurrentNodeCRL(renewBefore: nat, now: int, commit: Fault, readFails: bool, write: Fault)
      returns (ok: bool)
      requires Valid()
      modifies this
      ensures Valid() && old(commits) <= commits
      ensures db == old(db) || Some(db) == Transact(ca, old(db), Op.Ensure(renewBefore), now)
      ensures renewBefore >= Validity ==> !ok && db == old(db) && sink == old(sink)
      ensures ok ==> sink.Some? && sink == db.crl
                     && (sink.value.nextUpdate > now + renewBefore <==> ca.notAfter > now + renewBefore)
      ensures renewBefore < 24 * 3600 && commit.Fine? && !readFails && write.Fine? ==> ok
      ensures db.rows == old(db).rows && db.legacy == old(db).legacy
      ensures old(db).crl.Some? && old(db).crl.value.nextUpdate > now + renewBefore ==> db == old(db)
      ensures (old(db).crl.None? || old(db).crl.value.nextUpdate <= now + renewBefore) && ok ==>
                IssuedOver(ca, old(db).crl, db.rows, now, db.crl)
    {
      if renewBefore >= Validity {
        return false;
      }
      var before := db;
      EnsureTransacts(ca, db, renewBefore, now);
      var _ := EnsureTx(renewBefore, now);
      EnsureRunsBeyond(ca, before, renewBefore, now, commits);
      hide Transact, DbOk, CommitsOk;
      var committed := EndTx(before, Op.Ensure(renewBefore), now, commit);
      if !committed {
        return false;
      }
      ok := PublishCurrent(readFails, write);
    }
  }
}
