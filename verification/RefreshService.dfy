/** Refreshing, logging in and logging out as they run: transactions over the session rows and the feed,
    rolled back when a step fails. */
module RefreshService {
  import opened Codec
  import opened RefreshFamilies
  import opened FamilyCap
  import opened FamilyFeed
  import opened StoreResults

  class SessionStore {
    var rows: Rows
    var feed: seq<Notice>
    var issued: nat

    constructor ()
      ensures rows == map[] && feed == [] && issued == 0
    {
      rows, feed, issued := map[], [], 0;
    }

    method Insert(h: nat, row: Row) returns (ok: bool)
      modifies this`rows
      ensures ok <==> RefreshFamilies.Insert(old(rows), h, row).Some?
      ensures rows == if ok then RefreshFamilies.Insert(old(rows), h, row).value else old(rows)
      ensures Inserted(old(rows), h, row, ok, rows) && (!ok ==> rows == old(rows))
    {
      InsertMeans(rows, h, row);
      if row.accessExpiresAt <= 0 || |Retained(rows, row.family, row.createdAt)| >= MaxRetained {
        return false;
      }
      if |BornAt(rows, row.account, row.createdAt)| >= MaxRetained || h in rows {
        return false;
      }
      rows := rows[h := row];
      return true;
    }

    /** Leaves what it had already written when it fails: the transaction around it rolls back. */
    method Supersede(h: nat, next: nat, successor: Row, pair: Pair, now: int) returns (ok: bool)
      modifies this`rows
      ensures ok <==> RefreshFamilies.Supersede(old(rows), h, next, successor, pair, now).Some?
      ensures ok ==> rows == RefreshFamilies.Supersede(old(rows), h, next, successor, pair, now).value
      ensures Superseded(old(rows), h, next, successor, pair, now, ok, if ok then rows else old(rows))
    {
      SupersedeMeans(rows, h, next, successor, pair, now);
      hide Superseded, Inserted;
      rows := ClearCaches(rows, successor.family, h);
      if h !in rows || rows[h].revoked || rows[h].supersededBy.Some? {
        return false;
      }
      rows := rows[h := rows[h].(supersededBy := Some(next), supersededAt := now, cache := Some(pair))];
      ok := Insert(next, successor);
    }

    method RevokeFamily(family: nat, now: int) returns (tokens: set<Token>)
      modifies this`rows
      ensures rows == RefreshFamilies.RevokeFamily(old(rows), family)
      ensures tokens == Tokens(old(rows), LiveOfFamily(old(rows), family, now))
      ensures FamilyGone(old(rows), family, rows) && FamilyTokens(old(rows), family, now, tokens)
    {
      RevokeFamilyMeans(rows, family, now);
      tokens := Tokens(rows, LiveOfFamily(rows, family, now));
      rows := RefreshFamilies.RevokeFamily(rows, family);
    }

    method RevokeAccount(account: nat, now: int) returns (tokens: set<Token>)
      modifies this`rows
      ensures rows == RefreshFamilies.RevokeAccount(old(rows), account)
      ensures tokens == Tokens(old(rows), LiveOfAccount(old(rows), account, now))
      ensures AccountGone(old(rows), account, rows) && AccountTokens(old(rows), account, now, tokens)
    {
      RevokeAccountMeans(rows, account, now);
      tokens := Tokens(rows, LiveOfAccount(rows, account, now));
      rows := RefreshFamilies.RevokeAccount(rows, account);
    }

    /** Revocations().Append: gives the notice its number, refuses one that names too many tokens, and
        compacts after an account-wide one. Leaves what it had already written when it fails. */
    method Append(n: Notice) returns (ok: bool)
      requires n.family.None? ==> n.cutoff == n.revokedAt
      requires n.family.Some? ==> n.cutoff == 0 && n.tokens != {}
      modifies this`feed, this`issued
      ensures
        var r := if n.family.Some?
            then AppendFamily(old(feed), old(issued) + 1, n.account, n.family.value, n.tokens, n.revokedAt)
                 else AppendAccount(old(feed), old(issued) + 1, n.account, n.tokens, n.revokedAt);
        (ok <==> r.Some?) && (ok ==> feed == r.value && issued == old(issued) + 1)
      ensures n.family.Some? ==>
                (ok <==> |n.tokens| <= 1024) && (ok ==> feed == old(feed) + [n.(num := old(issued) + 1)])
      ensures n.family.None? && Increasing(old(feed)) && (forall m :: m in old(feed) ==> m.num <= old(issued)) ==>
                if |n.tokens| > 1024 then !ok
                else CompactsTo(old(feed) + [n.(num := old(issued) + 1)], n.account, ok, feed)
    {
      if |n.tokens| > MaxTokens {
        return false;
      }
      issued := issued + 1;
      feed := feed + [n.(num := issued)];
      ok := true;
      if n.family.None? {
        assert OfAccount(n.(num := issued), n.account) && n.(num := issued) in feed;
        if Increasing(old(feed)) && forall m :: m in old(feed) ==> m.num <= old(issued) {
          IncreasingAppended(old(feed), n.(num := issued));
        }
        ok := CompactAccount(n.account);
      }
    }

    /** The keeper's selection: by cutoff, then by number, both descending. */
    method SelectKeeper(account: nat) returns (keep: Option<Notice>)
      ensures keep == Keeper(feed, account)
    {
      keep := None;
      var i := 0;
      while i < |feed|
        invariant 0 <= i <= |feed| && keep == Keeper(feed[..i], account)
      {
        assert feed[..i + 1][..i] == feed[..i];
        if OfAccount(feed[i], account) && (keep.None? || keep.value.cutoff <= feed[i].cutoff) {
          keep := Some(feed[i]);
        }
        i := i + 1;
      }
      assert feed[..i] == feed;
    }

    /** Deleting what the keeper supersedes. */
    method KeepOnly(account: nat, kept: Notice)
      modifies this`feed
      ensures feed == Keep(old(feed), account, kept)
    {
      var left: seq<Notice> := [];
      var i := 0;
      while i < |feed|
        invariant 0 <= i <= |feed| && left == Keep(feed[..i], account, kept) && feed == old(feed)
      {
        assert feed[..i + 1][..i] == feed[..i];
        if !OfAccount(feed[i], account) {
          left := left + [feed[i]];
        } else if feed[i].num == kept.num {
          left := left + [kept];
        }
        i := i + 1;
      }
      assert feed[..i] == feed;
      feed := left;
    }

    /** compactAccountRevocations: the notice with the latest cutoff stays, with the tokens of those that
        share it; the account's others go. */
    method CompactAccount(account: nat) returns (ok: bool)
      requires Keeper(feed, account).Some?
      modifies this`feed
      ensures ok <==> Compact(old(feed), account).Some?
      ensures feed == if ok then Compact(old(feed), account).value else old(feed)
      ensures Increasing(old(feed)) ==> CompactsTo(old(feed), account, ok, feed)
    {
      if Increasing(feed) {
        CompactMeans(feed, account);
      }
      var keep := SelectKeeper(account);
      var kept := keep.value.(tokens := Merged(feed, account, keep.value.cutoff));
      ok := |kept.tokens| <= MaxTokens;
      if ok {
        KeepOnly(account, kept);
      }
    }

    /** What a page call does to the feed before it reads: expired tokens go, then family notices left with
        none, and every account with an account-wide notice is compacted. */
    method Prune(now: int)
      requires Settled(feed)
      modifies this`feed
      ensures feed == Pruned(old(feed), now) && Settled(feed)
      ensures PrunesTo(old(feed), now, feed)
    {
      PrunedMeans(feed, now);
      PruningSettles(feed, now);
      hide Settled, PrunesTo;
      var left := Unexpired(now);
      feed := left;
      CompactAll(set n | n in feed && n.family.None? :: n.account);
    }

    method Unexpired(now: int) returns (left: seq<Notice>)
      ensures left == Pruned(feed, now)
    {
      left := [];
      for i := 0 to |feed|
        invariant left == Pruned(feed[..i], now)
      {
        assert feed[..i + 1][..i] == feed[..i];
        var n := Trimmed(feed[i], now);
        if n.family.None? || n.tokens != {} {
          left := left + [n];
        }
      }
      assert feed[..|feed|] == feed;
    }

    /** The loop over the accounts with a notice, which changes nothing. */
    method CompactAll(accounts: set<nat>)
      requires Settled(feed) && forall a :: a in accounts ==> exists n :: n in feed && OfAccount(n, a)
      modifies this`feed
      ensures feed == old(feed)
    {
      var rest := accounts;
      while rest != {}
        invariant feed == old(feed) && rest <= accounts
        decreases |rest|
      {
        var a :| a in rest;
        CompactingOne(feed, a);
        var ok := CompactAccount(a);
        rest := rest - {a};
      }
    }
  }

  /** As every transaction leaves the feed: numbered upwards, one account-wide notice per account, none too
      long. */
  predicate Settled(feed: seq<Notice>) {
    Increasing(feed) && OnePerAccount(feed) && forall n :: n in feed ==> |n.tokens| <= MaxTokens
  }

  lemma PruningSettles(feed: seq<Notice>, now: int)
    requires Settled(feed)
    ensures Settled(Pruned(feed, now))
  {
    PrunedIncreasing(feed, now);
    var left := Pruned(feed, now);
    forall n | n in left
      ensures |n.tokens| <= MaxTokens
    {
      var m :| m in feed && n == Trimmed(m, now) && !Spent(m, now);
      SubsetIsSmaller(n.tokens, m.tokens);
    }
    forall m, n | m in left && n in left && m.family.None? && OfAccount(n, m.account)
      ensures m == n
    {
      var m' :| m' in feed && m == Trimmed(m', now);
      var n' :| n' in feed && n == Trimmed(n', now);
      assert OfAccount(n', m'.account);
    }
  }

  lemma ReachableIsSettled(s: State)
    requires Reachable(s)
    ensures Settled(s.feed)
  {
    ReachableFeed(s);
    assert forall n :: n in s.feed ==> NoticeOk(s, n);
  }

  class IdP {
    const store: SessionStore
    ghost var grants: seq<Grant>

    constructor (store: SessionStore)
      ensures this.store == store && grants == []
    {
      this.store, grants := store, [];
    }

    ghost function Snapshot(clock: int): State
      reads this, store
    {
      State(store.rows, store.feed, store.issued, clock, grants)
    }

    /** RevokeFamily and appendFamilyRevocation, within a transaction. */
    method RevokeAndRecord(account: nat, family: nat, now: int, ghost clock: int) returns (ok: bool)
      modifies store
      ensures ok <==> RevokeOne(old(Snapshot(clock)), account, family, now).Some?
      ensures ok ==> Snapshot(clock) == RevokeOne(old(Snapshot(clock)), account, family, now).value
    {
      var tokens := store.RevokeFamily(family, now);
      ok := true;
      if tokens != {} {
        ok := store.Append(Notice(0, account, Some(family), now, 0, tokens));
      }
    }

    /** RevokeAccount and appendAccountRevocation, within a transaction. */
    method RevokeAllAndRecord(account: nat, now: int, ghost clock: int) returns (ok: bool)
      modifies store
      ensures ok <==> RevokeAll(old(Snapshot(clock)), account, now).Some?
      ensures ok ==> Snapshot(clock) == RevokeAll(old(Snapshot(clock)), account, now).value
    {
      hide Tokens, LiveOfAccount, AppendAccount, AppendFamily;
      var tokens := store.RevokeAccount(account, now);
      ok := store.Append(Notice(0, account, None, now, now, tokens));
    }

    /** handleRefresh: the answer and the store afterwards are those of the protocol's step, whatever the
        clock shows when the transaction runs. The revocation that reuse triggers is committed although the
        caller gets an error; any other failure rolls the transaction back. */
    method HandleRefresh(h: nat, proofOk: bool, fails: bool, names: Names, now: int, ghost clock: int)
      returns (a: Answer)
      modifies this, store
      ensures (Snapshot(clock), a) == Refresh(old(Snapshot(clock)), h, proofOk, fails, names, now)
    {
      var rows, feed, issued := store.rows, store.feed, store.issued;
      var committed, reuseRevoked;
      committed, reuseRevoked, a := RefreshInTx(h, proofOk, fails, names, now, clock);
      if !committed {
        store.rows, store.feed, store.issued := rows, feed, issued;
      } else if reuseRevoked {
        a := Refused(FamilyRevoked);
      } else {
        grants := grants + [Grant(h, a.pair, now)];
      }
    }

    /** The transaction's body: false when it returns an error, whatever it wrote by then. */
    method RefreshInTx(h: nat, proofOk: bool, fails: bool, names: Names, now: int, ghost clock: int)
      returns (ok: bool, reuseRevoked: bool, a: Answer)
      modifies store
      ensures
        var (t, b) := Refresh(old(Snapshot(clock)), h, proofOk, fails, names, now);
        && (ok ==> store.rows == t.rows && store.feed == t.feed && store.issued == t.issued)
        && (ok && !reuseRevoked ==> a == b && a.Granted?)
        && (ok && reuseRevoked ==> b == Refused(FamilyRevoked) && t.grants == old(grants))
        && (!ok ==> a == b && b.Refused? && t == old(Snapshot(clock)))
    {
      if h !in store.rows {
        return false, false, Refused(NotFound);
      }
      var row := store.rows[h];
      if row.revoked {
        return false, false, Refused(FamilyRevoked);
      }
      if now >= row.familyCreatedAt + FamilyMaxAge {
        return false, false, Refused(MaxAge);
      }
      if now >= row.expiresAt {
        return false, false, Refused(Expired);
      }
      if !proofOk {
        return false, false, Refused(BadProof);
      }
      if row.supersededBy.Some? {
        if now - row.supersededAt <= ReplayGrace && row.cache.Some? {
          return !fails, false, if fails then Refused(StoreError) else Granted(row.cache.value);
        }
        var recorded := RevokeAndRecord(row.account, row.family, now, clock);
        return recorded && !fails, true, Refused(if recorded && !fails then FamilyRevoked else StoreError);
      }
      var pair := Pair(names.cp, names.node, names.refresh);
      var rotated := store.Supersede(h, names.refresh,
          Newborn(row.account, row.family, names, now, row.familyCreatedAt), pair, now);
      if !rotated || fails {
        return false, false, Refused(StoreError);
      }
      return true, false, Granted(pair);
    }

    /** serveLogout, for one family or for all of the account's; `now` was read before the session was
        looked up. */
    method Logout(h: nat, everywhere: bool, now: int, ghost clock: int) returns (found: bool, revoked: bool)
      modifies store
      ensures found <==> h in old(store.rows)
      ensures Snapshot(clock) ==
              Next(old(Snapshot(clock)), if everywhere then RefreshFamilies.Event.LogoutEverywhere(h, now)
                                         else RefreshFamilies.Event.Logout(h, now))
      ensures revoked ==> h in store.rows && store.rows[h].revoked
      ensures found && !revoked ==> Snapshot(clock) == old(Snapshot(clock))
      ensures found && !everywhere ==>
                var r := old(store.rows)[h];
                FamilyAnnounced(old(Snapshot(clock)), r.account, r.family, now, revoked, Snapshot(clock))
      ensures found && everywhere && FeedOk(old(Snapshot(clock))) ==>
                AccountAnnounced(old(Snapshot(clock)), old(store.rows)[h].account, now, revoked, Snapshot(clock))
    {
      if h !in store.rows {
        return false, false;
      }
      found := true;
      var row := store.rows[h];
      hide FamilyAnnounced, AccountAnnounced;
      if everywhere {
        revoked := LogoutEverywhere(row.account, now, clock);
      } else {
        revoked := LogoutFamily(row.account, row.family, now, clock);
      }
    }

    method LogoutFamily(account: nat, family: nat, now: int, ghost clock: int) returns (revoked: bool)
      modifies store
      ensures Snapshot(clock) == OrElse(RevokeOne(old(Snapshot(clock)), account, family, now), old(Snapshot(clock)))
      ensures revoked <==> RevokeOne(old(Snapshot(clock)), account, family, now).Some?
      ensures FamilyAnnounced(old(Snapshot(clock)), account, family, now, revoked, Snapshot(clock))
    {
      RevokeOneMeans(Snapshot(clock), account, family, now);
      hide FamilyAnnounced, RevokeOne;
      var rows, feed, issued := store.rows, store.feed, store.issued;
      revoked := RevokeAndRecord(account, family, now, clock);
      if !revoked {
        store.rows, store.feed, store.issued := rows, feed, issued;
      }
    }

    method LogoutEverywhere(account: nat, now: int, ghost clock: int) returns (revoked: bool)
      modifies store
      ensures Snapshot(clock) == OrElse(RevokeAll(old(Snapshot(clock)), account, now), old(Snapshot(clock)))
      ensures revoked <==> RevokeAll(old(Snapshot(clock)), account, now).Some?
      ensures FeedOk(old(Snapshot(clock))) ==>
                AccountAnnounced(old(Snapshot(clock)), account, now, revoked, Snapshot(clock))
    {
      if FeedOk(Snapshot(clock)) {
        RevokeAllMeans(Snapshot(clock), account, now);
      }
      hide AccountAnnounced, RevokeAll;
      var rows, feed, issued := store.rows, store.feed, store.issued;
      revoked := RevokeAllAndRecord(account, now, clock);
      if !revoked {
        store.rows, store.feed, store.issued := rows, feed, issued;
      }
    }

    /** OldestFamily: any row of least birth will do. */
    method OldestFamily(account: nat) returns (family: nat)
      requires Families(store.rows, account) != {}
      ensures Oldest(store.rows, account, family)
      ensures exists h :: h in store.rows && store.rows[h].account == account && !store.rows[h].revoked
                && store.rows[h].family == family
                && forall k :: k in store.rows && store.rows[k].account == account && !store.rows[k].revoked ==>
                     store.rows[h].familyCreatedAt <= store.rows[k].familyCreatedAt
    {
      var live := set h | h in store.rows && store.rows[h].account == account && !store.rows[h].revoked;
      assert live != {} by {
        var f :| f in Families(store.rows, account);
        var h :| h in store.rows && store.rows[h].account == account && !store.rows[h].revoked
            && store.rows[h].family == f;
        assert h in live;
      }
      var best :| best in live;
      var rest := live - {best};
      while rest != {}
        invariant best in live && rest <= live
        invariant forall k :: k in live - rest ==> store.rows[best].familyCreatedAt <= store.rows[k].familyCreatedAt
        decreases |rest|
      {
        var k :| k in rest;
        if store.rows[k].familyCreatedAt < store.rows[best].familyCreatedAt {
          best := k;
        }
        rest := rest - {k};
      }
      family := store.rows[best].family;
      assert forall k :: k in store.rows && store.rows[k].account == account && !store.rows[k].revoked ==> k in live;
    }

    /** enforceCapOrEvict, then the family's birth, with no other login in between. */
    method LogIn(cap: nat, account: nat, family: nat, names: Names, now: int, ghost clock: int)
      returns (ok: bool, ghost oldest: nat)
      requires cap > 0
      modifies store
      ensures Oldest(old(store.rows), account, oldest) || |Families(old(store.rows), account)| < cap
      ensures Snapshot(clock) == SerialLogin(old(Snapshot(clock)), cap, oldest, Birth(account, family, names, now))
      ensures ok ==> names.refresh in store.rows
      ensures
        var row := Row(account, family, names.cp, names.node, now + 15 * 60, now, now + 30 * 86400, now, None, 0, None,
                       false);
        LogsIn(old(Snapshot(clock)), cap, oldest, names.refresh, row, now, ok, Snapshot(clock))
    {
      hide FamilyAnnounced, Inserted;
      ghost var s := Snapshot(clock);
      assert Families(store.rows, account)
          == set k | k in s.rows && s.rows[k].account == account && !s.rows[k].revoked :: s.rows[k].family;
      oldest := 0;
      if |Families(store.rows, account)| >= cap {
        assert Families(store.rows, account) != {};
        var evicted := OldestFamily(account);
        oldest := evicted;
        var rows, feed, issued := store.rows, store.feed, store.issued;
        RevokeOneMeans(s, account, evicted, now);
        var freed := RevokeAndRecord(account, evicted, now, clock);
        if !freed {
          store.rows, store.feed, store.issued := rows, feed, issued;
          assert LogsInAfter(s, false, names.refresh, Newborn(account, family, names, now, now), false, s);
          return false, oldest;
        }
      }
      ghost var mid := Snapshot(clock);
      ok := store.Insert(names.refresh, Newborn(account, family, names, now, now));
      assert LogsInAfter(mid, true, names.refresh, Newborn(account, family, names, now, now), ok, Snapshot(clock));
    }
  }
}
