/** What the session store's operations leave behind, row by row and notice by notice. */
module StoreResults {
  import opened Codec
  import opened RefreshFamilies
  import opened FamilyFeed

  // ------------------------------------------------------------------ rows

  /** A row goes in under a new name, if its family has fewer than 384 rows whose access tokens outlast its
      birth and its account fewer than 384 rows born with it. */
  ghost predicate Inserted(rows: Rows, h: nat, row: Row, ok: bool, rows': Rows) {
    && (ok <==>
          && row.accessExpiresAt > 0 && h !in rows
          && |set k | k in rows && rows[k].family == row.family && rows[k].accessExpiresAt > row.createdAt| < 384
          && |set k | k in rows && rows[k].account == row.account && rows[k].createdAt == row.createdAt| < 384)
    && (ok ==> rows' == rows[h := row])
  }

  lemma InsertMeans(rows: Rows, h: nat, row: Row)
    ensures
      var r := Insert(rows, h, row);
      Inserted(rows, h, row, r.Some?, if r.Some? then r.value else rows)
  {
    assert Retained(rows, row.family, row.createdAt) ==
           set k | k in rows && rows[k].family == row.family && rows[k].accessExpiresAt > row.createdAt;
    assert BornAt(rows, row.account, row.createdAt) ==
           set k | k in rows && rows[k].account == row.account && rows[k].createdAt == row.createdAt;
  }

  /** An unrevoked, unused row is stamped, its successor inserted, and the family's other caches go. */
  ghost predicate Superseded(rows: Rows, h: nat, next: nat, successor: Row, pair: Pair, now: int, ok: bool,
                             rows': Rows) {
    && (ok ==> h in rows && !rows[h].revoked && rows[h].supersededBy.None?)
    && (h in rows && !rows[h].revoked && rows[h].supersededBy.None? ==>
          && (ok <==>
                && successor.accessExpiresAt > 0 && next !in rows
                && |set k | k in rows && rows[k].family == successor.family
                            && rows[k].accessExpiresAt > successor.createdAt| < 384
                && |set k | k in rows && rows[k].account == successor.account
                            && rows[k].createdAt == successor.createdAt| < 384)
          && (ok ==>
                && rows'.Keys == rows.Keys + {next} && rows'[next] == successor
                && rows'[h] == rows[h].(supersededBy := Some(next), supersededAt := now, cache := Some(pair))
                && forall k :: k in rows && k != h ==>
                     rows'[k] == if rows[k].family == successor.family then rows[k].(cache := None) else rows[k]))
  }

  lemma SupersedeMeans(rows: Rows, h: nat, next: nat, successor: Row, pair: Pair, now: int)
    ensures
      var r := Supersede(rows, h, next, successor, pair, now);
      Superseded(rows, h, next, successor, pair, now, r.Some?, if r.Some? then r.value else rows)
  {
    var cleared := ClearCaches(rows, successor.family, h);
    assert h in rows ==> cleared[h] == rows[h];
    if h in rows && !rows[h].revoked && rows[h].supersededBy.None? {
      var stamped := cleared[h := cleared[h].(supersededBy := Some(next), supersededAt := now, cache := Some(pair))];
      InsertMeans(stamped, next, successor);
      SameCounts(rows, stamped, successor);
      hide Insert;
    }
  }

  lemma SameCounts(rows: Rows, rows': Rows, row: Row)
    requires rows'.Keys == rows.Keys
    requires forall k :: k in rows ==>
               rows'[k].(supersededBy := None, supersededAt := 0, cache := None)
               == rows[k].(supersededBy := None, supersededAt := 0, cache := None)
    ensures (set k | k in rows && rows[k].family == row.family && rows[k].accessExpiresAt > row.createdAt)
            == set k | k in rows' && rows'[k].family == row.family && rows'[k].accessExpiresAt > row.createdAt
    ensures (set k | k in rows && rows[k].account == row.account && rows[k].createdAt == row.createdAt)
            == set k | k in rows' && rows'[k].account == row.account && rows'[k].createdAt == row.createdAt
  {
    forall k | k in rows
      ensures k in rows' && rows'[k].family == rows[k].family && rows'[k].account == rows[k].account
      ensures rows'[k].accessExpiresAt == rows[k].accessExpiresAt && rows'[k].createdAt == rows[k].createdAt
    {
      assert k in rows.Keys;
    }
    assert forall k :: k in rows' ==> k in rows'.Keys;
  }

  /** A family's rows are revoked and lose their caches; the others are as they were. */
  ghost predicate FamilyGone(rows: Rows, family: nat, rows': Rows) {
    rows'.Keys == rows.Keys
    && forall h :: h in rows ==>
         rows'[h] == if rows[h].family == family then rows[h].(revoked := true, cache := None) else rows[h]
  }

  /** The same for an account. */
  ghost predicate AccountGone(rows: Rows, account: nat, rows': Rows) {
    rows'.Keys == rows.Keys
    && forall h :: h in rows ==>
         rows'[h] == if rows[h].account == account then rows[h].(revoked := true, cache := None) else rows[h]
  }

  ghost predicate TokenOf(t: Token, r: Row) {
    t.retainUntil == r.accessExpiresAt && (t.id == r.cp || t.id == r.node)
  }

  /** Both access tokens of each of the family's unrevoked rows, unless they have expired. */
  ghost predicate FamilyTokens(rows: Rows, family: nat, now: int, tokens: set<Token>) {
    forall t :: t in tokens <==>
      exists h :: h in rows && rows[h].family == family && !rows[h].revoked && now < rows[h].accessExpiresAt
                  && TokenOf(t, rows[h])
  }

  /** Of an account's, those that are not older than the cutoff. */
  ghost predicate AccountTokens(rows: Rows, account: nat, now: int, tokens: set<Token>) {
    forall t :: t in tokens <==>
      exists h :: h in rows && rows[h].account == account && !rows[h].revoked && now < rows[h].accessExpiresAt
                  && now <= rows[h].createdAt && TokenOf(t, rows[h])
  }

  lemma RevokeFamilyMeans(rows: Rows, family: nat, now: int)
    ensures FamilyGone(rows, family, RevokeFamily(rows, family))
    ensures FamilyTokens(rows, family, now, Tokens(rows, LiveOfFamily(rows, family, now)))
  {
  }

  lemma RevokeAccountMeans(rows: Rows, account: nat, now: int)
    ensures AccountGone(rows, account, RevokeAccount(rows, account))
    ensures AccountTokens(rows, account, now, Tokens(rows, LiveOfAccount(rows, account, now)))
  {
  }

  // ------------------------------------------------------------------ notices

  predicate Wide(n: Notice, account: nat) {
    n.account == account && n.family.None?
  }

  /** Of the account-wide notices the one with the latest cutoff, of several the newest. */
  ghost predicate IsKeeper(feed: seq<Notice>, account: nat, k: Notice) {
    && k in feed && Wide(k, account)
    && forall n :: n in feed && Wide(n, account) ==> n.cutoff < k.cutoff || (n.cutoff == k.cutoff && n.num <= k.num)
  }

  /** The tokens of the account's notices with a cutoff. */
  ghost predicate SharedTokens(feed: seq<Notice>, account: nat, cutoff: int, tokens: set<Token>) {
    forall t :: t in tokens <==> exists n :: n in feed && Wide(n, account) && n.cutoff == cutoff && t in n.tokens
  }

  /** The keeper alone stays of the account's notices, with the tokens of those that share its cutoff, unless
      they are more than 1024. */
  ghost predicate CompactsTo(feed: seq<Notice>, account: nat, ok: bool, feed': seq<Notice>) {
    exists k, tokens :: CompactsBy(feed, account, ok, feed', k, tokens)
  }

  ghost predicate CompactsBy(feed: seq<Notice>, account: nat, ok: bool, feed': seq<Notice>, k: Notice,
                             tokens: set<Token>) {
    && IsKeeper(feed, account, k) && SharedTokens(feed, account, k.cutoff, tokens) && (ok <==> |tokens| <= 1024)
    && (ok ==>
          && Increasing(feed')
          && forall n :: n in feed' <==> (n in feed && !Wide(n, account)) || n == k.(tokens := tokens))
  }

  lemma {:induction false} KeeperIs(feed: seq<Notice>, account: nat)
    requires Increasing(feed) && Keeper(feed, account).Some?
    ensures IsKeeper(feed, account, Keeper(feed, account).value)
    decreases |feed|
  {
    var front, last := feed[..|feed| - 1], feed[|feed| - 1];
    assert feed == front + [last];
    FrontIncreasing(feed);
    if Keeper(front, account).Some? {
      KeeperIs(front, account);
      KeeperOfOneMore(front, last, account, Keeper(front, account).value);
    }
    hide Increasing;
  }

  lemma FrontIncreasing(feed: seq<Notice>)
    requires feed != [] && Increasing(feed)
    ensures Increasing(feed[..|feed| - 1]) && forall n :: n in feed[..|feed| - 1] ==> n.num < feed[|feed| - 1].num
  {
  }

  lemma KeeperOfOneMore(front: seq<Notice>, last: Notice, account: nat, k: Notice)
    requires IsKeeper(front, account, k) && forall n :: n in front ==> n.num < last.num
    ensures IsKeeper(front + [last], account, if Wide(last, account) && k.cutoff <= last.cutoff then last else k)
  {
  }

  lemma CompactMeans(feed: seq<Notice>, account: nat)
    requires Increasing(feed) && Keeper(feed, account).Some?
    ensures
      var r := Compact(feed, account);
      CompactsTo(feed, account, r.Some?, if r.Some? then r.value else feed)
  {
    var k, kept := Keeper(feed, account).value, KeptNotice(feed, account);
    KeeperIs(feed, account);
    KeepIncreasing(feed, account, kept);
    var r := Compact(feed, account);
    assert CompactsBy(feed, account, r.Some?, if r.Some? then r.value else feed, k, kept.tokens);
  }

  /** Tokens that have expired go, and family notices with none left. */
  ghost predicate PrunesTo(feed: seq<Notice>, now: int, feed': seq<Notice>) {
    && (forall m :: m in feed' <==> exists n :: n in feed && Prunes(n, now, m))
    && (Increasing(feed) ==> Increasing(feed'))
  }

  lemma PrunedMeans(feed: seq<Notice>, now: int)
    ensures PrunesTo(feed, now, Pruned(feed, now))
  {
    if Increasing(feed) {
      PrunedIncreasing(feed, now);
    }
    forall n, m | Prunes(n, now, m)
      ensures m == Trimmed(n, now) && !Spent(n, now)
    {
      assert m.tokens == Trimmed(n, now).tokens;
    }
    forall n | !Spent(n, now)
      ensures Prunes(n, now, Trimmed(n, now))
    {
    }
  }

  ghost predicate Prunes(n: Notice, now: int, m: Notice) {
    && m == n.(tokens := m.tokens) && (forall t :: t in m.tokens <==> t in n.tokens && now < t.retainUntil)
    && (n.family.None? || m.tokens != {})
  }

  // ------------------------------------------------------------------ transactions

  /** A family is revoked and its live tokens announced under the next number, if there are any; with more than
      1024 of them nothing happens. */
  ghost predicate FamilyAnnounced(s: State, account: nat, family: nat, now: int, done: bool, t: State) {
    exists tokens :: FamilyTokens(s.rows, family, now, tokens)
        && FamilyAnnouncedBy(s, account, family, now, done, t, tokens)
  }

  ghost predicate FamilyAnnouncedBy(s: State, account: nat, family: nat, now: int, done: bool, t: State,
                                    tokens: set<Token>) {
    && (done <==> |tokens| <= 1024) && t.clock == s.clock && t.grants == s.grants
    && if !done then t == s
       else
         && FamilyGone(s.rows, family, t.rows)
         && t.feed == (if tokens == {} then s.feed
                       else s.feed + [Notice(s.issued + 1, account, Some(family), now, 0, tokens)])
         && t.issued == if tokens == {} then s.issued else s.issued + 1
  }

  lemma RevokeOneMeans(s: State, account: nat, family: nat, now: int)
    ensures
      var r := RevokeOne(s, account, family, now);
      FamilyAnnounced(s, account, family, now, r.Some?, OrElse(r, s))
  {
    RevokeFamilyMeans(s.rows, family, now);
    var r, tokens := RevokeOne(s, account, family, now), Tokens(s.rows, LiveOfFamily(s.rows, family, now));
    hide Tokens, RevokeFamily, FamilyTokens;
    assert FamilyAnnouncedBy(s, account, family, now, r.Some?, OrElse(r, s), tokens);
  }

  /** All of an account is revoked, under the next number and with the clock as cutoff, and its notices compacted;
      if the notice or the one kept names more than 1024 tokens, nothing happens. */
  ghost predicate AccountAnnounced(s: State, account: nat, now: int, done: bool, t: State) {
    exists tokens, fits, compacted :: AccountAnnouncedBy(s, account, now, done, t, tokens, fits, compacted)
  }

  ghost predicate AccountAnnouncedBy(s: State, account: nat, now: int, done: bool, t: State, tokens: set<Token>,
                                     fits: bool, compacted: seq<Notice>)
  {
    && AccountTokens(s.rows, account, now, tokens)
    && CompactsTo(s.feed + [Notice(s.issued + 1, account, None, now, now, tokens)], account, fits, compacted)
    && (done <==> |tokens| <= 1024 && fits)
    && if !done then t == s
       else
         && t == s.(rows := t.rows, feed := compacted, issued := s.issued + 1)
         && AccountGone(s.rows, account, t.rows)
  }

  lemma RevokeAllMeans(s: State, account: nat, now: int)
    requires Increasing(s.feed) && forall n :: n in s.feed ==> n.num <= s.issued
    ensures
      var r := RevokeAll(s, account, now);
      AccountAnnounced(s, account, now, r.Some?, OrElse(r, s))
  {
    var r, tokens := RevokeAll(s, account, now), Tokens(s.rows, LiveOfAccount(s.rows, account, now));
    var n := Notice(s.issued + 1, account, None, now, now, tokens);
    hide *;
    RevokeAccountMeans(s.rows, account, now);
    AppendedCompacts(s.feed, n);
    RevokeAllParts(s, account, now, tokens, n);
    Announces(s, account, now, r, tokens, Compact(s.feed + [n], account), RevokeAccount(s.rows, account));
  }

  lemma Announces(s: State, account: nat, now: int, r: Option<State>, tokens: set<Token>, c: Option<seq<Notice>>,
                  rows: Rows)
    requires AccountTokens(s.rows, account, now, tokens) && AccountGone(s.rows, account, rows)
    requires CompactsTo(s.feed + [Notice(s.issued + 1, account, None, now, now, tokens)], account, c.Some?,
                        if c.Some? then c.value else s.feed + [Notice(s.issued + 1, account, None, now, now, tokens)])
    requires r == if |tokens| > 1024 || c.None? then None
                  else Some(s.(rows := rows, feed := c.value, issued := s.issued + 1))
    ensures AccountAnnounced(s, account, now, r.Some?, OrElse(r, s))
  {
    hide AccountTokens, AccountGone, CompactsTo;
    var feed := s.feed + [Notice(s.issued + 1, account, None, now, now, tokens)];
    assert AccountAnnouncedBy(s, account, now, r.Some?, OrElse(r, s), tokens, c.Some?,
                              if c.Some? then c.value else feed);
  }

  lemma AppendedCompacts(feed: seq<Notice>, n: Notice)
    requires Increasing(feed) && (forall m :: m in feed ==> m.num < n.num) && n.family.None?
    ensures Keeper(feed + [n], n.account).Some?
    ensures
      var c := Compact(feed + [n], n.account);
      CompactsTo(feed + [n], n.account, c.Some?, if c.Some? then c.value else feed + [n])
  {
    assert OfAccount(n, n.account) && n in feed + [n];
    IncreasingAppended(feed, n);
    CompactMeans(feed + [n], n.account);
  }

  lemma RevokeAllParts(s: State, account: nat, now: int, tokens: set<Token>, n: Notice)
    requires tokens == Tokens(s.rows, LiveOfAccount(s.rows, account, now))
    requires n == Notice(s.issued + 1, account, None, now, now, tokens)
    ensures
      var c := (assert OfAccount(n, account) && n in s.feed + [n]; Compact(s.feed + [n], account));
      RevokeAll(s, account, now) ==
        if |tokens| > 1024 || c.None? then None
        else Some(s.(rows := RevokeAccount(s.rows, account), feed := c.value, issued := s.issued + 1))
  {
    hide Tokens, LiveOfAccount, RevokeAccount, Compact, Keeper;
  }

  /** What is handed out goes on record, against the token presented, and nothing else does. */
  lemma EveryAnswerIsRecorded(s: State, h: nat, proofOk: bool, fails: bool, names: Names, now: int)
    ensures
      var (t, a) := Refresh(s, h, proofOk, fails, names, now);
      t.grants == s.grants + (if a.Granted? then [Grant(h, a.pair, now)] else []) && t.clock == s.clock
  {
    hide Tokens, AppendFamily, Rotated, Refuse, Replayable;
  }

  /** Reuse, when it is not answered from the cache, is a revocation of the family like a logout's. */
  lemma ReuseAnnounces(s: State, h: nat, names: Names, now: int)
    requires h in s.rows && Refuse(s.rows, h, now, true).None? && s.rows[h].supersededBy.Some?
    requires Refresh(s, h, true, false, names, now).1.Refused?
    ensures
      var (t, a) := Refresh(s, h, true, false, names, now);
      FamilyAnnounced(s, s.rows[h].account, s.rows[h].family, now, a.why == FamilyRevoked, t)
      && (a.why == FamilyRevoked || a.why == StoreError)
  {
    RevokeOneMeans(s, s.rows[h].account, s.rows[h].family, now);
    hide FamilyAnnounced, RevokeOne, Refuse;
  }

  /** A login below the cap is a birth alone; at or above it an oldest family is revoked first, and if that is refused
      the login ends. */
  ghost predicate LogsIn(s: State, cap: nat, oldest: nat, h: nat, row: Row, now: int, ok: bool, t: State) {
    exists mid, freed ::
      && (if |set k | k in s.rows && s.rows[k].account == row.account && !s.rows[k].revoked :: s.rows[k].family| < cap
          then freed && mid == s else FamilyAnnounced(s, row.account, oldest, now, freed, mid))
      && LogsInAfter(mid, freed, h, row, ok, t)
  }

  ghost predicate LogsInAfter(mid: State, freed: bool, h: nat, row: Row, ok: bool, t: State) {
    if freed then
      && Inserted(mid.rows, h, row, ok, t.rows) && (!ok ==> t.rows == mid.rows)
      && t == mid.(rows := t.rows)
    else !ok && t == mid
  }
}
