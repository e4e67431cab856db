/** Families against the revocation feed: what the feed denies, when a logout everywhere loses a denial, and
    which notices the store accepts. */
module FamilyFeed {
  import opened Codec
  import opened RefreshFamilies
  import opened FamilyTheorems

  // ------------------------------------------------------------------ rows and their tokens

  predicate OneAccountPerFamily(rows: Rows) {
    forall x, y :: x in rows && y in rows && rows[x].family == rows[y].family ==> rows[x].account == rows[y].account
  }

  lemma ReachableAccounts(s: State)
    requires Reachable(s)
    ensures OneAccountPerFamily(s.rows)
  {
    forall x, y | x in s.rows && y in s.rows && s.rows[x].family == s.rows[y].family
      ensures s.rows[x].account == s.rows[y].account
    {
      ReachableChained(s, s.rows[x].family);
      var c :| IsChain(s.rows, s.rows[x].family, c);
      var i :| 0 <= i < |c| && c[i] == x;
      var j :| 0 <= j < |c| && c[j] == y;
    }
  }

  function Ids(r: Row): set<nat> {
    {r.cp, r.node}
  }

  /** No two access tokens share an id. */
  predicate Apart(rows: Rows) {
    && (forall x :: x in rows ==> rows[x].cp != rows[x].node)
    && (forall x, y :: x in rows && y in rows && x != y ==> Ids(rows[x]) !! Ids(rows[y]))
  }

  lemma StepKeepsApart(s: State, e: Event)
    requires Apart(s.rows) && Enabled(s, e)
    ensures Apart(Next(s, e).rows)
  {
    hide Tokens, AppendFamily, AppendAccount, Apart;
    StepExtends(s, e);
    var rows, rows' := s.rows, Next(s, e).rows;
    if rows'.Keys == rows.Keys {
      SameIdsApart(rows, rows');
    } else {
      if e.Present? {
        RotationShape(rows, e.token, e.names, e.now);
      }
      OneMoreApart(rows, rows', e.names);
    }
  }

  lemma SameIdsApart(rows: Rows, rows': Rows)
    requires Apart(rows) && Extends(rows, rows') && rows'.Keys == rows.Keys
    ensures Apart(rows')
  {
    assert forall x :: x in rows' ==> x in rows && Ids(rows'[x]) == Ids(rows[x]) && Later(rows[x], rows'[x]);
  }

  lemma OneMoreApart(rows: Rows, rows': Rows, names: Names)
    requires Apart(rows) && Extends(rows, rows') && rows'.Keys == rows.Keys + {names.refresh} && Unused(rows, names)
    requires rows'[names.refresh].cp == names.cp && rows'[names.refresh].node == names.node
    ensures Apart(rows')
  {
    assert forall x :: x in rows ==> Ids(rows'[x]) == Ids(rows[x]) && Later(rows[x], rows'[x]);
  }

  predicate IsTokenOf(k: Token, r: Row) {
    k == CpToken(r) || k == NodeToken(r)
  }

  lemma TokensMembers(rows: Rows, hs: set<nat>, k: Token)
    requires forall h :: h in hs ==> h in rows
    ensures k in Tokens(rows, hs) <==> exists h :: h in hs && IsTokenOf(k, rows[h])
  {
  }

  lemma TokensOfOneMore(rows: Rows, hs: set<nat>, x: nat)
    requires x in rows && x !in hs && forall h :: h in hs ==> h in rows
    ensures Tokens(rows, hs + {x}) == Tokens(rows, hs) + {CpToken(rows[x]), NodeToken(rows[x])}
  {
  }

  lemma TokensElsewhere(rows: Rows, hs: set<nat>, x: nat)
    requires Apart(rows) && x in rows && x !in hs && forall h :: h in hs ==> h in rows
    ensures CpToken(rows[x]) !in Tokens(rows, hs) && NodeToken(rows[x]) !in Tokens(rows, hs)
  {
    forall y | y in hs
      ensures !IsTokenOf(CpToken(rows[x]), rows[y]) && !IsTokenOf(NodeToken(rows[x]), rows[y])
    {
      assert Ids(rows[x]) !! Ids(rows[y]);
      assert rows[x].cp in Ids(rows[x]) && rows[x].node in Ids(rows[x]);
    }
  }

  /** Every row counts twice. */
  lemma {:induction false} CountTokens(rows: Rows, hs: set<nat>)
    requires Apart(rows) && forall h :: h in hs ==> h in rows
    ensures |Tokens(rows, hs)| == 2 * |hs|
    decreases |hs|
  {
    if hs == {} {
      assert Tokens(rows, hs) == {};
    } else {
      var x :| x in hs;
      var rest := hs - {x};
      CountTokens(rows, rest);
      TokensOfOneMore(rows, rest, x);
      TokensElsewhere(rows, rest, x);
      assert CpToken(rows[x]) != NodeToken(rows[x]);
      hide *;
      assert rest + {x} == hs;
      TwoMore(Tokens(rows, rest), CpToken(rows[x]), NodeToken(rows[x]));
    }
  }

  lemma TwoMore<T>(a: set<T>, x: T, y: T)
    requires x !in a && y !in a && x != y
    ensures |a + {x, y}| == |a| + 2
  {
    assert a + {x, y} == (a + {x}) + {y};
  }

  // ------------------------------------------------------------------ what the feed is made of

  predicate Increasing(feed: seq<Notice>) {
    forall i, j :: 0 <= i < j < |feed| ==> feed[i].num < feed[j].num
  }

  predicate OnePerAccount(feed: seq<Notice>) {
    forall m, n :: m in feed && n in feed && m.family.None? && OfAccount(n, m.account) ==> m == n
  }

  /** The notice names tokens of its account's rows, none older than its cutoff. */
  predicate Backed(rows: Rows, n: Notice) {
    forall k :: k in n.tokens ==>
      exists h :: h in rows && IsTokenOf(k, rows[h]) && rows[h].account == n.account
          && (n.family.None? ==> rows[h].createdAt >= n.cutoff)
  }

  /** What the store checks of a notice, and what a consumer checks again. */
  predicate Wellformed(n: Notice) {
    && |n.tokens| <= MaxTokens && 0 < n.revokedAt
    && (if n.family.Some? then n.cutoff == 0 && n.tokens != {} else n.cutoff == n.revokedAt)
    && forall k :: k in n.tokens ==> k.retainUntil > n.revokedAt
  }

  predicate NoticeOk(s: State, n: Notice) {
    0 < n.num <= s.issued && n.revokedAt <= s.clock && Wellformed(n) && Backed(s.rows, n)
  }

  predicate FeedOk(s: State) {
    Increasing(s.feed) && OnePerAccount(s.feed) && forall n :: n in s.feed ==> NoticeOk(s, n)
  }

  lemma BackedLater(rows: Rows, rows': Rows, n: Notice)
    requires Backed(rows, n) && Extends(rows, rows')
    ensures Backed(rows', n)
  {
    forall k | k in n.tokens
      ensures exists h :: h in rows' && IsTokenOf(k, rows'[h]) && rows'[h].account == n.account
                          && (n.family.None? ==> rows'[h].createdAt >= n.cutoff)
    {
      var h :| h in rows && IsTokenOf(k, rows[h]) && rows[h].account == n.account
          && (n.family.None? ==> rows[h].createdAt >= n.cutoff);
      assert Later(rows[h], rows'[h]) && IsTokenOf(k, rows'[h]);
    }
  }

  lemma NoticeStays(s: State, t: State, n: Notice)
    requires NoticeOk(s, n) && Extends(s.rows, t.rows) && s.issued <= t.issued && s.clock <= t.clock
    ensures NoticeOk(t, n)
  {
    hide Wellformed, Backed, Extends;
    BackedLater(s.rows, t.rows, n);
  }

  /** The notice of a logout everywhere, before compaction. */
  function AccountNotice(s: State, account: nat, now: int): Notice {
    Notice(s.issued + 1, account, None, now, now, Tokens(s.rows, LiveOfAccount(s.rows, account, now)))
  }

  /** The one account-wide notice the account has afterwards. */
  function Kept(s: State, account: nat, now: int): Notice {
    var n := AccountNotice(s, account, now);
    assert OfAccount(n, account) && n in s.feed + [n];
    KeptNotice(s.feed + [n], account)
  }

  /** With one notice per account, compaction chooses between the stored one and the new one. */
  lemma CompactionChooses(s: State, account: nat, now: int)
    requires FeedOk(s)
    ensures
      var n, prior := AccountNotice(s, account, now), Keeper(s.feed, account);
      Kept(s, account, now) ==
        if prior.None? || prior.value.cutoff < now then n
        else if prior.value.cutoff == now then n.(tokens := n.tokens + prior.value.tokens)
        else prior.value
  {
    hide Tokens, NoticeOk;
    var n, prior := AccountNotice(s, account, now), Keeper(s.feed, account);
    var feed := s.feed + [n];
    assert feed[..|feed| - 1] == s.feed;
    assert OfAccount(n, account);
    assert Keeper(feed, account) == if prior.None? || prior.value.cutoff <= now then Some(n) else prior;
    MergedTokens(s.feed, n, account);
  }

  lemma MergedTokens(stored: seq<Notice>, n: Notice, account: nat)
    requires OnePerAccount(stored) && OfAccount(n, account)
    ensures
      var prior, k := Keeper(stored, account), Keeper(stored + [n], account);
      k.Some? && Merged(stored + [n], account, k.value.cutoff) ==
        (if n.cutoff == k.value.cutoff then n.tokens else {})
        + if prior.Some? && prior.value.cutoff == k.value.cutoff then prior.value.tokens else {}
  {
    assert n in stored + [n];
    var prior, k := Keeper(stored, account), Keeper(stored + [n], account).value;
    forall m | m in stored && OfAccount(m, account)
      ensures prior == Some(m)
    {
    }
    assert prior.Some? ==> prior.value in stored + [n];
    hide OnePerAccount, Keeper;
  }

  lemma RevokeAllFeed(s: State, account: nat, now: int, n: Notice)
    requires FeedOk(s) && RevokeAll(s, account, now).Some?
    ensures n in RevokeAll(s, account, now).value.feed <==>
            (n in s.feed && !OfAccount(n, account)) || n == Kept(s, account, now)
  {
    hide Tokens, NoticeOk, Increasing, OnePerAccount, KeptNotice;
    var new' := AccountNotice(s, account, now);
    var feed := s.feed + [new'];
    var k := Keeper(feed, account).value;
    assert KeptNotice(feed, account).num == k.num by { KeptKeepsNumber(feed, account); }
    assert k in feed && OfAccount(k, account);
  }

  lemma KeptKeepsNumber(feed: seq<Notice>, account: nat)
    requires Keeper(feed, account).Some?
    ensures KeptNotice(feed, account).num == Keeper(feed, account).value.num
    ensures OfAccount(KeptNotice(feed, account), account)
  {
  }

  lemma {:induction false} KeepIncreasing(feed: seq<Notice>, account: nat, kept: Notice)
    requires Increasing(feed)
    ensures Increasing(Keep(feed, account, kept))
    ensures forall n :: n in Keep(feed, account, kept) ==> exists m :: m in feed && m.num == n.num
  {
    if feed != [] {
      var front, n := feed[..|feed| - 1], feed[|feed| - 1];
      KeepIncreasing(front, account, kept);
      assert feed == front + [n];
      forall x | x in Keep(front, account, kept)
        ensures x.num < n.num
      {
        var m :| m in front && m.num == x.num;
        var i :| 0 <= i < |front| && front[i] == m;
        assert feed[i].num < feed[|feed| - 1].num;
      }
      if !OfAccount(n, account) {
        IncreasingAppended(Keep(front, account, kept), n);
      } else if n.num == kept.num {
        IncreasingAppended(Keep(front, account, kept), kept);
      }
      assert Keep(front, account, kept) + [] == Keep(front, account, kept);
    }
  }

  lemma IncreasingAppended(feed: seq<Notice>, n: Notice)
    requires Increasing(feed) && forall m :: m in feed ==> m.num < n.num
    ensures Increasing(feed + [n])
  {
  }

  lemma {:induction false} PrunedIncreasing(feed: seq<Notice>, now: int)
    requires Increasing(feed)
    ensures Increasing(Pruned(feed, now))
  {
    if feed != [] {
      var front, n := feed[..|feed| - 1], feed[|feed| - 1];
      PrunedIncreasing(front, now);
      assert feed == front + [n];
      forall x | x in Pruned(front, now)
        ensures x.num < n.num
      {
        var m :| m in front && x == Trimmed(m, now);
        var i :| 0 <= i < |front| && front[i] == m;
        assert feed[i].num < feed[|feed| - 1].num;
      }
      IncreasingAppended(Pruned(front, now), Trimmed(n, now));
    }
  }

  lemma LiveTokensBacked(rows: Rows, hs: set<nat>, n: Notice, now: int)
    requires forall h :: h in hs ==> h in rows && rows[h].account == n.account && rows[h].accessExpiresAt > now
    requires forall h :: h in hs ==> n.family.None? ==> rows[h].createdAt >= n.cutoff
    requires n.tokens == Tokens(rows, hs)
    ensures Backed(rows, n) && forall k :: k in n.tokens ==> k.retainUntil > now
  {
    forall k | k in n.tokens
      ensures exists h :: h in rows && IsTokenOf(k, rows[h]) && rows[h].account == n.account
                          && (n.family.None? ==> rows[h].createdAt >= n.cutoff)
      ensures k.retainUntil > now
    {
      TokensMembers(rows, hs, k);
      var h :| h in hs && IsTokenOf(k, rows[h]);
    }
  }

  predicate KnownFamily(rows: Rows, account: nat, family: nat) {
    exists k :: k in rows && rows[k].family == family && rows[k].account == account
  }

  lemma AppendedFeedOk(s: State, t: State, n: Notice)
    requires FeedOk(s) && Extends(s.rows, t.rows) && s.clock == t.clock
    requires t.feed == s.feed + [n] && n.num == t.issued == s.issued + 1 && n.family.Some? && NoticeOk(t, n)
    ensures FeedOk(t)
  {
    IncreasingAppended(s.feed, n);
    hide Wellformed, Backed, Extends;
    forall m | m in s.feed
      ensures NoticeOk(t, m)
    {
      NoticeStays(s, t, m);
    }
  }

  lemma RevokeOneFeedOk(s: State, account: nat, family: nat, now: int)
    requires FeedOk(s) && 0 < now <= s.clock && OneAccountPerFamily(s.rows) && KnownFamily(s.rows, account, family)
    requires RevokeOne(s, account, family, now).Some?
    ensures FeedOk(RevokeOne(s, account, family, now).value)
  {
    var t, hs := RevokeOne(s, account, family, now).value, LiveOfFamily(s.rows, family, now);
    var n := Notice(s.issued + 1, account, Some(family), now, 0, Tokens(s.rows, hs));
    LiveTokensBacked(s.rows, hs, n, now);
    assert n.tokens != {} ==> Wellformed(n) && t.feed == s.feed + [n] && t.issued == n.num;
    assert n.tokens == {} ==> t.feed == s.feed && t.issued == s.issued;
    assert t.rows == RevokeFamily(s.rows, family) && t.clock == s.clock;
    hide Tokens, Backed, Extends, FeedOk, RevokeFamily, LiveOfFamily, RevokeOne, Wellformed;
    RevocationsExtend(s.rows, family);
    BackedLater(s.rows, t.rows, n);
    if n.tokens == {} {
      SameFeedOk(s, t);
    } else {
      AppendedFeedOk(s, t, n);
    }
  }

  lemma AccountNoticeOk(s: State, account: nat, now: int)
    requires 0 < now <= s.clock && |AccountNotice(s, account, now).tokens| <= MaxTokens
    ensures Wellformed(AccountNotice(s, account, now)) && Backed(s.rows, AccountNotice(s, account, now))
  {
    LiveTokensBacked(s.rows, LiveOfAccount(s.rows, account, now), AccountNotice(s, account, now), now);
  }

  lemma MergedOk(rows: Rows, n: Notice, prior: Notice)
    requires Wellformed(n) && Wellformed(prior) && Backed(rows, n) && Backed(rows, prior)
    requires OfAccount(prior, n.account) && n.family.None? && n.cutoff == prior.cutoff
             && |n.tokens + prior.tokens| <= MaxTokens
    ensures Wellformed(n.(tokens := n.tokens + prior.tokens)) && Backed(rows, n.(tokens := n.tokens + prior.tokens))
  {
  }

  lemma KeptOk(s: State, account: nat, now: int)
    requires FeedOk(s) && 0 < now <= s.clock && RevokeAll(s, account, now).Some?
    ensures
      var n := Kept(s, account, now);
      OfAccount(n, account) && Wellformed(n) && Backed(s.rows, n) && 0 < n.num <= s.issued + 1 && n.revokedAt <= s.clock
  {
    CompactionChooses(s, account, now);
    AccountNoticeOk(s, account, now);
    var n, prior := AccountNotice(s, account, now), Keeper(s.feed, account);
    assert |Kept(s, account, now).tokens| <= MaxTokens;
    assert prior.Some? ==> NoticeOk(s, prior.value) && OfAccount(prior.value, account);
    hide Tokens, LiveOfAccount, KeptNotice, Wellformed, Backed, Kept, FeedOk, RevokeAll;
    if prior.Some? && prior.value.cutoff == now {
      MergedOk(s.rows, n, prior.value);
    }
  }

  lemma RevokeAllFeedOk(s: State, account: nat, now: int)
    requires FeedOk(s) && 0 < now <= s.clock && RevokeAll(s, account, now).Some?
    ensures FeedOk(RevokeAll(s, account, now).value)
  {
    var t := RevokeAll(s, account, now).value;
    assert t.rows == RevokeAccount(s.rows, account) && t.clock == s.clock && t.issued == s.issued + 1;
    KeptOk(s, account, now);
    RevokeAllIncreasing(s, account, now);
    hide Tokens, LiveOfAccount, AppendAccount, Keep, Keeper, Merged, KeptNotice, Kept, RevokeAll, RevokeAccount;
    hide Wellformed, Backed, Increasing, OnePerAccount, Extends, AccountNotice;
    RevocationsExtend(s.rows, account);
    BackedLater(s.rows, t.rows, Kept(s, account, now));
    RevokeAllNoticesOk(s, account, now);
    RevokeAllOnePerAccount(s, account, now);
  }

  lemma RevokeAllIncreasing(s: State, account: nat, now: int)
    requires FeedOk(s) && RevokeAll(s, account, now).Some?
    ensures Increasing(RevokeAll(s, account, now).value.feed)
  {
    IncreasingAppended(s.feed, AccountNotice(s, account, now));
    KeepIncreasing(s.feed + [AccountNotice(s, account, now)], account, Kept(s, account, now));
  }

  lemma RevokeAllNoticesOk(s: State, account: nat, now: int)
    requires FeedOk(s) && RevokeAll(s, account, now).Some? && Extends(s.rows, RevokeAll(s, account, now).value.rows)
    requires NoticeOk(RevokeAll(s, account, now).value, Kept(s, account, now))
    ensures forall m :: m in RevokeAll(s, account, now).value.feed ==> NoticeOk(RevokeAll(s, account, now).value, m)
  {
    var t := RevokeAll(s, account, now).value;
    assert forall m :: m in s.feed ==> NoticeOk(s, m);
    assert t.clock == s.clock && t.issued == s.issued + 1;
    forall m | m in t.feed && m != Kept(s, account, now)
      ensures NoticeOk(t, m)
    {
      RevokeAllFeed(s, account, now, m);
      hide *;
      NoticeStays(s, t, m);
    }
  }

  lemma RevokeAllOnePerAccount(s: State, account: nat, now: int)
    requires FeedOk(s) && RevokeAll(s, account, now).Some? && OfAccount(Kept(s, account, now), account)
    ensures OnePerAccount(RevokeAll(s, account, now).value.feed)
  {
    var t := RevokeAll(s, account, now).value;
    assert OnePerAccount(s.feed);
    hide FeedOk, RevokeAll, Kept;
    forall m, n | m in t.feed && n in t.feed && m.family.None? && OfAccount(n, m.account)
      ensures m == n
    {
      RevokeAllFeed(s, account, now, m);
      RevokeAllFeed(s, account, now, n);
    }
  }

  lemma ReadFeedOk(s: State, now: int)
    requires FeedOk(s)
    ensures FeedOk(s.(feed := Pruned(s.feed, now)))
  {
    var t := s.(feed := Pruned(s.feed, now));
    PrunedIncreasing(s.feed, now);
    forall n | n in t.feed
      ensures NoticeOk(t, n)
    {
      var m :| m in s.feed && n == Trimmed(m, now) && !Spent(m, now);
      assert NoticeOk(s, m);
      SubsetIsSmaller(n.tokens, m.tokens);
    }
    forall m, n | m in t.feed && n in t.feed && m.family.None? && OfAccount(n, m.account)
      ensures m == n
    {
      var m' :| m' in s.feed && m == Trimmed(m', now);
      var n' :| n' in s.feed && n == Trimmed(n', now);
      assert OfAccount(n', m'.account);
    }
  }

  lemma SubsetIsSmaller<T>(a: set<T>, b: set<T>)
    requires a <= b
    ensures |a| <= |b|
  {
    if a != b {
      assert b == a + (b - a);
    }
  }

  lemma StepKeepsFeedOk(s: State, e: Event)
    requires FeedOk(s) && OneAccountPerFamily(s.rows) && Enabled(s, e)
    ensures FeedOk(Next(s, e))
  {
    StepExtends(s, e);
    hide FeedOk, RevokeOne, RevokeAll, OneAccountPerFamily, Extends, Replayable, Rotated;
    match e
    case Evict(a, f, now) => FamilyStepFeedOk(s, a, f, now);
    case Logout(h, now) =>
      if h in s.rows {
        FamilyStepFeedOk(s, s.rows[h].account, s.rows[h].family, now);
      }
    case Present(h, _, _, _, now) =>
      if h in s.rows {
        FamilyStepFeedOk(s, s.rows[h].account, s.rows[h].family, now);
      }
      if Next(s, e).feed == s.feed && Next(s, e).issued == s.issued {
        SameFeedOk(s, Next(s, e));
      }
    case LogoutEverywhere(h, now) =>
      if h in s.rows && RevokeAll(s, s.rows[h].account, now).Some? {
        RevokeAllFeedOk(s, s.rows[h].account, now);
      }
    case ReadFeed(now) => ReadFeedOk(s, now);
    case Birth(_, _, _, _) => SameFeedOk(s, Next(s, e));
    case Tick(_) => SameFeedOk(s, Next(s, e));
  }

  lemma FamilyStepFeedOk(s: State, account: nat, family: nat, now: int)
    requires FeedOk(s) && 0 < now <= s.clock && OneAccountPerFamily(s.rows) && KnownFamily(s.rows, account, family)
    ensures FeedOk(OrElse(RevokeOne(s, account, family, now), s))
  {
    if RevokeOne(s, account, family, now).Some? {
      RevokeOneFeedOk(s, account, family, now);
    }
  }

  lemma SameFeedOk(s: State, t: State)
    requires FeedOk(s) && Extends(s.rows, t.rows) && t.feed == s.feed && t.issued == s.issued && s.clock <= t.clock
    ensures FeedOk(t)
  {
    hide NoticeOk, Extends;
    forall n | n in t.feed
      ensures NoticeOk(t, n)
    {
      NoticeStays(s, t, n);
    }
  }

  lemma {:induction false} RunsKeepTheFeed(s0: State, es: seq<Event>)
    requires Initial(s0) && Exec(s0, es).Some?
    ensures FeedOk(Exec(s0, es).value) && Apart(Exec(s0, es).value.rows)
  {
    if es != [] {
      var m, e := Exec(s0, es[..|es| - 1]).value, es[|es| - 1];
      RunsKeepTheFeed(s0, es[..|es| - 1]);
      ReachableAccounts(m);
      hide Next, Enabled, FeedOk, Apart, OneAccountPerFamily;
      StepKeepsFeedOk(m, e);
      StepKeepsApart(m, e);
    }
  }

  lemma ReachableFeed(s: State)
    requires Reachable(s)
    ensures FeedOk(s) && Apart(s.rows)
  {
    var s0, es :| Initial(s0) && Exec(s0, es) == Some(s);
    RunsKeepTheFeed(s0, es);
  }

  /** Each account has at most one account-wide notice in the feed, so the compaction that every page call
      repeats leaves what pruning left. */
  lemma PageCompactionIsIdle(s: State, account: nat, now: int)
    requires Reachable(s) && Keeper(Pruned(s.feed, now), account).Some?
    ensures Compact(Pruned(s.feed, now), account) == Some(Pruned(s.feed, now))
  {
    ReachableFeed(s);
    ReadFeedOk(s, now);
    CompactingOne(Pruned(s.feed, now), account);
  }

  lemma CompactingOne(feed: seq<Notice>, account: nat)
    requires OnePerAccount(feed) && Increasing(feed) && Keeper(feed, account).Some?
    requires forall n :: n in feed ==> |n.tokens| <= MaxTokens
    ensures Compact(feed, account) == Some(feed)
  {
    var k := Keeper(feed, account).value;
    assert Merged(feed, account, k.cutoff) == k.tokens;
    assert KeptNotice(feed, account) == k;
    KeepsAll(feed, account, k);
  }

  lemma {:induction false} KeepsAll(feed: seq<Notice>, account: nat, kept: Notice)
    requires forall n :: n in feed && OfAccount(n, account) ==> n == kept
    ensures Keep(feed, account, kept) == feed
  {
    if feed != [] {
      assert feed == feed[..|feed| - 1] + [feed[|feed| - 1]];
      KeepsAll(feed[..|feed| - 1], account, kept);
    }
  }
}
