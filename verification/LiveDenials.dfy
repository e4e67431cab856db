/** Whom the feed denies although nobody revoked them: sessions born behind a cutoff. */
module LiveDenials {
  import opened Codec
  import opened RefreshFamilies
  import opened FamilyTheorems
  import opened FamilyFeed
  import opened FamilyDenials

  /** The account has logged out everywhere with a cutoff after `t`, as far as the feed says. */
  predicate Behind(feed: seq<Notice>, account: nat, t: int) {
    exists n :: n in feed && OfAccount(n, account) && t < n.cutoff
  }

  /** The row is in use, and consumers turn its access tokens away. */
  predicate FalselyDenied(s: State, h: nat) {
    h in s.rows && !s.rows[h].revoked && DeniedBy(s.feed, s.rows[h])
  }

  // ------------------------------------------------------------------ only revoked rows are named

  predicate NamesRevoked(rows: Rows, n: Notice) {
    forall k, h :: k in n.tokens && h in rows && IsTokenOf(k, rows[h]) ==> rows[h].revoked
  }

  predicate Fair(s: State) {
    forall n :: n in s.feed ==> NamesRevoked(s.rows, n)
  }

  lemma OneOwner(rows: Rows, k: Token, x: nat, y: nat)
    requires Apart(rows) && x in rows && y in rows && IsTokenOf(k, rows[x]) && IsTokenOf(k, rows[y])
    ensures x == y
  {
    assert k.id in Ids(rows[x]) && k.id in Ids(rows[y]);
  }

  lemma NamesRevokedLater(rows: Rows, rows': Rows, n: Notice)
    requires NamesRevoked(rows, n) && Backed(rows, n) && Extends(rows, rows') && Apart(rows')
    ensures NamesRevoked(rows', n)
  {
    hide Apart;
    forall k, h | k in n.tokens && h in rows' && IsTokenOf(k, rows'[h])
      ensures rows'[h].revoked
    {
      var x :| x in rows && IsTokenOf(k, rows[x]);
      assert Later(rows[x], rows'[x]) && IsTokenOf(k, rows'[x]);
      OneOwner(rows', k, x, h);
    }
  }

  /** A notice of rows that are revoked with it. */
  lemma LiveNamesRevoked(rows: Rows, rows': Rows, hs: set<nat>, n: Notice)
    requires Apart(rows') && Extends(rows, rows') && (forall h :: h in hs ==> h in rows && rows'[h].revoked)
    requires n.tokens == Tokens(rows, hs)
    ensures NamesRevoked(rows', n)
  {
    hide Apart, Tokens;
    forall k, h | k in n.tokens && h in rows' && IsTokenOf(k, rows'[h])
      ensures rows'[h].revoked
    {
      TokensMembers(rows, hs, k);
      var x :| x in hs && IsTokenOf(k, rows[x]);
      assert Later(rows[x], rows'[x]) && IsTokenOf(k, rows'[x]);
      OneOwner(rows', k, x, h);
    }
  }

  lemma StoredStayFair(s: State, t: State, n: Notice)
    requires Fair(s) && FeedOk(s) && n in s.feed && Extends(s.rows, t.rows) && Apart(t.rows)
    ensures NamesRevoked(t.rows, n)
  {
    assert NoticeOk(s, n);
    NamesRevokedLater(s.rows, t.rows, n);
  }

  lemma RevokeOneFair(s: State, account: nat, family: nat, now: int)
    requires Fair(s) && FeedOk(s) && RevokeOne(s, account, family, now).Some?
    requires Apart(RevokeOne(s, account, family, now).value.rows)
    ensures Fair(RevokeOne(s, account, family, now).value)
    ensures forall n :: n in RevokeOne(s, account, family, now).value.feed ==> n in s.feed || n.family.Some?
    ensures s.feed <= RevokeOne(s, account, family, now).value.feed
  {
    var t, hs := RevokeOne(s, account, family, now).value, LiveOfFamily(s.rows, family, now);
    RevocationsExtend(s.rows, family);
    assert t.rows == RevokeFamily(s.rows, family);
    forall n | n in t.feed
      ensures NamesRevoked(t.rows, n)
    {
      if n in s.feed {
        StoredStayFair(s, t, n);
      } else {
        assert n == Notice(s.issued + 1, account, Some(family), now, 0, Tokens(s.rows, hs));
        LiveNamesRevoked(s.rows, t.rows, hs, n);
      }
    }
  }

  lemma RevokeAllFair(s: State, account: nat, now: int)
    requires Fair(s) && FeedOk(s) && RevokeAll(s, account, now).Some?
    requires Apart(RevokeAll(s, account, now).value.rows)
    ensures Fair(RevokeAll(s, account, now).value)
  {
    var t := RevokeAll(s, account, now).value;
    RevocationsExtend(s.rows, account);
    RevokeAllRows(s, account, now);
    CompactionChooses(s, account, now);
    var latest := AccountNotice(s, account, now);
    LiveNamesRevoked(s.rows, t.rows, LiveOfAccount(s.rows, account, now), latest);
    hide RevokeAll, Kept, FeedOk, Tokens, Apart, RevokeAccount;
    forall n | n in t.feed
      ensures NamesRevoked(t.rows, n)
    {
      RevokeAllFeed(s, account, now, n);
      if n in s.feed {
        StoredStayFair(s, t, n);
      } else {
        var prior := Keeper(s.feed, account);
        if prior.Some? {
          StoredStayFair(s, t, prior.value);
        }
      }
    }
  }

  lemma StepKeepsFair(s: State, e: Event)
    requires Fair(s) && FeedOk(s) && Apart(s.rows) && Enabled(s, e)
    ensures Fair(Next(s, e))
  {
    StepKeepsApart(s, e);
    StepExtends(s, e);
    var t := Next(s, e);
    hide Fair, FeedOk, Apart, Extends, RevokeOne, RevokeAll, Rotated, Replayable;
    match e
    case Birth(_, _, _, _) => SameFeedFair(s, t);
    case Tick(_) => SameFeedFair(s, t);
    case Present(h, _, _, _, now) =>
      if t.feed == s.feed {
        SameFeedFair(s, t);
      } else {
        RevokeOneFair(s, s.rows[h].account, s.rows[h].family, now);
      }
    case Logout(h, now) =>
      if h in s.rows && RevokeOne(s, s.rows[h].account, s.rows[h].family, now).Some? {
        RevokeOneFair(s, s.rows[h].account, s.rows[h].family, now);
      }
    case Evict(a, f, now) =>
      if RevokeOne(s, a, f, now).Some? {
        RevokeOneFair(s, a, f, now);
      }
    case LogoutEverywhere(h, now) =>
      if h in s.rows && RevokeAll(s, s.rows[h].account, now).Some? {
        RevokeAllFair(s, s.rows[h].account, now);
      }
    case ReadFeed(now) => PrunedFair(s, now);
  }

  lemma SameFeedFair(s: State, t: State)
    requires Fair(s) && FeedOk(s) && t.feed == s.feed && Extends(s.rows, t.rows) && Apart(t.rows)
    ensures Fair(t)
  {
    hide FeedOk, Extends, Apart;
    forall n | n in t.feed
      ensures NamesRevoked(t.rows, n)
    {
      StoredStayFair(s, t, n);
    }
  }

  lemma PrunedFair(s: State, now: int)
    requires Fair(s)
    ensures Fair(s.(feed := Pruned(s.feed, now)))
  {
    forall n | n in Pruned(s.feed, now)
      ensures NamesRevoked(s.rows, n)
    {
      var m :| m in s.feed && n == Trimmed(m, now);
      assert NamesRevoked(s.rows, m);
    }
  }

  lemma {:induction false} RunsAreFair(s0: State, es: seq<Event>)
    requires Initial(s0) && Exec(s0, es).Some?
    ensures Fair(Exec(s0, es).value)
  {
    if es != [] {
      RunsAreFair(s0, es[..|es| - 1]);
      var m := Exec(s0, es[..|es| - 1]).value;
      assert Reachable(m);
      ReachableFeed(m);
      hide Fair, FeedOk, Apart, Next, Enabled;
      StepKeepsFair(m, es[|es| - 1]);
    }
  }

  lemma ReachableFair(s: State)
    requires Reachable(s)
    ensures Fair(s)
  {
    var s0, es :| Initial(s0) && Exec(s0, es) == Some(s);
    RunsAreFair(s0, es);
  }

  /** A session in use is denied exactly by a cutoff after its birth: no notice names its tokens. */
  lemma LiveIsDeniedIff(s: State, h: nat)
    requires Reachable(s) && h in s.rows && !s.rows[h].revoked
    ensures DeniedBy(s.feed, s.rows[h]) <==> Behind(s.feed, s.rows[h].account, s.rows[h].createdAt)
  {
    ReachableFair(s);
    FairDenials(s, s.rows[h], h);
  }

  lemma FairDenials(s: State, r: Row, h: nat)
    requires Fair(s) && h in s.rows && s.rows[h] == r && !r.revoked
    ensures DeniedBy(s.feed, r) <==> Behind(s.feed, r.account, r.createdAt)
  {
    if DeniedBy(s.feed, r) {
      var n :| n in s.feed && Denies(n, r);
      assert NamesRevoked(s.rows, n) && IsTokenOf(CpToken(r), r);
      assert OfAccount(n, r.account) && r.createdAt < n.cutoff;
    }
    if Behind(s.feed, r.account, r.createdAt) {
      var n :| n in s.feed && OfAccount(n, r.account) && r.createdAt < n.cutoff;
      assert Denies(n, r);
    }
  }

  // ------------------------------------------------------------------ which steps deny one

  /** The step inserts row `h`: a login, or the successor of a refreshed token. */
  predicate Creates(s: State, e: Event, h: nat) {
    h !in s.rows && h in Next(s, e).rows
  }

  lemma CreatedRow(s: State, e: Event, h: nat)
    requires Enabled(s, e) && Creates(s, e, h)
    ensures (e.Birth? || e.Present?) && h == e.names.refresh && Next(s, e).feed == s.feed
    ensures Next(s, e).rows[h].createdAt == e.now && !Next(s, e).rows[h].revoked
    ensures Next(s, e).rows[h].account == if e.Birth? then e.account else s.rows[e.token].account
    ensures e.Present? ==> e.token in s.rows
  {
    hide Tokens, AppendFamily, AppendAccount, Rotated, Replayable, Unused;
    if e.Present? && e.token in s.rows && Rotated(s.rows, e.token, e.names, e.now).Some? {
      RotationShape(s.rows, e.token, e.names, e.now);
    }
  }

  /** Whether some account-wide notice cuts off a row that the step leaves unrevoked does not change. */
  lemma StepKeepsBehind(s: State, e: Event, h: nat)
    requires Reachable(s) && Enabled(s, e) && h in s.rows && !Next(s, e).rows[h].revoked
    ensures h in Next(s, e).rows
    ensures Behind(Next(s, e).feed, s.rows[h].account, s.rows[h].createdAt) <==>
            Behind(s.feed, s.rows[h].account, s.rows[h].createdAt)
  {
    StepExtends(s, e);
    ReachableFeed(s);
    StepKeepsApart(s, e);
    ReachableFair(s);
    var t, r := Next(s, e), s.rows[h];
    hide FeedOk, Apart, RevokeOne, RevokeAll, Rotated, Replayable, Behind, Fair;
    match e
    case Birth(_, _, _, _) =>
    case Tick(_) =>
    case Present(x, _, _, _, now) =>
      if t.feed != s.feed {
        FamilyKeepsBehind(s, s.rows[x].account, s.rows[x].family, now, r);
      }
    case Logout(x, now) =>
      if x in s.rows && RevokeOne(s, s.rows[x].account, s.rows[x].family, now).Some? {
        FamilyKeepsBehind(s, s.rows[x].account, s.rows[x].family, now, r);
      }
    case Evict(a, f, now) =>
      if RevokeOne(s, a, f, now).Some? {
        FamilyKeepsBehind(s, a, f, now, r);
      }
    case LogoutEverywhere(x, now) =>
      if x in s.rows && RevokeAll(s, s.rows[x].account, now).Some? {
        RevokeAllRows(s, s.rows[x].account, now);
        AccountKeepsBehind(s, s.rows[x].account, now, r);
      }
    case ReadFeed(now) => PruningKeepsBehind(s.feed, now, r);
  }

  lemma FamilyKeepsBehind(s: State, account: nat, family: nat, now: int, r: Row)
    requires Fair(s) && FeedOk(s) && RevokeOne(s, account, family, now).Some?
    requires Apart(RevokeOne(s, account, family, now).value.rows)
    ensures Behind(RevokeOne(s, account, family, now).value.feed, r.account, r.createdAt) <==>
            Behind(s.feed, r.account, r.createdAt)
  {
    RevokeOneFair(s, account, family, now);
    var t := RevokeOne(s, account, family, now).value;
    assert forall n :: n in s.feed ==> n in t.feed;
  }

  lemma AccountKeepsBehind(s: State, account: nat, now: int, r: Row)
    requires FeedOk(s) && RevokeAll(s, account, now).Some? && r.account != account
    ensures Behind(RevokeAll(s, account, now).value.feed, r.account, r.createdAt) <==>
            Behind(s.feed, r.account, r.createdAt)
  {
    var t := RevokeAll(s, account, now).value;
    KeptOfAccount(s, account, now);
    hide FeedOk, RevokeAll, Kept;
    forall n | OfAccount(n, r.account)
      ensures n in t.feed <==> n in s.feed
    {
      RevokeAllFeed(s, account, now, n);
    }
  }

  lemma PruningKeepsBehind(feed: seq<Notice>, now: int, r: Row)
    ensures Behind(Pruned(feed, now), r.account, r.createdAt) <==> Behind(feed, r.account, r.createdAt)
  {
    if Behind(feed, r.account, r.createdAt) {
      var n :| n in feed && OfAccount(n, r.account) && r.createdAt < n.cutoff;
      assert Trimmed(n, now) in Pruned(feed, now);
    }
    if Behind(Pruned(feed, now), r.account, r.createdAt) {
      var m :| m in Pruned(feed, now) && OfAccount(m, r.account) && r.createdAt < m.cutoff;
      var n :| n in feed && m == Trimmed(n, now);
    }
  }

  /** A session in use is denied after a step exactly if it was before and is not revoked by the step, or the step
      creates it with a clock reading that a stored cutoff of its account has overtaken. */
  lemma StepDeniesLiveIff(s: State, e: Event, h: nat)
    requires Reachable(s) && Enabled(s, e)
    ensures FalselyDenied(Next(s, e), h) <==>
              || (FalselyDenied(s, h) && !Next(s, e).rows[h].revoked)
              || (Creates(s, e, h) && Behind(s.feed, Next(s, e).rows[h].account, e.now))
    ensures FalselyDenied(s, h) ==> h in Next(s, e).rows
  {
    var t := Next(s, e);
    ReachableNext(s, e);
    StepExtends(s, e);
    hide Reachable, Behind, DeniedBy, Next, Enabled;
    if h in s.rows {
      assert h in t.rows && Later(s.rows[h], t.rows[h]);
      if !t.rows[h].revoked {
        LiveIsDeniedIff(s, h);
        LiveIsDeniedIff(t, h);
        StepKeepsBehind(s, e, h);
      }
    } else if h in t.rows {
      CreatedRow(s, e, h);
      LiveIsDeniedIff(t, h);
    }
  }

  lemma ReachableNext(s: State, e: Event)
    requires Reachable(s) && Enabled(s, e)
    ensures Reachable(Next(s, e))
  {
    hide Next, Enabled, Initial;
    var s0, es :| Initial(s0) && Exec(s0, es) == Some(s);
    ExecOneMore(s0, es, s, e);
  }

  // ------------------------------------------------------------------ over whole runs

  /** At no moment of the run is a session in use denied. */
  ghost predicate NeverFalse(s0: State, es: seq<Event>)
    requires Exec(s0, es).Some?
  {
    (forall h :: !FalselyDenied(Exec(s0, es).value, h)) && (es != [] ==> NeverFalse(s0, es[..|es| - 1]))
  }

  /** No step creates a row behind a stored cutoff of its account. */
  ghost predicate InTime(s: State, e: Event) {
    forall h :: Creates(s, e, h) ==> !Behind(s.feed, Next(s, e).rows[h].account, e.now)
  }

  ghost predicate AllInTime(s0: State, es: seq<Event>)
    requires Exec(s0, es).Some?
  {
    es != [] ==> AllInTime(s0, es[..|es| - 1]) && InTime(Exec(s0, es[..|es| - 1]).value, es[|es| - 1])
  }

  /** No session in use is ever denied exactly if every login and refresh of the run inserts its row before a
      logout everywhere with a later clock reading is in the feed. */
  lemma {:induction false} LiveNeverDeniedIff(s0: State, es: seq<Event>)
    requires Initial(s0) && Exec(s0, es).Some?
    ensures NeverFalse(s0, es) <==> AllInTime(s0, es)
  {
    if es != [] {
      LiveNeverDeniedIff(s0, es[..|es| - 1]);
      var m, e := Exec(s0, es[..|es| - 1]).value, es[|es| - 1];
      assert Reachable(m);
      assert NeverFalse(s0, es[..|es| - 1]) ==> forall h :: !FalselyDenied(m, h);
      hide Reachable, FalselyDenied, Creates, Behind, Next, Enabled;
      forall h: nat
        ensures FalselyDenied(m, h)
                || (FalselyDenied(Next(m, e), h) <==>
                      Creates(m, e, h) && Behind(m.feed, Next(m, e).rows[h].account, e.now))
      {
        StepDeniesLiveIff(m, e, h);
      }
    }
  }

  // ------------------------------------------------------------------ a login that is behind

  /** A login reads the clock and is slow to insert its session; meanwhile the account logs out everywhere, with a
      later clock reading. The session is not revoked, and yet its tokens are denied. */
  lemma LoginThatIsBehind() returns (s: State)
    ensures Reachable(s) && FalselyDenied(s, 3)
  {
    hide Next, Enabled, DeniedBy, Newborn, Reachable;
    var s0 := State(map[], [], 0, 11, []);
    var a, b := Newborn(7, 10, Names(0, 1, 2), 11, 11), Newborn(7, 20, Names(3, 4, 5), 10, 10);
    var n := Notice(1, 7, None, 12, 12, {});
    EmptyIsReachable(s0);
    FirstLogin(s0, a);
    s := Walk(s0, Birth(7, 10, Names(0, 1, 2), 11));
    ClockTicks(s, 1);
    s := Walk(s, Tick(1));
    BehindFirst(s, a, n);
    s := Walk(s, LogoutEverywhere(0, 12));
    LateLogin(s, a, b);
    s := Walk(s, Birth(7, 20, Names(3, 4, 5), 10));
    DeniedByCutoff(s, b, n);
  }

  lemma Walk(s: State, e: Event) returns (t: State)
    requires Reachable(s) && Enabled(s, e)
    ensures Reachable(t) && t == Next(s, e)
  {
    ReachableNext(s, e);
    t := Next(s, e);
  }

  lemma EmptyIsReachable(s: State)
    requires Initial(s)
    ensures Reachable(s)
  {
    assert Exec(s, []) == Some(s);
  }

  lemma FirstLogin(s: State, a: Row)
    requires s == State(map[], [], 0, 11, []) && a == Newborn(7, 10, Names(0, 1, 2), 11, 11)
    ensures Enabled(s, Birth(7, 10, Names(0, 1, 2), 11))
            && Next(s, Birth(7, 10, Names(0, 1, 2), 11)) == s.(rows := map[0 := a])
  {
    BirthInserts(s, 7, 10, Names(0, 1, 2), 11);
    assert map[][0 := a] == map[0 := a];
    hide Next;
  }

  lemma LateLogin(s: State, a: Row, b: Row)
    requires a == Newborn(7, 10, Names(0, 1, 2), 11, 11) && b == Newborn(7, 20, Names(3, 4, 5), 10, 10)
    requires s.rows == map[0 := a.(revoked := true)] && s.clock == 12
    ensures Enabled(s, Birth(7, 20, Names(3, 4, 5), 10))
            && Next(s, Birth(7, 20, Names(3, 4, 5), 10)) == s.(rows := s.rows[3 := b])
  {
    BirthInserts(s, 7, 20, Names(3, 4, 5), 10);
    hide Next;
  }

  lemma DeniedByCutoff(s: State, b: Row, n: Notice)
    requires b == Newborn(7, 20, Names(3, 4, 5), 10, 10) && n == Notice(1, 7, None, 12, 12, {})
    requires 3 in s.rows && s.rows[3] == b && n in s.feed
    ensures FalselyDenied(s, 3)
  {
    assert Denies(n, b);
  }
}
