/** Whether every revoked token is denied by the feed: which steps keep it so, and exactly which logouts
    everywhere do not. */
module FamilyDenials {
  import opened Codec
  import opened RefreshFamilies
  import opened FamilyTheorems
  import opened FamilyFeed

  predicate Lists(n: Notice, r: Row) {
    n.account == r.account && CpToken(r) in n.tokens && NodeToken(r) in n.tokens
  }

  /** The notice denies the row's access tokens by name or by its cutoff. */
  predicate Denies(n: Notice, r: Row) {
    Lists(n, r) || (n.account == r.account && n.family.None? && r.createdAt < n.cutoff)
  }

  predicate DeniedBy(feed: seq<Notice>, r: Row) {
    exists n :: n in feed && Denies(n, r)
  }

  predicate NamedByFamily(feed: seq<Notice>, r: Row) {
    exists n :: n in feed && n.family.Some? && Lists(n, r)
  }

  predicate Accounted(s: State, r: Row) {
    r.revoked ==> r.accessExpiresAt <= s.clock || DeniedBy(s.feed, r)
  }

  /** Every revoked access token that has not expired is denied. */
  predicate Announced(s: State) {
    forall h :: h in s.rows ==> Accounted(s, s.rows[h])
  }

  // ------------------------------------------------------------------ steps that keep it

  lemma AppendFamilyKeepsDenials(feed: seq<Notice>, n: Notice, r: Row)
    requires DeniedBy(feed, r)
    ensures DeniedBy(feed + [n], r)
  {
    var m :| m in feed && Denies(m, r);
    assert m in feed + [n];
  }

  /** Pruning drops the denials of expired tokens only. */
  lemma PruningKeepsDenials(feed: seq<Notice>, now: int, r: Row)
    requires DeniedBy(feed, r) && r.accessExpiresAt > now
    ensures DeniedBy(Pruned(feed, now), r)
  {
    var n :| n in feed && Denies(n, r);
    assert Denies(Trimmed(n, now), r);
    if n.family.Some? {
      assert CpToken(r) in Trimmed(n, now).tokens;
    }
  }

  lemma ReadingAnnounces(s: State, now: int)
    requires Announced(s) && now <= s.clock
    ensures Announced(Next(s, ReadFeed(now)))
  {
    var t := Next(s, ReadFeed(now));
    forall h | h in t.rows
      ensures Accounted(t, t.rows[h])
    {
      assert Accounted(s, s.rows[h]);
      if s.rows[h].revoked && s.rows[h].accessExpiresAt > s.clock {
        PruningKeepsDenials(s.feed, now, s.rows[h]);
      }
    }
  }

  lemma DenialReadsIds(feed: seq<Notice>, r: Row, r': Row)
    requires Later(r, r')
    ensures DeniedBy(feed, r) <==> DeniedBy(feed, r')
  {
    if DeniedBy(feed, r) {
      var n :| n in feed && Denies(n, r);
      assert Denies(n, r');
    }
    if DeniedBy(feed, r') {
      var n :| n in feed && Denies(n, r');
      assert Denies(n, r);
    }
  }

  lemma RevokeOneAnnounces(s: State, account: nat, family: nat, now: int, h: nat)
    requires Announced(s) && OneAccountPerFamily(s.rows) && KnownFamily(s.rows, account, family) && now <= s.clock
    requires RevokeOne(s, account, family, now).Some? && h in s.rows
    ensures h in RevokeOne(s, account, family, now).value.rows
    ensures Accounted(RevokeOne(s, account, family, now).value, RevokeOne(s, account, family, now).value.rows[h])
  {
    var t := RevokeOne(s, account, family, now).value;
    var r := s.rows[h];
    var tokens := Tokens(s.rows, LiveOfFamily(s.rows, family, now));
    var n := Notice(s.issued + 1, account, Some(family), now, 0, tokens);
    assert Accounted(s, r);
    if r.revoked && r.accessExpiresAt > s.clock {
      AppendFamilyKeepsDenials(s.feed, n, r);
      DenialReadsIds(t.feed, r, t.rows[h]);
    } else if r.family == family && r.accessExpiresAt > s.clock {
      assert h in LiveOfFamily(s.rows, family, now);
      assert CpToken(r) in tokens && NodeToken(r) in tokens;
      assert t.feed == s.feed + [n];
      assert Denies(t.feed[|s.feed|], t.rows[h]);
    }
  }

  lemma FamilyRevocationAnnounces(s: State, account: nat, family: nat, now: int)
    requires Announced(s) && OneAccountPerFamily(s.rows) && KnownFamily(s.rows, account, family) && now <= s.clock
    ensures Announced(OrElse(RevokeOne(s, account, family, now), s))
  {
    hide Tokens, AppendFamily, Accounted;
    if RevokeOne(s, account, family, now).Some? {
      var t := RevokeOne(s, account, family, now).value;
      forall h | h in t.rows
        ensures Accounted(t, t.rows[h])
      {
        RevokeOneAnnounces(s, account, family, now, h);
      }
    }
  }

  /** Steps that revoke nothing leave every row accounted for. */
  lemma QuietStepKeepsAnnounced(s: State, e: Event)
    requires Announced(s) && Enabled(s, e) && Next(s, e).feed == s.feed && s.clock <= Next(s, e).clock
    requires forall h :: h in Next(s, e).rows && Next(s, e).rows[h].revoked ==>
               h in s.rows && s.rows[h].revoked && Later(s.rows[h], Next(s, e).rows[h])
    ensures Announced(Next(s, e))
  {
    var t := Next(s, e);
    forall h | h in t.rows
      ensures Accounted(t, t.rows[h])
    {
      if t.rows[h].revoked {
        assert Accounted(s, s.rows[h]);
        DenialReadsIds(s.feed, s.rows[h], t.rows[h]);
      }
    }
  }

  lemma PresentAnnounces(s: State, e: Event)
    requires e.Present? && Announced(s) && OneAccountPerFamily(s.rows) && Enabled(s, e)
    ensures Announced(Next(s, e))
  {
    hide Announced, Tokens, AppendFamily;
    var h := e.token;
    if Refuse(s.rows, h, e.now, e.proofOk).None? && !Replayable(s.rows[h], e.now) && !e.fails
        && s.rows[h].supersededBy.Some? {
      FamilyRevocationAnnounces(s, s.rows[h].account, s.rows[h].family, e.now);
    } else {
      if h in s.rows && Rotated(s.rows, h, e.names, e.now).Some? {
        RotationShape(s.rows, h, e.names, e.now);
      }
      QuietStepKeepsAnnounced(s, e);
    }
  }

  // ------------------------------------------------------------------ logging out everywhere

  /** The row's tokens are not denied once its account has logged out everywhere with the clock read as
      `now`: either a stored notice with a later cutoff stays and does not name the row, or an older one
      that names it goes, and in both cases the row is too young for the cutoff. */
  predicate Slips(s: State, account: nat, now: int, r: Row) {
    && r.account == account && r.accessExpiresAt > s.clock && !NamedByFamily(s.feed, r)
    && var stored := Keeper(s.feed, account);
       stored.Some?
       && if stored.value.cutoff > now then r.createdAt >= stored.value.cutoff && !Lists(stored.value, r)
          else stored.value.cutoff < now && r.revoked && r.createdAt >= now
  }

  /** No row of the account slips through, unless the notice is refused and nothing happens. */
  predicate Sealed(s: State, e: Event) {
    e.LogoutEverywhere? && e.token in s.rows && RevokeAll(s, s.rows[e.token].account, e.now).Some? ==>
      forall h :: h in s.rows ==> !Slips(s, s.rows[e.token].account, e.now, s.rows[h])
  }

  lemma NewNoticeNames(s: State, account: nat, now: int, h: nat)
    requires Apart(s.rows) && h in s.rows && s.rows[h].account == account && s.rows[h].accessExpiresAt > now
    ensures Lists(AccountNotice(s, account, now), s.rows[h]) <==> !s.rows[h].revoked && s.rows[h].createdAt >= now
  {
    var hs, r := LiveOfAccount(s.rows, account, now), s.rows[h];
    if h in hs {
      assert CpToken(r) in Tokens(s.rows, hs) && NodeToken(r) in Tokens(s.rows, hs);
    } else {
      TokensElsewhere(s.rows, hs, h);
    }
  }

  /** After the logout the row is denied by a family notice that was there, or by the one notice kept. */
  lemma WhoDenies(s: State, account: nat, now: int, r: Row)
    requires FeedOk(s) && RevokeAll(s, account, now).Some? && r.account == account
    ensures DeniedBy(RevokeAll(s, account, now).value.feed, r) <==>
            NamedByFamily(s.feed, r) || Denies(Kept(s, account, now), r)
  {
    var t, k := RevokeAll(s, account, now).value, Kept(s, account, now);
    hide FeedOk, RevokeAll, Kept;
    if DeniedBy(t.feed, r) {
      var n :| n in t.feed && Denies(n, r);
      RevokeAllFeed(s, account, now, n);
    }
    if NamedByFamily(s.feed, r) {
      var n :| n in s.feed && n.family.Some? && Lists(n, r);
      RevokeAllFeed(s, account, now, n);
      assert n in t.feed && Denies(n, r);
    }
    if Denies(k, r) {
      RevokeAllFeed(s, account, now, k);
    }
  }

  /** Before it, by a family notice or the stored account-wide one. */
  lemma WhoDenied(s: State, account: nat, r: Row)
    requires OnePerAccount(s.feed) && r.account == account
    ensures DeniedBy(s.feed, r) <==>
              NamedByFamily(s.feed, r) || (Keeper(s.feed, account).Some? && Denies(Keeper(s.feed, account).value, r))
  {
    if DeniedBy(s.feed, r) {
      var n :| n in s.feed && Denies(n, r);
      if n.family.None? {
        assert OfAccount(n, account) && Keeper(s.feed, account) == Some(n);
      }
    }
    if NamedByFamily(s.feed, r) {
      var n :| n in s.feed && n.family.Some? && Lists(n, r);
      assert Denies(n, r);
    }
  }

  lemma RowOfAccountAfter(s: State, account: nat, now: int, h: nat)
    requires FeedOk(s) && Apart(s.rows) && now <= s.clock && RevokeAll(s, account, now).Some?
    requires h in s.rows && s.rows[h].account == account && s.rows[h].accessExpiresAt > s.clock
             && Accounted(s, s.rows[h])
    ensures DeniedBy(RevokeAll(s, account, now).value.feed, s.rows[h]) <==> !Slips(s, account, now, s.rows[h])
  {
    var r := s.rows[h];
    CompactionChooses(s, account, now);
    WhoDenies(s, account, now, r);
    WhoDenied(s, account, r);
    NewNoticeNames(s, account, now, h);
    hide FeedOk, Apart, RevokeAll, Kept, Tokens, DeniedBy, NamedByFamily, LiveOfAccount;
    var stored := Keeper(s.feed, account);
  }

  /** Other accounts' rows keep their denials. */
  lemma RowElsewhereAfter(s: State, account: nat, now: int, r: Row)
    requires FeedOk(s) && RevokeAll(s, account, now).Some? && r.account != account
    ensures DeniedBy(RevokeAll(s, account, now).value.feed, r) <==> DeniedBy(s.feed, r)
  {
    var t, k := RevokeAll(s, account, now).value, Kept(s, account, now);
    KeptOfAccount(s, account, now);
    hide FeedOk, RevokeAll, Kept;
    if DeniedBy(t.feed, r) {
      var n :| n in t.feed && Denies(n, r);
      RevokeAllFeed(s, account, now, n);
    }
    if DeniedBy(s.feed, r) {
      var n :| n in s.feed && Denies(n, r);
      RevokeAllFeed(s, account, now, n);
      assert n in t.feed && Denies(n, r);
    }
  }

  lemma KeptOfAccount(s: State, account: nat, now: int)
    requires FeedOk(s)
    ensures OfAccount(Kept(s, account, now), account)
  {
    CompactionChooses(s, account, now);
  }

  lemma RowAfterLogout(s: State, account: nat, now: int, h: nat)
    requires FeedOk(s) && Apart(s.rows) && now <= s.clock && RevokeAll(s, account, now).Some?
    requires h in s.rows && Accounted(s, s.rows[h])
    ensures h in RevokeAll(s, account, now).value.rows
    ensures Accounted(RevokeAll(s, account, now).value, RevokeAll(s, account, now).value.rows[h]) <==>
            !Slips(s, account, now, s.rows[h])
  {
    var t, r := RevokeAll(s, account, now).value, s.rows[h];
    assert t.clock == s.clock && t.rows == RevokeAccount(s.rows, account);
    var r' := t.rows[h];
    assert Later(r, r') && (r.account == account ==> r'.revoked) && (r.account != account ==> r' == r);
    if r.accessExpiresAt > s.clock {
      DenialReadsIds(t.feed, r, r');
      if r.account == account {
        RowOfAccountAfter(s, account, now, h);
      } else {
        RowElsewhereAfter(s, account, now, r);
      }
    }
  }

  /** A logout everywhere keeps every revoked token denied exactly if no row slips through. */
  lemma LogoutEverywhereKeepsIff(s: State, token: nat, now: int)
    requires Reachable(s) && Announced(s) && Enabled(s, LogoutEverywhere(token, now))
    ensures Announced(Next(s, LogoutEverywhere(token, now))) <==> Sealed(s, LogoutEverywhere(token, now))
  {
    ReachableFeed(s);
    var t := Next(s, LogoutEverywhere(token, now));
    if token in s.rows && RevokeAll(s, s.rows[token].account, now).Some? {
      var a := s.rows[token].account;
      assert t.rows.Keys == s.rows.Keys;
      forall h | h in s.rows
        ensures Accounted(t, t.rows[h]) <==> !Slips(s, a, now, s.rows[h])
      {
        hide FeedOk, Slips, RevokeAll;
        RowAfterLogout(s, a, now, h);
      }
      hide Accounted, Slips, RevokeAll;
    }
  }

  // ------------------------------------------------------------------ over whole runs

  /** Every step but a logout everywhere keeps revoked tokens denied; that one does exactly if it is sealed. */
  lemma StepAnnouncesIff(s: State, e: Event)
    requires Reachable(s) && Announced(s) && Enabled(s, e)
    ensures Announced(Next(s, e)) <==> Sealed(s, e)
  {
    ReachableAccounts(s);
    hide Announced, Accounted, Tokens, AppendAccount, AppendFamily, OneAccountPerFamily, RevokeAll, RevokeOne, Slips;
    match e
    case Evict(a, f, now) => FamilyRevocationAnnounces(s, a, f, now);
    case Logout(h, now) =>
      if h in s.rows {
        FamilyRevocationAnnounces(s, s.rows[h].account, s.rows[h].family, now);
      }
    case LogoutEverywhere(h, now) => LogoutEverywhereKeepsIff(s, h, now);
    case Birth(_, _, _, _) => QuietStepKeepsAnnounced(s, e);
    case Tick(_) => QuietStepKeepsAnnounced(s, e);
    case Present(_, _, _, _, _) => PresentAnnounces(s, e);
    case ReadFeed(now) => ReadingAnnounces(s, now);
  }

  /** At every moment of the run all revoked tokens are denied. */
  ghost predicate AlwaysAnnounced(s0: State, es: seq<Event>)
    requires Exec(s0, es).Some?
  {
    Announced(Exec(s0, es).value) && (es != [] ==> AlwaysAnnounced(s0, es[..|es| - 1]))
  }

  /** Every logout everywhere of the run is sealed. */
  ghost predicate AllSealed(s0: State, es: seq<Event>)
    requires Exec(s0, es).Some?
  {
    es != [] ==> AllSealed(s0, es[..|es| - 1]) && Sealed(Exec(s0, es[..|es| - 1]).value, es[|es| - 1])
  }

  /** Through every refresh, eviction, logout, compaction and pruning, no revoked token is ever usable and
      undenied, exactly if no logout everywhere of the run lets a row slip. */
  lemma {:induction false} RevokedMeansDeniedIff(s0: State, es: seq<Event>)
    requires Initial(s0) && Exec(s0, es).Some?
    ensures AlwaysAnnounced(s0, es) <==> AllSealed(s0, es)
  {
    if es != [] {
      RevokedMeansDeniedIff(s0, es[..|es| - 1]);
      var m, e := Exec(s0, es[..|es| - 1]).value, es[|es| - 1];
      assert Reachable(m);
      hide Announced, Sealed, Next, Enabled;
      if AlwaysAnnounced(s0, es[..|es| - 1]) {
        assert Announced(m);
        StepAnnouncesIff(m, e);
      }
    }
  }

  /** The logout's clock reading is not behind the birth of any row of its account. */
  predicate Timely(s: State, e: Event) {
    e.LogoutEverywhere? && e.token in s.rows ==>
      forall h :: h in s.rows && s.rows[h].account == s.rows[e.token].account ==> s.rows[h].createdAt <= e.now
  }

  ghost predicate AllTimely(s0: State, es: seq<Event>)
    requires Exec(s0, es).Some?
  {
    es != [] ==> AllTimely(s0, es[..|es| - 1]) && Timely(Exec(s0, es[..|es| - 1]).value, es[|es| - 1])
  }

  predicate NoYounger(rows: Rows, n: Notice) {
    forall h :: h in rows && n.family.None? && Lists(n, rows[h]) ==> rows[h].createdAt <= n.cutoff
  }

  /** No account-wide notice names a row younger than its cutoff. */
  predicate NamesAtCutoff(s: State) {
    forall n :: n in s.feed ==> NoYounger(s.rows, n)
  }

  lemma NoYoungerLater(rows: Rows, rows': Rows, n: Notice)
    requires NoYounger(rows, n) && Extends(rows, rows') && Backed(rows, n) && Apart(rows')
    ensures NoYounger(rows', n)
  {
    forall h | h in rows' && n.family.None? && Lists(n, rows'[h])
      ensures rows'[h].createdAt <= n.cutoff
    {
      if h in rows {
        assert Later(rows[h], rows'[h]) && Lists(n, rows[h]);
      } else {
        NotIssuedBefore(rows, rows', h);
      }
    }
  }

  lemma NotIssuedBefore(rows: Rows, rows': Rows, h: nat)
    requires Extends(rows, rows') && Apart(rows') && h in rows' && h !in rows
    ensures forall k :: k in rows ==> !IsTokenOf(CpToken(rows'[h]), rows[k])
  {
    forall k | k in rows
      ensures !IsTokenOf(CpToken(rows'[h]), rows[k])
    {
      assert Later(rows[k], rows'[k]) && Ids(rows'[h]) !! Ids(rows'[k]);
      assert rows'[h].cp in Ids(rows'[h]);
    }
  }

  lemma TimelyStepNamesAtCutoff(s: State, e: Event)
    requires Reachable(s) && Enabled(s, e) && Timely(s, e) && NamesAtCutoff(s)
    ensures NamesAtCutoff(Next(s, e))
  {
    ReachableFeed(s);
    StepExtends(s, e);
    StepKeepsApart(s, e);
    var t := Next(s, e);
    assert forall m :: m in s.feed ==> NoticeOk(s, m);
    forall n | n in t.feed
      ensures NoYounger(t.rows, n)
    {
      if n in s.feed {
        NoYoungerLater(s.rows, t.rows, n);
      } else if n.family.None? {
        NewAccountWide(s, e, n);
      }
    }
  }

  /** An account-wide notice that was not there is what pruning left of one, or the one that the logout kept. */
  lemma NewAccountWide(s: State, e: Event, n: Notice)
    requires FeedOk(s) && Enabled(s, e) && Timely(s, e) && NamesAtCutoff(s)
    requires n in Next(s, e).feed && n !in s.feed && n.family.None?
    ensures NoYounger(Next(s, e).rows, n)
  {
    hide Tokens, Rotated, Replayable, FeedOk, RevokeAll, Kept;
    if e.ReadFeed? {
      var m :| m in s.feed && n == Trimmed(m, e.now);
      assert NoYounger(s.rows, m);
    } else {
      assert e.LogoutEverywhere? && e.token in s.rows && RevokeAll(s, s.rows[e.token].account, e.now).Some?;
      var a := s.rows[e.token].account;
      RevokeAllFeed(s, a, e.now, n);
      CompactionChooses(s, a, e.now);
      RevokeAllRows(s, a, e.now);
      forall h | h in Next(s, e).rows && Lists(n, Next(s, e).rows[h])
        ensures Next(s, e).rows[h].createdAt <= n.cutoff
      {
        assert s.rows[h].account == a;
      }
    }
  }

  lemma RevokeAllRows(s: State, account: nat, now: int)
    requires RevokeAll(s, account, now).Some?
    ensures RevokeAll(s, account, now).value.rows == RevokeAccount(s.rows, account)
    ensures RevokeAll(s, account, now).value.clock == s.clock
  {
  }

  /** Nothing slips through a logout that is not behind. */
  lemma TimelyIsSealed(s: State, e: Event)
    requires Reachable(s) && Announced(s) && NamesAtCutoff(s) && Enabled(s, e) && Timely(s, e)
    ensures Sealed(s, e)
  {
    if e.LogoutEverywhere? && e.token in s.rows {
      ReachableFeed(s);
      var a := s.rows[e.token].account;
      forall h | h in s.rows
        ensures !Slips(s, a, e.now, s.rows[h])
      {
        var r := s.rows[h];
        if r.account == a {
          WhoDenied(s, a, r);
          assert Accounted(s, r);
        }
      }
    }
  }

  lemma {:induction false} TimelyRunsAnnounce(s0: State, es: seq<Event>)
    requires Initial(s0) && Exec(s0, es).Some? && AllTimely(s0, es)
    ensures Announced(Exec(s0, es).value) && NamesAtCutoff(Exec(s0, es).value)
  {
    if es != [] {
      TimelyRunsAnnounce(s0, es[..|es| - 1]);
      var m, e := Exec(s0, es[..|es| - 1]).value, es[|es| - 1];
      assert Reachable(m);
      hide Announced, NamesAtCutoff, Sealed, Timely, Next, Enabled;
      TimelyIsSealed(m, e);
      StepAnnouncesIff(m, e);
      TimelyStepNamesAtCutoff(m, e);
    }
  }

  /** As long as no logout everywhere reads its clock before the birth of a row it revokes, the access tokens
      of every revoked row have expired, or the feed names them or cuts them off, through every refresh,
      eviction, compaction and pruning. */
  lemma RevokedMeansDenied(s0: State, es: seq<Event>, h: nat)
    requires Initial(s0) && Exec(s0, es).Some? && AllTimely(s0, es)
    requires
      var s := Exec(s0, es).value;
      h in s.rows && s.rows[h].revoked && s.rows[h].accessExpiresAt > s.clock
    ensures
      var s := Exec(s0, es).value;
      exists n :: n in s.feed && n.account == s.rows[h].account
                  && ((CpToken(s.rows[h]) in n.tokens && NodeToken(s.rows[h]) in n.tokens)
                        || (n.family.None? && s.rows[h].createdAt < n.cutoff))
  {
    var s := Exec(s0, es).value;
    TimelyRunsAnnounce(s0, es);
    assert Accounted(s, s.rows[h]);
    var n :| n in s.feed && Denies(n, s.rows[h]);
  }

  // ------------------------------------------------------------------ a logout that is behind

  /** A logout everywhere reads the clock and stalls; in the next second another commits, and the account
      logs in again. When the first commits, its notice gives way to the one with the later cutoff, and the
      new session is revoked with no notice denying its tokens for the rest of their fifteen minutes. */
  lemma LogoutThatIsBehind() returns (s0: State, es: seq<Event>, s: State)
    ensures Initial(s0) && Exec(s0, es) == Some(s)
    ensures 3 in s.rows && s.rows[3].revoked && s.rows[3].accessExpiresAt > s.clock && !DeniedBy(s.feed, s.rows[3])
  {
    hide Next, Enabled, Exec, DeniedBy, Newborn;
    s0 := State(map[], [], 0, 11, []);
    var a, b := Newborn(7, 10, Names(0, 1, 2), 11, 11), Newborn(7, 20, Names(3, 4, 5), 12, 12);
    var n := Notice(1, 7, None, 12, 12, {});
    var gone := map[0 := a.(revoked := true)];
    var s1 := s0.(rows := map[0 := a]);
    var s2 := s1.(clock := 12);
    var s3 := s2.(rows := gone, feed := [n], issued := 1);
    var s4 := s3.(rows := gone[3 := b]);
    s := s4.(rows := gone[3 := b.(revoked := true)], issued := 2);
    BehindLogins(s0, s3, a, b);
    BehindFirst(s2, a, n);
    BehindSecond(s4, a, b, n);
    BehindUndenied(s, b, n);
    ClockTicks(s1, 1);
    es := RunOf5(s0, s1, s2, s3, s4, s,
                 [Birth(7, 10, Names(0, 1, 2), 11), Tick(1), LogoutEverywhere(0, 12), Birth(7, 20, Names(3, 4, 5), 12),
                     LogoutEverywhere(0, 11)]);
  }

  lemma ClockTicks(s: State, n: nat)
    ensures Enabled(s, Tick(n)) && Next(s, Tick(n)) == s.(clock := s.clock + n)
  {
  }

  lemma BehindLogins(s: State, t: State, a: Row, b: Row)
    requires a == Newborn(7, 10, Names(0, 1, 2), 11, 11) && b == Newborn(7, 20, Names(3, 4, 5), 12, 12)
    requires s.rows == map[] && s.clock == 11 && t.rows == map[0 := a.(revoked := true)] && t.clock == 12
    ensures Enabled(s, Birth(7, 10, Names(0, 1, 2), 11))
            && Next(s, Birth(7, 10, Names(0, 1, 2), 11)) == s.(rows := map[0 := a])
    ensures Enabled(t, Birth(7, 20, Names(3, 4, 5), 12))
            && Next(t, Birth(7, 20, Names(3, 4, 5), 12)) == t.(rows := t.rows[3 := b])
  {
    BirthInserts(s, 7, 10, Names(0, 1, 2), 11);
    BirthInserts(t, 7, 20, Names(3, 4, 5), 12);
    assert map[][0 := a] == map[0 := a];
    hide Next;
  }

  lemma BehindUndenied(s: State, b: Row, n: Notice)
    requires b == Newborn(7, 20, Names(3, 4, 5), 12, 12) && n == Notice(1, 7, None, 12, 12, {})
    requires 3 in s.rows && s.rows[3] == b.(revoked := true) && s.feed == [n] && s.clock == 12
    ensures s.rows[3].revoked && s.rows[3].accessExpiresAt > s.clock && !DeniedBy(s.feed, s.rows[3])
  {
  }

  lemma RunOf5(s0: State, s1: State, s2: State, s3: State, s4: State, s5: State, e: seq<Event>) returns (es: seq<Event>)
    requires |e| == 5
    requires Enabled(s0, e[0]) && Next(s0, e[0]) == s1 && Enabled(s1, e[1]) && Next(s1, e[1]) == s2
    requires Enabled(s2, e[2]) && Next(s2, e[2]) == s3 && Enabled(s3, e[3]) && Next(s3, e[3]) == s4
    requires Enabled(s4, e[4]) && Next(s4, e[4]) == s5
    ensures es == e && Exec(s0, es) == Some(s5)
  {
    es := e;
    hide Enabled, Next;
    assert Exec(s0, e[..0]) == Some(s0);
    assert e[..1][..0] == e[..0] && Exec(s0, e[..1]) == Some(s1);
    assert e[..2][..1] == e[..1] && Exec(s0, e[..2]) == Some(s2);
    assert e[..3][..2] == e[..2] && Exec(s0, e[..3]) == Some(s3);
    assert e[..4][..3] == e[..3] && Exec(s0, e[..4]) == Some(s4);
  }

  lemma BehindFirst(s: State, a: Row, n: Notice)
    requires a == Newborn(7, 10, Names(0, 1, 2), 11, 11) && n == Notice(1, 7, None, 12, 12, {})
    requires s == State(map[0 := a], [], 0, 12, [])
    ensures Enabled(s, LogoutEverywhere(0, 12))
    ensures Next(s, LogoutEverywhere(0, 12)) == s.(rows := map[0 := a.(revoked := true)], feed := [n], issued := 1)
  {
    assert LiveOfAccount(s.rows, 7, 12) == {};
    assert Tokens(s.rows, {}) == {};
    var feed := [] + [n];
    assert feed[..0] == [] && Keeper([], 7) == None && Keeper(feed, 7) == Some(n);
    assert Merged(feed, 7, 12) == {};
    assert Keep([], 7, n) == [] && Keep(feed, 7, n) == [n];
    assert RevokeAccount(s.rows, 7) == map[0 := a.(revoked := true)];
  }

  lemma BehindSecond(s: State, a: Row, b: Row, n: Notice)
    requires a == Newborn(7, 10, Names(0, 1, 2), 11, 11) && n == Notice(1, 7, None, 12, 12, {})
    requires b == Newborn(7, 20, Names(3, 4, 5), 12, 12)
    requires s == State(map[0 := a.(revoked := true)][3 := b], [n], 1, 12, [])
    ensures Enabled(s, LogoutEverywhere(0, 11))
    ensures Next(s, LogoutEverywhere(0, 11)) ==
            s.(rows := map[0 := a.(revoked := true)][3 := b.(revoked := true)], issued := 2)
  {
    assert LiveOfAccount(s.rows, 7, 11) == {3};
    assert RevokeAccount(s.rows, 7) == map[0 := a.(revoked := true)][3 := b.(revoked := true)];
    var tokens := Tokens(s.rows, {3});
    assert tokens == {CpToken(b), NodeToken(b)};
    hide Tokens, LiveOfAccount, RevokeAccount;
    OlderIsDropped(n, tokens);
  }

  /** A notice with an older cutoff goes at once. */
  lemma OlderIsDropped(n: Notice, tokens: set<Token>)
    requires n == Notice(1, 7, None, 12, 12, {}) && |tokens| <= MaxTokens
    ensures AppendAccount([n], 2, 7, tokens, 11) == Some([n])
  {
    var m := Notice(2, 7, None, 11, 11, tokens);
    var feed := [n] + [m];
    assert feed[..1] == [n] && [n][..0] == [];
    assert Keeper([], 7) == None && Keeper([n], 7) == Some(n) && Keeper(feed, 7) == Some(n);
    assert Merged(feed, 7, 12) == {} && KeptNotice(feed, 7) == n;
    assert Keep([], 7, n) == [] && Keep([n], 7, n) == [n] && Keep(feed, 7, n) == [n] + [];
    assert |n.tokens| == 0 && [n] + [] == [n];
  }
}
