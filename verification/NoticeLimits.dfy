/** Which revocation notices the store accepts: the limits on insertion against the limit on a notice. */
module NoticeLimits {
  import opened Codec
  import opened RefreshFamilies
  import opened FamilyTheorems
  import opened FamilyFeed

  /** No row of the family is younger. */
  predicate FamilyBornBy(rows: Rows, family: nat, t: int) {
    forall h :: h in rows && rows[h].family == family ==> rows[h].createdAt <= t
  }

  predicate AccountBornBy(rows: Rows, account: nat, t: int) {
    forall h :: h in rows && rows[h].account == account ==> rows[h].createdAt <= t
  }

  /** The store's two insertion limits, as they stand at any later time. */
  ghost predicate Bounded(rows: Rows) {
    && (forall f: nat, t: int :: FamilyBornBy(rows, f, t) ==> |Retained(rows, f, t)| <= MaxRetained)
    && (forall a: nat, t: int :: |BornAt(rows, a, t)| <= MaxRetained)
  }

  lemma SameKeysKeepBounded(rows: Rows, rows': Rows)
    requires Bounded(rows) && Extends(rows, rows') && rows'.Keys == rows.Keys
    ensures Bounded(rows')
  {
    forall f: nat, t: int | FamilyBornBy(rows', f, t)
      ensures |Retained(rows', f, t)| <= MaxRetained
    {
      assert forall h :: h in rows ==> Later(rows[h], rows'[h]);
      assert FamilyBornBy(rows, f, t);
      SubsetIsSmaller(Retained(rows', f, t), Retained(rows, f, t));
    }
    forall a: nat, t: int
      ensures |BornAt(rows', a, t)| <= MaxRetained
    {
      assert forall h :: h in rows ==> Later(rows[h], rows'[h]);
      SubsetIsSmaller(BornAt(rows', a, t), BornAt(rows, a, t));
    }
  }

  lemma InsertKeepsRetained(rows: Rows, h: nat, row: Row, f: nat, t: int)
    requires Bounded(rows) && Insert(rows, h, row).Some? && FamilyBornBy(rows[h := row], f, t)
    ensures |Retained(rows[h := row], f, t)| <= MaxRetained
  {
    var rows' := rows[h := row];
    if f == row.family {
      assert rows'[h] == row && row.createdAt <= t;
      SubsetIsSmaller(Retained(rows', f, t), Retained(rows, f, row.createdAt) + {h});
    } else {
      assert forall k :: k in rows ==> k in rows' && rows'[k] == rows[k];
      assert FamilyBornBy(rows, f, t);
      assert Retained(rows', f, t) == Retained(rows, f, t);
    }
  }

  lemma InsertKeepsBornAt(rows: Rows, h: nat, row: Row, a: nat, t: int)
    requires Bounded(rows) && Insert(rows, h, row).Some?
    ensures |BornAt(rows[h := row], a, t)| <= MaxRetained
  {
    if a == row.account && t == row.createdAt {
      SubsetIsSmaller(BornAt(rows[h := row], a, t), BornAt(rows, a, t) + {h});
    } else {
      assert BornAt(rows[h := row], a, t) == BornAt(rows, a, t);
    }
  }

  lemma InsertKeepsBounded(rows: Rows, h: nat, row: Row)
    requires Bounded(rows) && Insert(rows, h, row).Some?
    ensures Bounded(Insert(rows, h, row).value)
  {
    hide Retained, BornAt, Bounded, FamilyBornBy;
    var rows' := rows[h := row];
    forall f: nat, t: int | FamilyBornBy(rows', f, t)
      ensures |Retained(rows', f, t)| <= MaxRetained
    {
      InsertKeepsRetained(rows, h, row, f, t);
    }
    forall a: nat, t: int
      ensures |BornAt(rows', a, t)| <= MaxRetained
    {
      InsertKeepsBornAt(rows, h, row, a, t);
    }
    assert Insert(rows, h, row).value == rows';
    BoundedIfEach(rows');
  }

  lemma BoundedIfEach(rows: Rows)
    requires forall f: nat, t: int :: FamilyBornBy(rows, f, t) ==> |Retained(rows, f, t)| <= MaxRetained
    requires forall a: nat, t: int :: |BornAt(rows, a, t)| <= MaxRetained
    ensures Bounded(rows)
  {
  }

  lemma RotationKeepsBounded(rows: Rows, h: nat, names: RefreshFamilies.Names, now: int)
    requires Bounded(rows) && h in rows && Rotated(rows, h, names, now).Some?
    ensures Bounded(Rotated(rows, h, names, now).value)
  {
    hide Bounded, Retained, BornAt;
    var pair := Pair(names.cp, names.node, names.refresh);
    var cleared := ClearCaches(rows, rows[h].family, h);
    var stamped := cleared[h :=
        cleared[h].(supersededBy := Some(names.refresh), supersededAt := now, cache := Some(pair))];
    SameKeysKeepBounded(rows, stamped);
    InsertKeepsBounded(stamped, names.refresh,
        Newborn(rows[h].account, rows[h].family, names, now, rows[h].familyCreatedAt));
  }

  lemma StepKeepsBounded(s: State, e: Event)
    requires Bounded(s.rows) && Enabled(s, e)
    ensures Bounded(Next(s, e).rows)
  {
    StepExtends(s, e);
    hide Bounded, Extends, Tokens, AppendFamily, AppendAccount;
    if Next(s, e).rows.Keys == s.rows.Keys {
      SameKeysKeepBounded(s.rows, Next(s, e).rows);
    } else if e.Birth? {
      InsertKeepsBounded(s.rows, e.names.refresh, Newborn(e.account, e.family, e.names, e.now, e.now));
    } else {
      RotationKeepsBounded(s.rows, e.token, e.names, e.now);
    }
  }

  lemma {:induction false} RunsAreBounded(s0: State, es: seq<Event>)
    requires Initial(s0) && Exec(s0, es).Some?
    ensures Bounded(Exec(s0, es).value.rows)
  {
    if es != [] {
      RunsAreBounded(s0, es[..|es| - 1]);
      hide Next, Enabled, Bounded;
      StepKeepsBounded(Exec(s0, es[..|es| - 1]).value, es[|es| - 1]);
    }
  }

  // ------------------------------------------------------------------ what fits

  /** A family can be revoked exactly while at most 512 of its rows have unexpired access tokens by the
      clock as it was read; a reading not behind the birth of any of its rows sees at most 384. */
  lemma FamilyNoticeFitsIff(s: State, h: nat, now: int)
    requires Reachable(s) && h in s.rows && 0 < now <= s.clock
    ensures RevokeOne(s, s.rows[h].account, s.rows[h].family, now).Some? <==>
            |LiveOfFamily(s.rows, s.rows[h].family, now)| <= 512
    ensures FamilyBornBy(s.rows, s.rows[h].family, now) ==> |LiveOfFamily(s.rows, s.rows[h].family, now)| <= 384
  {
    var f := s.rows[h].family;
    ReachableFeed(s);
    var s0, es :| Initial(s0) && Exec(s0, es) == Some(s);
    RunsAreBounded(s0, es);
    CountTokens(s.rows, LiveOfFamily(s.rows, f, now));
    SubsetIsSmaller(LiveOfFamily(s.rows, f, now), Retained(s.rows, f, now));
  }

  /** An account-wide notice names no more than the rows born in the second it was read in, if none was
      born later: nor does what it is merged with. */
  lemma AccountNoticeIsBornNow(s: State, account: nat, now: int)
    requires FeedOk(s) && Apart(s.rows) && AccountBornBy(s.rows, account, now)
    ensures AccountNotice(s, account, now).tokens <= Tokens(s.rows, BornAt(s.rows, account, now))
    ensures Keeper(s.feed, account).Some? && Keeper(s.feed, account).value.cutoff == now ==>
              Keeper(s.feed, account).value.tokens <= Tokens(s.rows, BornAt(s.rows, account, now))
  {
    var born := BornAt(s.rows, account, now);
    assert LiveOfAccount(s.rows, account, now) <= born;
    if Keeper(s.feed, account).Some? && Keeper(s.feed, account).value.cutoff == now {
      var n := Keeper(s.feed, account).value;
      assert NoticeOk(s, n);
      forall k | k in n.tokens
        ensures k in Tokens(s.rows, born)
      {
        var h :| h in s.rows && IsTokenOf(k, s.rows[h]) && s.rows[h].account == n.account
            && (n.family.None? ==> s.rows[h].createdAt >= n.cutoff);
        assert h in born;
      }
    }
  }

  /** A logout everywhere is accepted whenever no row of the account was born after its clock reading, the
      compaction with a notice of the same second included: 768 tokens are the most it can name. Otherwise
      it is refused exactly if more than 512 live rows were born since, or the merged notice is too long. */
  lemma AccountNoticeFits(s: State, account: nat, now: int)
    requires Reachable(s) && 0 < now <= s.clock
    ensures RevokeAll(s, account, now).Some? <==>
            |LiveOfAccount(s.rows, account, now)| <= 512 && |Kept(s, account, now).tokens| <= 1024
    ensures AccountBornBy(s.rows, account, now) ==>
            |LiveOfAccount(s.rows, account, now)| <= 384 && RevokeAll(s, account, now).Some?
    ensures AccountBornBy(s.rows, account, now) && Kept(s, account, now).cutoff == now ==>
            |Kept(s, account, now).tokens| <= 768
  {
    ReachableFeed(s);
    CountTokens(s.rows, LiveOfAccount(s.rows, account, now));
    var s0, es :| Initial(s0) && Exec(s0, es) == Some(s);
    RunsAreBounded(s0, es);
    assert RevokeAll(s, account, now).Some? <==>
           |Tokens(s.rows, LiveOfAccount(s.rows, account, now))| <= MaxTokens
               && |Kept(s, account, now).tokens| <= MaxTokens;
    hide RevokeAll, Kept, Tokens, LiveOfAccount, Bounded, FeedOk, Apart, Exec;
    if AccountBornBy(s.rows, account, now) {
      KeptFits(s, account, now);
    }
  }

  lemma KeptFits(s: State, account: nat, now: int)
    requires FeedOk(s) && Apart(s.rows) && AccountBornBy(s.rows, account, now) && Bounded(s.rows)
    ensures |LiveOfAccount(s.rows, account, now)| <= 384 && |Kept(s, account, now).tokens| <= 1024
    ensures Kept(s, account, now).cutoff == now ==> |Kept(s, account, now).tokens| <= 768
  {
    var born, prior := BornAt(s.rows, account, now), Keeper(s.feed, account);
    AccountNoticeIsBornNow(s, account, now);
    SubsetIsSmaller(LiveOfAccount(s.rows, account, now), born);
    CountTokens(s.rows, born);
    CompactionChooses(s, account, now);
    assert prior.Some? ==> NoticeOk(s, prior.value);
    assert |born| <= MaxRetained;
    hide Tokens, LiveOfAccount, BornAt, KeptNotice, Kept, Bounded, FeedOk, Apart, Backed, AccountBornBy;
    if Kept(s, account, now).cutoff == now {
      SubsetIsSmaller(Kept(s, account, now).tokens, Tokens(s.rows, born));
    }
  }

  // ------------------------------------------------------------------ what does not

  function CrowdNames(i: nat): RefreshFamilies.Names {
    RefreshFamilies.Names(i, 2 * i, 2 * i + 1)
  }

  function Crowded(n: nat, account: nat): Rows {
    map i | 0 <= i < n :: Newborn(account, i, CrowdNames(i), 11 + i, 11 + i)
  }

  /** An account that logged in `n` times, once a second. */
  function Crowd(n: nat, account: nat): State {
    State(Crowded(n, account), [], 0, 11 + n, [])
  }

  lemma CrowdAdmits(n: nat, account: nat)
    ensures Enabled(Crowd(n, account), Birth(account, n, CrowdNames(n), 11 + n))
  {
  }

  lemma CrowdedGrows(n: nat, account: nat)
    ensures Crowded(n, account)[n := Newborn(account, n, CrowdNames(n), 11 + n, 11 + n)] == Crowded(n + 1, account)
    ensures forall h :: h in Crowded(n, account) ==> Crowded(n, account)[h].createdAt != 11 + n
  {
  }

  lemma CrowdGrows(n: nat, account: nat)
    ensures Enabled(Crowd(n, account), Birth(account, n, CrowdNames(n), 11 + n))
    ensures Next(Crowd(n, account), Birth(account, n, CrowdNames(n), 11 + n)) ==
            Crowd(n, account).(rows := Crowded(n + 1, account))
  {
    CrowdAdmits(n, account);
    CrowdedGrows(n, account);
    hide Enabled, Next, Crowded, Newborn;
    BirthInserts(Crowd(n, account), account, n, CrowdNames(n), 11 + n);
    assert CrowdNames(n).refresh == n;
  }

  lemma CrowdTicks(n: nat, account: nat)
    ensures Enabled(Crowd(n, account).(rows := Crowded(n + 1, account)), Tick(1))
    ensures Next(Crowd(n, account).(rows := Crowded(n + 1, account)), Tick(1)) == Crowd(n + 1, account)
  {
    hide Crowded;
  }

  lemma CrowdRunGrows(s0: State, es: seq<Event>, n: nat, account: nat) returns (es': seq<Event>)
    requires Exec(s0, es) == Some(Crowd(n, account))
    ensures Exec(s0, es') == Some(Crowd(n + 1, account))
  {
    CrowdGrows(n, account);
    CrowdTicks(n, account);
    hide *;
    var e := Birth(account, n, CrowdNames(n), 11 + n);
    ExecOneMore(s0, es, Crowd(n, account), e);
    ExecOneMore(s0, es + [e], Crowd(n, account).(rows := Crowded(n + 1, account)), Tick(1));
    es' := es + [e] + [Tick(1)];
  }

  lemma {:induction false} CrowdIsReachable(n: nat, account: nat) returns (s0: State, es: seq<Event>)
    ensures Initial(s0) && Exec(s0, es) == Some(Crowd(n, account))
  {
    if n == 0 {
      s0, es := State(map[], [], 0, 11, []), [];
      assert Crowded(0, account) == map[];
    } else {
      s0, es := CrowdIsReachable(n - 1, account);
      hide *;
      es := CrowdRunGrows(s0, es, n - 1, account);
    }
  }

  lemma {:induction false} CrowdSize(n: nat, account: nat)
    ensures |Crowded(n, account).Keys| == n
  {
    if n == 0 {
      assert Crowded(n, account).Keys == {};
    } else {
      CrowdSize(n - 1, account);
      assert Crowded(n, account).Keys == Crowded(n - 1, account).Keys + {n - 1};
      assert n - 1 !in Crowded(n - 1, account).Keys;
      hide *;
    }
  }

  /** An account logs in 513 times within nine minutes; a logout everywhere that read the clock at the first
      of these would have to name 1026 tokens. It is refused, and no session is revoked. */
  lemma TooManyToAnnounce(account: nat) returns (s: State)
    ensures Reachable(s) && Enabled(s, LogoutEverywhere(0, 11)) && 0 in s.rows && s.rows[0].account == account
    ensures Next(s, LogoutEverywhere(0, 11)) == s && |s.rows| == 513 && forall h :: h in s.rows ==> !s.rows[h].revoked
  {
    s := Crowd(513, account);
    var s0, es := CrowdIsReachable(513, account);
    assert LiveOfAccount(s.rows, account, 11) == s.rows.Keys;
    CrowdSize(513, account);
    AccountNoticeFits(s, account, 11);
    assert RevokeAll(s, account, 11).None?;
  }
}
