/** What whole runs of logins, refreshes, replays, logouts and evictions guarantee. */
module FamilyTheorems {
  import opened Codec
  import opened RefreshFamilies

  // ------------------------------------------------------------------ what rows never lose

  /** `r'` is `r` later on: superseded or revoked perhaps, but still the same token. */
  predicate Later(r: Row, r': Row) {
    && r'.account == r.account && r'.family == r.family && r'.cp == r.cp && r'.node == r.node
    && r'.accessExpiresAt == r.accessExpiresAt && r'.createdAt == r.createdAt && r'.expiresAt == r.expiresAt
    && r'.familyCreatedAt == r.familyCreatedAt
    && (r.supersededBy.Some? ==> r'.supersededBy == r.supersededBy && r'.supersededAt == r.supersededAt)
    && (r.revoked ==> r'.revoked)
  }

  predicate Extends(rows: Rows, rows': Rows) {
    forall h :: h in rows ==> h in rows' && Later(rows[h], rows'[h])
  }

  lemma StepExtends(s: State, e: Event)
    requires Enabled(s, e)
    ensures Extends(s.rows, Next(s, e).rows)
  {
    hide Tokens, AppendFamily, AppendAccount, Replayable, Extends, Rotated, RevokeFamily, RevokeAccount;
    RevocationsExtend(s.rows, if e.Evict? then e.family else 0);
    if e.Logout? || e.LogoutEverywhere? || e.Present? {
      if e.token in s.rows {
        RevocationsExtend(s.rows, s.rows[e.token].family);
        RevocationsExtend(s.rows, s.rows[e.token].account);
      }
    }
    if e.Present? && e.token in s.rows && Rotated(s.rows, e.token, e.names, e.now).Some? {
      RotationShape(s.rows, e.token, e.names, e.now);
      RotationExtends(s.rows, e.token, Rotated(s.rows, e.token, e.names, e.now).value, e.names, e.now);
    }
    ExtendsItself(s.rows);
    if e.Birth? {
      InsertExtends(s.rows, e.names.refresh, Newborn(e.account, e.family, e.names, e.now, e.now));
    }
  }

  lemma ExtendsItself(rows: Rows)
    ensures Extends(rows, rows)
  {
  }

  lemma InsertExtends(rows: Rows, h: nat, row: Row)
    ensures Insert(rows, h, row).Some? ==> Extends(rows, Insert(rows, h, row).value)
  {
  }

  lemma RevocationsExtend(rows: Rows, x: nat)
    ensures Extends(rows, RevokeFamily(rows, x)) && Extends(rows, RevokeAccount(rows, x))
  {
  }

  lemma RotationExtends(rows: Rows, h: nat, rows': Rows, names: Names, now: int)
    requires h in rows && IsRotation(rows, h, rows', names, now)
    ensures Extends(rows, rows')
  {
  }

  /** Times stay within the family's bounds. */
  predicate RowOk(r: Row, clock: int) {
    && 0 < r.createdAt <= clock && r.createdAt < r.familyCreatedAt + FamilyMaxAge
    && r.accessExpiresAt == r.createdAt + AccessTTL && r.expiresAt == r.createdAt + Sliding
    && (r.supersededBy.Some? ==> r.supersededAt <= clock)
  }

  predicate RowsOk(s: State) {
    s.clock > 0 && forall h :: h in s.rows ==> RowOk(s.rows[h], s.clock)
  }

  lemma StepKeepsRowsOk(s: State, e: Event)
    requires RowsOk(s) && Enabled(s, e)
    ensures RowsOk(Next(s, e))
  {
    hide Tokens, AppendFamily, AppendAccount, Replayable;
    if e.Present? && e.token in s.rows && Rotated(s.rows, e.token, e.names, e.now).Some? {
      RotationShape(s.rows, e.token, e.names, e.now);
    }
  }

  /** A grant is the pair of the row that superseded the token presented. */
  predicate GrantOk(rows: Rows, g: Grant, clock: int) {
    && g.presented in rows && g.pair.refresh in rows
    && rows[g.presented].supersededBy == Some(g.pair.refresh)
    && rows[g.pair.refresh].cp == g.pair.cp && rows[g.pair.refresh].node == g.pair.node
    && rows[g.pair.refresh].family == rows[g.presented].family
    && g.at < rows[g.presented].familyCreatedAt + FamilyMaxAge && g.at < rows[g.presented].expiresAt && g.at <= clock
  }

  predicate GrantsOk(s: State) {
    forall i :: 0 <= i < |s.grants| ==> GrantOk(s.rows, s.grants[i], s.clock)
  }

  lemma StepKeepsGrantsOk(s: State, e: Event)
    requires GrantsOk(s) && Enabled(s, e)
             && (e.Present? && e.token in s.rows ==> Chained(s.rows, s.rows[e.token].family))
    ensures GrantsOk(Next(s, e))
  {
    StepExtends(s, e);
    OldGrantsStay(s, e);
    if e.Present? && e.token in s.rows && Next(s, e).grants != s.grants {
      NewGrantOk(s, e);
    }
  }

  lemma OldGrantsStay(s: State, e: Event)
    requires GrantsOk(s) && Extends(s.rows, Next(s, e).rows)
    ensures forall i :: 0 <= i < |s.grants| ==> GrantOk(Next(s, e).rows, s.grants[i], Next(s, e).clock)
    ensures |Next(s, e).grants| <= |s.grants| + 1 && s.grants <= Next(s, e).grants
  {
    hide Rotated, RevokeFamily, RevokeAccount, AppendFamily, AppendAccount, Tokens;
    assert Next(s, e).clock >= s.clock;
    forall i | 0 <= i < |s.grants|
      ensures GrantOk(Next(s, e).rows, s.grants[i], Next(s, e).clock)
    {
      GrantStays(s.rows, Next(s, e).rows, s.grants[i], s.clock, Next(s, e).clock);
    }
  }

  lemma GrantStays(rows: Rows, rows': Rows, g: Grant, clock: int, clock': int)
    requires GrantOk(rows, g, clock) && Extends(rows, rows') && clock <= clock'
    ensures GrantOk(rows', g, clock')
  {
  }

  lemma NewGrantOk(s: State, e: Event)
    requires e.Present? && Enabled(s, e) && e.token in s.rows && Chained(s.rows, s.rows[e.token].family)
    requires Next(s, e).grants != s.grants
    ensures |Next(s, e).grants| == |s.grants| + 1
    ensures GrantOk(Next(s, e).rows, Next(s, e).grants[|s.grants|], s.clock)
  {
    hide Tokens, AppendFamily;
    var h := e.token;
    if Replayable(s.rows[h], e.now) {
      CacheIsSuccessor(s.rows, h);
    } else {
      RotationShape(s.rows, h, e.names, e.now);
    }
  }

  /** A superseded row's cache is there exactly while its successor is the unrevoked family's last row,
      and then holds that successor's pair. */
  lemma CacheIsSuccessor(rows: Rows, h: nat)
    requires h in rows && Chained(rows, rows[h].family) && rows[h].supersededBy.Some?
    ensures
      var k := rows[h].supersededBy.value;
      && k in rows && rows[k].family == rows[h].family
      && (rows[h].cache.Some? <==> rows[k].supersededBy.None? && !rows[h].revoked)
      && (rows[h].cache.Some? ==> rows[h].cache.value == Pair(rows[k].cp, rows[k].node, k))
  {
    var c :| IsChain(rows, rows[h].family, c);
    var i :| 0 <= i < |c| && c[i] == h;
    assert LinkAt(rows, c, i) && CacheAt(rows, c, i);
    assert c[i + 1] in c;
    HeadIsLast(rows, c[i + 1], c);
  }

  lemma {:induction false} RunsAreSound(s0: State, es: seq<Event>)
    requires Initial(s0) && Exec(s0, es).Some?
    ensures RowsOk(Exec(s0, es).value) && GrantsOk(Exec(s0, es).value)
  {
    if es != [] {
      var m, e := Exec(s0, es[..|es| - 1]).value, es[|es| - 1];
      RunsAreSound(s0, es[..|es| - 1]);
      if e.Present? && e.token in m.rows {
        RunsAreChained(s0, es[..|es| - 1], m.rows[e.token].family);
      }
      hide Next, Enabled, RowsOk, GrantsOk, Chained;
      StepKeepsRowsOk(m, e);
      StepKeepsGrantsOk(m, e);
    }
  }

  lemma ReachableSound(s: State)
    requires Reachable(s)
    ensures RowsOk(s) && GrantsOk(s)
  {
    var s0, es :| Initial(s0) && Exec(s0, es) == Some(s);
    RunsAreSound(s0, es);
  }

  // ------------------------------------------------------------------ rotation, replay and reuse

  /** Over a whole run, a token is only ever exchanged for one pair, however often it is presented. */
  lemma OnePairPerToken(s: State, i: nat, j: nat)
    requires Reachable(s) && i < |s.grants| && j < |s.grants| && s.grants[i].presented == s.grants[j].presented
    ensures s.grants[i].pair == s.grants[j].pair
  {
    ReachableSound(s);
    assert GrantOk(s.rows, s.grants[i], s.clock) && GrantOk(s.rows, s.grants[j], s.clock);
  }

  /** The token may still be used at `now`, by the row's own times. */
  predicate InForce(r: Row, now: int) {
    !r.revoked && now < r.familyCreatedAt + 90 * 86400 && now < r.createdAt + 30 * 86400
  }

  /** A presentation passes the checks exactly if the token is known and not revoked, its family is younger than
      ninety days, it was issued less than thirty days ago, and the proof is valid; else the first of these that
      fails is the answer, and nothing changes. Neither its access tokens' expiry nor its having been used
      matters. */
  lemma PresentationPassesIff(s: State, h: nat, proofOk: bool, fails: bool, names: Names, now: int)
    requires Reachable(s)
    ensures
      var (t, a) := Refresh(s, h, proofOk, fails, names, now);
      if h !in s.rows then a == Refused(NotFound) && t == s
      else if s.rows[h].revoked then a == Refused(FamilyRevoked) && t == s
      else if now >= s.rows[h].familyCreatedAt + 90 * 86400 then a == Refused(MaxAge) && t == s
      else if now >= s.rows[h].createdAt + 30 * 86400 then a == Refused(Expired) && t == s
      else if !proofOk then a == Refused(BadProof) && t == s
      else a.Granted? || a.why == StoreError || (a.why == FamilyRevoked && s.rows[h].supersededBy.Some?)
    ensures Refuse(s.rows, h, now, proofOk).None? <==> h in s.rows && InForce(s.rows[h], now) && proofOk
  {
    ReachableSound(s);
    assert h in s.rows ==> RowOk(s.rows[h], s.clock);
    hide Tokens, AppendFamily, Rotated, RowsOk, Reachable;
  }

  /** A superseded token that passes the checks is answered again exactly when it was superseded within
      the last 45 seconds, as the request reads the clock, and its successor has not been used: with that
      successor's pair, and nothing changes. Any other reuse commits the revocation of the whole family and
      is refused; unless the family has too many live tokens for one notice, when nothing is revoked. */
  lemma SupersededTokenFate(s: State, h: nat, fails: bool, names: Names, now: int)
    requires Reachable(s) && h in s.rows && InForce(s.rows[h], now) && s.rows[h].supersededBy.Some?
    ensures
      var (t, a) := Refresh(s, h, true, fails, names, now);
      var k := s.rows[h].supersededBy.value;
      && k in s.rows
      && (a.Granted? <==> !fails && now - s.rows[h].supersededAt <= 45 && s.rows[k].supersededBy.None?)
      && (a.Granted? ==> a.pair == Pair(s.rows[k].cp, s.rows[k].node, k) && t.rows == s.rows && t.feed == s.feed)
      && (a.Refused? && !fails && |Tokens(s.rows, LiveOfFamily(s.rows, s.rows[h].family, now))| <= 1024 ==>
            && a.why == FamilyRevoked && t.grants == s.grants
            && forall x :: x in s.rows && s.rows[x].family == s.rows[h].family ==>
                  t.rows[x].revoked && t.rows[x].cache.None?)
      && (a.Refused? && (fails || |Tokens(s.rows, LiveOfFamily(s.rows, s.rows[h].family, now))| > 1024) ==>
            a.why == StoreError && t == s)
  {
    PresentationPassesIff(s, h, true, fails, names, now);
    ReachableChained(s, s.rows[h].family);
    CacheIsSuccessor(s.rows, h);
    hide InForce, Reachable;
  }

  /** Every other refusal leaves the store as it was. */
  lemma RefusalsChangeNothing(s: State, h: nat, proofOk: bool, fails: bool, names: Names, now: int)
    requires Refresh(s, h, proofOk, fails, names, now).1.Refused?
    requires fails || Refuse(s.rows, h, now, proofOk).Some? || s.rows[h].supersededBy.None?
    ensures Refresh(s, h, proofOk, fails, names, now).0 == s
  {
  }

  /** A token that passes the checks and was not superseded is exchanged, when no store operation fails, exactly if
      its family has fewer than 384 rows whose access tokens outlive the request's clock reading, its account
      fewer than 384 born in that second, and the new name is free. */
  lemma UnusedIsGrantedIff(s: State, h: nat, names: Names, now: int)
    requires Reachable(s) && 0 < now && h in s.rows && InForce(s.rows[h], now) && s.rows[h].supersededBy.None?
    ensures
      var r := s.rows[h];
      Refresh(s, h, true, false, names, now).1.Granted? <==>
        && |set k | k in s.rows && s.rows[k].family == r.family && s.rows[k].accessExpiresAt > now| < 384
        && |set k | k in s.rows && s.rows[k].account == r.account && s.rows[k].createdAt == now| < 384
        && names.refresh !in s.rows
  {
    PresentationPassesIff(s, h, true, false, names, now);
    hide Reachable, InForce, AppendFamily, Tokens;
    RotatesIff(s.rows, h, names, now);
  }

  lemma RotatesIff(rows: Rows, h: nat, names: Names, now: int)
    requires 0 < now && h in rows && !rows[h].revoked && rows[h].supersededBy.None?
    ensures
      Rotated(rows, h, names, now).Some? <==>
        && |set k | k in rows && rows[k].family == rows[h].family && rows[k].accessExpiresAt > now| < 384
        && |set k | k in rows && rows[k].account == rows[h].account && rows[k].createdAt == now| < 384
        && names.refresh !in rows
  {
    var pair := Pair(names.cp, names.node, names.refresh);
    var cleared := ClearCaches(rows, rows[h].family, h);
    var stamped := cleared[h :=
        cleared[h].(supersededBy := Some(names.refresh), supersededAt := now, cache := Some(pair))];
    assert Retained(stamped, rows[h].family, now) ==
           set k | k in rows && rows[k].family == rows[h].family && rows[k].accessExpiresAt > now;
    assert BornAt(stamped, rows[h].account, now) ==
           set k | k in rows && rows[k].account == rows[h].account && rows[k].createdAt == now;
  }

  /** A token that passes the checks and was not superseded is exchanged for a new one, good for fifteen minutes
      and thirty days, which alone can be exchanged next. */
  lemma FreshTokenRotates(s: State, h: nat, names: Names, now: int)
    requires Reachable(s) && h in s.rows && InForce(s.rows[h], now) && s.rows[h].supersededBy.None?
    requires Refresh(s, h, true, false, names, now).1.Granted?
    ensures
      var (t, a) := Refresh(s, h, true, false, names, now);
      var r := s.rows[h];
      && a.pair == Pair(names.cp, names.node, names.refresh) && t == s.(rows := t.rows, grants := t.grants)
      && names.refresh !in s.rows && t.rows.Keys == s.rows.Keys + {names.refresh}
      && t.rows[names.refresh] ==
           Row(r.account, r.family, names.cp, names.node, now + 15 * 60, now, now + 30 * 86400, r.familyCreatedAt, None,
               0, None, false)
      && Refuse(t.rows, names.refresh, now, true).None?
      && t.rows[h] == r.(supersededBy := Some(names.refresh), supersededAt := now, cache := Some(a.pair))
      && forall k :: k in s.rows && k != h ==>
           t.rows[k] == if s.rows[k].family == r.family then s.rows[k].(cache := None) else s.rows[k]
  {
    PresentationPassesIff(s, h, true, false, names, now);
    RotationShape(s.rows, h, names, now);
    hide Reachable, Rotated, Tokens, AppendFamily;
  }

  // ------------------------------------------------------------------ revocation and age

  lemma {:induction false} RunExtends(s: State, es: seq<Event>)
    requires Exec(s, es).Some?
    ensures Extends(s.rows, Exec(s, es).value.rows)
  {
    if es != [] {
      RunExtends(s, es[..|es| - 1]);
      hide Next, Enabled;
      StepExtends(Exec(s, es[..|es| - 1]).value, es[|es| - 1]);
    }
  }

  lemma ReachableRun(s: State, es: seq<Event>)
    requires Reachable(s) && Exec(s, es).Some?
    ensures Reachable(Exec(s, es).value)
  {
    var s0, before :| Initial(s0) && Exec(s0, before) == Some(s);
    ExecConcat(s0, before, es);
  }

  lemma {:induction false} ExecConcat(s0: State, a: seq<Event>, b: seq<Event>)
    requires Exec(s0, a).Some?
    ensures Exec(s0, a + b) == Exec(Exec(s0, a).value, b)
  {
    if b == [] {
      assert a + b == a;
    } else {
      assert (a + b)[..|a + b| - 1] == a + b[..|b| - 1];
      ExecConcat(s0, a, b[..|b| - 1]);
    }
  }

  lemma ExecOneMore(s0: State, es: seq<Event>, m: State, e: Event)
    requires Exec(s0, es) == Some(m) && Enabled(m, e)
    ensures Exec(s0, es + [e]) == Some(Next(m, e))
  {
    assert (es + [e])[..|es|] == es;
  }

  lemma RevokedRowsGetNothing(s: State, e: Event)
    requires Enabled(s, e) && Next(s, e).grants != s.grants
    ensures e.Present? && e.token in s.rows && !s.rows[e.token].revoked
    ensures |Next(s, e).grants| == |s.grants| + 1 && s.grants == Next(s, e).grants[..|s.grants|]
    ensures Next(s, e).grants[|s.grants|].presented == e.token
  {
    hide Rotated, RevokeFamily, RevokeAccount, AppendFamily, AppendAccount, Tokens;
  }

  /** Revocation is absorbing: once a family is revoked no token of it is ever exchanged again. */
  lemma {:induction false} RevocationIsFinal(s: State, h: nat, es: seq<Event>)
    requires Reachable(s) && h in s.rows && s.rows[h].revoked && Exec(s, es).Some?
    ensures
      var t := Exec(s, es).value;
      && (forall k :: k in t.rows && t.rows[k].family == s.rows[h].family ==> t.rows[k].revoked)
      && |s.grants| <= |t.grants|
      && forall i :: |s.grants| <= i < |t.grants| ==>
           t.grants[i].presented in t.rows && t.rows[t.grants[i].presented].family != s.rows[h].family
  {
    ReachableRun(s, es);
    RunExtends(s, es);
    var t := Exec(s, es).value;
    var head := OneHeadPerFamily(t, h);
    if es != [] {
      var m, e := Exec(s, es[..|es| - 1]).value, es[|es| - 1];
      RevocationIsFinal(s, h, es[..|es| - 1]);
      assert t == Next(m, e);
      hide Next, Enabled, Reachable, Exec;
      StepExtends(m, e);
      if t.grants != m.grants {
        RevokedRowsGetNothing(m, e);
      }
    }
  }

  /** No refresh succeeds at or after the family's ninetieth day, nor thirty days after its token was
      issued, and no access token the family ever had lives past the ninetieth day by fifteen minutes. */
  lemma NothingOutlivesTheFamily(s: State, i: nat, h: nat)
    requires Reachable(s) && i < |s.grants| && h in s.rows
    ensures s.grants[i].presented in s.rows
    ensures s.grants[i].at < s.rows[s.grants[i].presented].familyCreatedAt + 90 * 86400
    ensures s.grants[i].at < s.rows[s.grants[i].presented].createdAt + 30 * 86400
    ensures s.rows[h].accessExpiresAt < s.rows[h].familyCreatedAt + 90 * 86400 + 15 * 60
  {
    ReachableSound(s);
    assert GrantOk(s.rows, s.grants[i], s.clock) && RowOk(s.rows[h], s.clock);
    assert RowOk(s.rows[s.grants[i].presented], s.clock);
  }

  /** Nothing is handed out without a valid proof of possession, nor for a token unknown or revoked. */
  lemma GrantsNeedProof(s: State, e: Event)
    requires Enabled(s, e) && Next(s, e).grants != s.grants
    ensures e.Present? && e.proofOk && e.token in s.rows && !s.rows[e.token].revoked
    ensures |Next(s, e).grants| == |s.grants| + 1 && Next(s, e).grants[|s.grants|].presented == e.token
            && Next(s, e).grants[|s.grants|].at == e.now
  {
    hide Rotated, RevokeFamily, RevokeAccount, AppendFamily, AppendAccount, Tokens;
  }

  /** A first login in a second goes through. */
  lemma BirthInserts(s: State, account: nat, family: nat, names: Names, now: int)
    requires Enabled(s, Birth(account, family, names, now))
    requires forall h :: h in s.rows && s.rows[h].account == account ==> s.rows[h].createdAt != now
    ensures Next(s, Birth(account, family, names, now)) ==
            s.(rows := s.rows[names.refresh := Newborn(account, family, names, now, now)])
  {
    assert Retained(s.rows, family, now) == {};
    assert BornAt(s.rows, account, now) == {};
  }
}
