/** The cap on an account's concurrent families. A login counts, chooses a family to evict, evicts it and
    inserts its own in separate transactions, so logins of one account interleave. */
module FamilyCap {
  import opened Codec
  import opened RefreshFamilies
  import opened FamilyTheorems
  import opened FamilyFeed
  import opened NoticeLimits
  import opened StoreResults

  /** CountFamilies counts these. */
  function Families(rows: Rows, account: nat): set<nat> {
    set h | h in rows && rows[h].account == account && !rows[h].revoked :: rows[h].family
  }

  /** What OldestFamily may return. */
  predicate Oldest(rows: Rows, account: nat, family: nat) {
    exists h :: h in rows && rows[h].account == account && !rows[h].revoked && rows[h].family == family
      && forall k :: k in rows && rows[k].account == account && !rows[k].revoked ==>
            rows[h].familyCreatedAt <= rows[k].familyCreatedAt
  }

  lemma FamilyShrinks(s: State, e: Event, account: nat)
    requires Enabled(s, e) && (e.Birth? ==> e.account != account)
    ensures Families(Next(s, e).rows, account) <= Families(s.rows, account)
  {
    hide Tokens, AppendFamily, AppendAccount, Replayable;
    StepExtends(s, e);
    var rows, rows' := s.rows, Next(s, e).rows;
    if e.Present? && e.token in rows && Rotated(rows, e.token, e.names, e.now).Some? {
      RotationShape(rows, e.token, e.names, e.now);
    }
    forall h | h in rows' && rows'[h].account == account && !rows'[h].revoked
      ensures rows'[h].family in Families(rows, account)
    {
      if h in rows {
        assert Later(rows[h], rows'[h]);
      } else {
        assert !rows[e.token].revoked && rows[e.token].family == rows'[h].family;
      }
    }
  }

  lemma EvictionFrees(s: State, account: nat, family: nat, now: int)
    requires OneAccountPerFamily(s.rows) && RevokeOne(s, account, family, now).Some?
             && KnownFamily(s.rows, account, family)
    ensures Families(RevokeOne(s, account, family, now).value.rows, account) == Families(s.rows, account) - {family}
  {
    var rows' := RevokeFamily(s.rows, family);
    forall f | f in Families(s.rows, account) && f != family
      ensures f in Families(rows', account)
    {
      var h :| h in s.rows && s.rows[h].account == account && !s.rows[h].revoked && s.rows[h].family == f;
      assert h in rows' && rows'[h] == s.rows[h];
    }
  }

  lemma BirthAdds(s: State, e: Event)
    requires Enabled(s, e) && e.Birth? && Next(s, e) != s
    ensures Families(Next(s, e).rows, e.account) == Families(s.rows, e.account) + {e.family}
    ensures e.family !in Families(s.rows, e.account)
  {
    var rows, rows' := s.rows, Next(s, e).rows;
    assert rows' == rows[e.names.refresh := Newborn(e.account, e.family, e.names, e.now, e.now)];
    forall f | f in Families(rows, e.account) + {e.family}
      ensures f in Families(rows', e.account)
    {
      if f == e.family {
        assert rows'[e.names.refresh].family == f;
      } else {
        var h :| h in rows && rows[h].account == e.account && !rows[h].revoked && rows[h].family == f;
        assert rows'[h] == rows[h];
      }
    }
  }

  // ------------------------------------------------------------------ logins under way

  /** Where a login stands: what its last transaction told it. */
  datatype Phase = Counting | Choosing | Evicting(oldest: nat) | Inserting

  datatype Login = Login(account: nat, now: int, phase: Phase)

  /** One account is watched: `landed` counts its inserts since it last had no login under way, `extra` all
      those inserts that were not the first since then. */
  datatype Server = Server(s: State, logins: map<nat, Login>, landed: nat, extra: nat)

  datatype Step =
    | Arrives(t: nat, account: nat, now: int)
    | Counts(t: nat)
    | Chooses(t: nat, oldest: nat)
    | Evicts(t: nat)
    | Inserts(t: nat, family: nat, names: Names)
    | Fails(t: nat)
    | Else(e: Event)

  function UnderWay(logins: map<nat, Login>, account: nat): set<nat> {
    set t | t in logins && logins[t].account == account
  }

  predicate InPhase(v: Server, t: nat, phase: Phase) {
    t in v.logins && v.logins[t].phase == phase
  }

  /** At most `width` logins of one account are under way at a time. */
  predicate Can(v: Server, e: Step, width: nat) {
    match e
    case Arrives(t, account, now) => t !in v.logins && 0 < now <= v.s.clock && |UnderWay(v.logins, account)| < width
    case Counts(t) => InPhase(v, t, Counting)
    case Chooses(t, oldest) => InPhase(v, t, Choosing) && Oldest(v.s.rows, v.logins[t].account, oldest)
    case Evicts(t) => t in v.logins && v.logins[t].phase.Evicting?
    case Inserts(t, family, names) => InPhase(v, t, Inserting)
         && Enabled(v.s, Birth(v.logins[t].account, family, names, v.logins[t].now))
    case Fails(t) => t in v.logins
    case Else(e) => !e.Birth? && !e.Evict? && Enabled(v.s, e)
  }

  function Moved(v: Server, t: nat, phase: Phase): Server
    requires t in v.logins
  {
    v.(logins := v.logins[t := v.logins[t].(phase := phase)])
  }

  function Left(v: Server, t: nat, watched: nat): Server {
    var logins := map u | u in v.logins && u != t :: v.logins[u];
    v.(logins := logins, landed := if UnderWay(logins, watched) == {} then 0 else v.landed)
  }

  function Landed(v: Server, s: State): Server {
    v.(s := s, landed := v.landed + 1, extra := if v.landed == 0 then v.extra else v.extra + 1)
  }

  function After(v: Server, e: Step, cap: nat, width: nat, watched: nat): Server
    requires Can(v, e, width)
  {
    match e
    case Arrives(t, account, now) => v.(logins := v.logins[t := Login(account, now, Counting)])
    case Counts(t) => Moved(v, t, if |Families(v.s.rows, v.logins[t].account)| < cap then Inserting else Choosing)
    case Chooses(t, oldest) => Moved(v, t, Evicting(oldest))
    case Evicts(t) =>
      (match RevokeOne(v.s, v.logins[t].account, v.logins[t].phase.oldest, v.logins[t].now)
       case None => Left(v, t, watched)
       case Some(s) => Moved(v, t, Inserting).(s := s))
    case Inserts(t, family, names) =>
      var s := Next(v.s, Birth(v.logins[t].account, family, names, v.logins[t].now));
      Left(if s == v.s || v.logins[t].account != watched then v.(s := s) else Landed(v, s), t, watched)
    case Fails(t) => Left(v, t, watched)
    case Else(e) => v.(s := Next(v.s, e))
  }

  function Run(v: Server, es: seq<Step>, cap: nat, width: nat, watched: nat): Option<Server> {
    if es == [] then Some(v)
    else
      match Run(v, es[..|es| - 1], cap, width, watched)
      case None => None
      case Some(m) => if Can(m, es[|es| - 1], width) then Some(After(m, es[|es| - 1], cap, width, watched)) else None
  }

  predicate Fresh(v: Server) {
    Initial(v.s) && v.logins == map[] && v.landed == 0 && v.extra == 0
  }

  /** What a login's transactions do, one after the other: below the cap it goes on to insert, else to choose; an
      eviction is a revocation of the family like a logout's, and if it is refused the login ends; the insert adds one
      row under a new name, if the store's limits allow, and ends the login. */
  lemma LoginStepMeans(v: Server, e: Step, cap: nat, width: nat, watched: nat)
    requires Can(v, e, width) && (e.Counts? || e.Evicts? || e.Inserts?)
    ensures
      var z, l := After(v, e, cap, width, watched), v.logins[e.t];
      match e
      case Counts(t) =>
        var families := set h | h in v.s.rows && v.s.rows[h].account == l.account && !v.s.rows[h].revoked
                        :: v.s.rows[h].family;
        z == v.(logins := v.logins[t := Login(l.account, l.now, if |families| < cap then Inserting else Choosing)])
      case Evicts(t) =>
        && FamilyAnnounced(v.s, l.account, l.phase.oldest, l.now, t in z.logins, z.s)
        && (t in z.logins ==> z.logins == v.logins[t := Login(l.account, l.now, Inserting)])
        && (t !in z.logins ==> z.logins == v.logins - {t})
      case Inserts(t, family, names) =>
        && Inserted(v.s.rows, names.refresh,
                    Row(l.account, family, names.cp, names.node, l.now + 15 * 60, l.now, l.now + 30 * 86400, l.now,
                        None, 0, None, false),
                    z.s.rows != v.s.rows, z.s.rows)
        && z.s == v.s.(rows := z.s.rows) && z.logins == v.logins - {t}
  {
    var l := v.logins[e.t];
    match e
    case Counts(_) =>
    case Evicts(t) =>
      RevokeOneMeans(v.s, l.account, l.phase.oldest, l.now);
      hide RevokeOne, FamilyAnnounced;
    case Inserts(t, family, names) =>
      var row := Newborn(l.account, family, names, l.now, l.now);
      InsertMeans(v.s.rows, names.refresh, row);
      assert names.refresh !in v.s.rows;
      hide Insert;
  }

  // ------------------------------------------------------------------ how far the cap can be exceeded

  /** What a login that goes on to insert has behind it. Until the first insert of a stretch, one that may
      insert has seen room or made it, and one that is about to evict will, or its family has gone already. */
  ghost predicate LoginOk(v: Server, cap: nat, watched: nat, t: nat)
    requires t in v.logins
  {
    var l := v.logins[t];
    var room := |Families(v.s.rows, watched)| + 1 <= cap + v.extra;
    && 0 < l.now <= v.s.clock
    && (l.phase.Evicting? ==> KnownFamily(v.s.rows, l.account, l.phase.oldest))
    && (l.account == watched && v.landed == 0 && l.phase.Inserting? ==> room)
    && (l.account == watched && v.landed == 0 && l.phase.Evicting? ==>
          l.phase.oldest in Families(v.s.rows, watched) || room)
  }

  ghost predicate Within(v: Server, cap: nat, watched: nat) {
    && Reachable(v.s) && |Families(v.s.rows, watched)| <= cap + v.extra
    && forall t :: t in v.logins ==> LoginOk(v, cap, watched, t)
  }

  lemma ReachableNext(s: State, e: Event)
    requires Reachable(s) && Enabled(s, e)
    ensures Reachable(Next(s, e))
  {
    var s0, es :| Initial(s0) && Exec(s0, es) == Some(s);
    ExecOneMore(s0, es, s, e);
  }

  lemma KnownFamilyLater(rows: Rows, rows': Rows, account: nat, family: nat)
    requires KnownFamily(rows, account, family) && Extends(rows, rows')
    ensures KnownFamily(rows', account, family)
  {
    var k :| k in rows && rows[k].family == family && rows[k].account == account;
    assert Later(rows[k], rows'[k]);
  }

  /** A login keeps its standing while the watched account's families only become fewer. */
  lemma LoginStays(v: Server, v': Server, cap: nat, watched: nat, t: nat)
    requires t in v.logins && LoginOk(v, cap, watched, t) && |Families(v.s.rows, watched)| <= cap + v.extra
    requires t in v'.logins && v'.logins[t] == v.logins[t] && v.s.clock <= v'.s.clock && Extends(v.s.rows, v'.s.rows)
    requires v'.extra == v.extra && (v'.landed == v.landed || v.logins[t].account != watched)
    requires Families(v'.s.rows, watched) <= Families(v.s.rows, watched)
    ensures LoginOk(v', cap, watched, t)
  {
    var f, f' := Families(v.s.rows, watched), Families(v'.s.rows, watched);
    SubsetIsSmaller(f', f);
    var l := v.logins[t];
    if l.phase.Evicting? {
      KnownFamilyLater(v.s.rows, v'.s.rows, l.account, l.phase.oldest);
      if l.phase.oldest in f && l.phase.oldest !in f' {
        SubsetIsSmaller(f', f - {l.phase.oldest});
      }
    }
  }

  /** Leaving changes nothing for the others; a stretch ends when no login of the watched account is left. */
  lemma LeavingKeepsWithin(v: Server, cap: nat, watched: nat, t: nat)
    requires Reachable(v.s) && |Families(v.s.rows, watched)| <= cap + v.extra
    requires forall u :: u in v.logins && u != t ==> LoginOk(v, cap, watched, u)
    ensures Within(Left(v, t, watched), cap, watched)
  {
    var v' := Left(v, t, watched);
    forall u | u in v'.logins
      ensures LoginOk(v', cap, watched, u)
    {
      assert v'.logins[u].account == watched ==> u in UnderWay(v'.logins, watched);
      ExtendsItself(v.s.rows);
      LoginStays(v, v', cap, watched, u);
    }
  }

  lemma ElseKeepsWithin(v: Server, e: Event, cap: nat, watched: nat)
    requires Within(v, cap, watched) && !e.Birth? && !e.Evict? && Enabled(v.s, e)
    ensures Within(v.(s := Next(v.s, e)), cap, watched)
  {
    var v' := v.(s := Next(v.s, e));
    ReachableNext(v.s, e);
    StepExtends(v.s, e);
    FamilyShrinks(v.s, e, watched);
    assert v.s.clock <= v'.s.clock;
    hide Next, Enabled, Reachable, Extends, LoginOk, Families;
    SubsetIsSmaller(Families(v'.s.rows, watched), Families(v.s.rows, watched));
    forall t | t in v'.logins
      ensures LoginOk(v', cap, watched, t)
    {
      LoginStays(v, v', cap, watched, t);
    }
  }

  lemma EvictionKeepsWithin(v: Server, t: nat, s: State, cap: nat, watched: nat)
    requires Within(v, cap, watched) && t in v.logins && v.logins[t].phase.Evicting?
    requires RevokeOne(v.s, v.logins[t].account, v.logins[t].phase.oldest, v.logins[t].now) == Some(s)
    ensures Within(Moved(v, t, Inserting).(s := s), cap, watched)
  {
    var l, v' := v.logins[t], Moved(v, t, Inserting).(s := s);
    var e := Event.Evict(l.account, l.phase.oldest, l.now);
    assert LoginOk(v, cap, watched, t);
    assert Enabled(v.s, e) && Next(v.s, e) == s;
    ReachableNext(v.s, e);
    StepExtends(v.s, e);
    FamilyShrinks(v.s, e, watched);
    ReachableAccounts(v.s);
    if l.account == watched {
      EvictionFrees(v.s, watched, l.phase.oldest, l.now);
    }
    assert v.s.clock == s.clock;
    hide Next, Enabled, Reachable, Extends, Families, RevokeOne, OneAccountPerFamily;
    SubsetIsSmaller(Families(s.rows, watched), Families(v.s.rows, watched));
    forall u | u in v'.logins && u != t
      ensures LoginOk(v', cap, watched, u)
    {
      LoginStays(v, v', cap, watched, u);
    }
  }

  lemma InsertKeepsWithin(v: Server, t: nat, family: nat, names: RefreshFamilies.Names, cap: nat, width: nat,
                          watched: nat)
    requires Within(v, cap, watched) && Can(v, Inserts(t, family, names), width)
    ensures Within(After(v, Inserts(t, family, names), cap, width, watched), cap, watched)
  {
    var l := v.logins[t];
    var e := Event.Birth(l.account, family, names, l.now);
    var s := Next(v.s, e);
    ReachableNext(v.s, e);
    StepExtends(v.s, e);
    assert s.clock == v.s.clock && LoginOk(v, cap, watched, t);
    if s == v.s || l.account != watched {
      if l.account != watched {
        FamilyShrinks(v.s, e, watched);
      }
      var v' := v.(s := s);
      assert After(v, Inserts(t, family, names), cap, width, watched) == Left(v', t, watched);
      hide Next, Enabled, Reachable, Extends, Families;
      SubsetIsSmaller(Families(s.rows, watched), Families(v.s.rows, watched));
      forall u | u in v'.logins
        ensures LoginOk(v', cap, watched, u)
      {
        LoginStays(v, v', cap, watched, u);
      }
      LeavingKeepsWithin(v', cap, watched, t);
    } else {
      BirthAdds(v.s, e);
      var v' := Landed(v, s);
      assert |Families(s.rows, watched)| == |Families(v.s.rows, watched)| + 1;
      assert After(v, Inserts(t, family, names), cap, width, watched) == Left(v', t, watched);
      hide Next, Enabled, Reachable, Families;
      forall u | u in v'.logins
        ensures LoginOk(v', cap, watched, u)
      {
        assert LoginOk(v, cap, watched, u);
        if v.logins[u].phase.Evicting? {
          KnownFamilyLater(v.s.rows, s.rows, v.logins[u].account, v.logins[u].phase.oldest);
        }
      }
      LeavingKeepsWithin(v', cap, watched, t);
    }
  }

  lemma MoveKeepsWithin(v: Server, e: Step, cap: nat, width: nat, watched: nat)
    requires Within(v, cap, watched) && Can(v, e, width) && (e.Arrives? || e.Counts? || e.Chooses?)
    ensures Within(After(v, e, cap, width, watched), cap, watched)
  {
    var v' := After(v, e, cap, width, watched);
    ExtendsItself(v.s.rows);
    forall t | t in v'.logins
      ensures LoginOk(v', cap, watched, t)
    {
      if t == e.t {
        assert e.Chooses? ==>
            && KnownFamily(v.s.rows, v.logins[t].account, e.oldest)
            && e.oldest in Families(v.s.rows, v.logins[t].account);
        assert !e.Arrives? ==> LoginOk(v, cap, watched, t);
      } else {
        LoginStays(v, v', cap, watched, t);
      }
    }
  }

  lemma StepKeepsWithin(v: Server, e: Step, cap: nat, width: nat, watched: nat)
    requires Within(v, cap, watched) && Can(v, e, width)
    ensures Within(After(v, e, cap, width, watched), cap, watched)
  {
    hide Next, RevokeOne, Within, LoginOk, Families;
    match e
    case Arrives(_, _, _) => MoveKeepsWithin(v, e, cap, width, watched);
    case Counts(_) => MoveKeepsWithin(v, e, cap, width, watched);
    case Chooses(_, _) => MoveKeepsWithin(v, e, cap, width, watched);
    case Evicts(t) =>
      match RevokeOne(v.s, v.logins[t].account, v.logins[t].phase.oldest, v.logins[t].now) {
        case None => FailingKeepsWithin(v, cap, watched, t);
        case Some(s) => EvictionKeepsWithin(v, t, s, cap, watched);
      }
    case Inserts(t, family, names) => InsertKeepsWithin(v, t, family, names, cap, width, watched);
    case Fails(t) => FailingKeepsWithin(v, cap, watched, t);
    case Else(e) => ElseKeepsWithin(v, e, cap, watched);
  }

  lemma FailingKeepsWithin(v: Server, cap: nat, watched: nat, t: nat)
    requires Within(v, cap, watched)
    ensures Within(Left(v, t, watched), cap, watched)
  {
    hide LoginOk, Left;
    LeavingKeepsWithin(v, cap, watched, t);
  }

  lemma {:induction false} RunsStayWithin(v0: Server, es: seq<Step>, cap: nat, width: nat, watched: nat)
    requires Fresh(v0) && Run(v0, es, cap, width, watched).Some?
    ensures Within(Run(v0, es, cap, width, watched).value, cap, watched)
  {
    if es == [] {
      assert Exec(v0.s, []) == Some(v0.s);
      assert Families(v0.s.rows, watched) == {};
    } else {
      RunsStayWithin(v0, es[..|es| - 1], cap, width, watched);
      hide Within, Can, After;
      StepKeepsWithin(Run(v0, es[..|es| - 1], cap, width, watched).value, es[|es| - 1], cap, width, watched);
    }
  }

  /** However the counting, choosing, evicting and inserting of any number of logins interleave, with each
      other and with refreshes and logouts, an account has at most as many families beyond the cap as logins
      whose insert was not the first in a stretch of time in which the account always had a login under way. */
  lemma CapExceededByExtras(v0: Server, es: seq<Step>, cap: nat, width: nat, watched: nat)
    requires Fresh(v0) && Run(v0, es, cap, width, watched).Some?
    ensures
      var v := Run(v0, es, cap, width, watched).value;
      Reachable(v.s) && |Families(v.s.rows, watched)| <= cap + v.extra
  {
    RunsStayWithin(v0, es, cap, width, watched);
  }

  lemma {:induction false} OneAtATime(v0: Server, es: seq<Step>, cap: nat, watched: nat)
    requires Fresh(v0) && Run(v0, es, cap, 1, watched).Some?
    ensures
      var v := Run(v0, es, cap, 1, watched).value;
      v.extra == 0 && v.landed == 0 && forall t, u ::
          t in v.logins && u in v.logins && v.logins[t].account == v.logins[u].account ==> t == u
  {
    if es != [] {
      OneAtATime(v0, es[..|es| - 1], cap, watched);
      OneAtATimeStep(Run(v0, es[..|es| - 1], cap, 1, watched).value, es[|es| - 1], cap, watched);
    }
  }

  lemma OneAtATimeStep(v: Server, e: Step, cap: nat, watched: nat)
    requires Can(v, e, 1) && v.extra == 0 && v.landed == 0
    requires forall t, u :: t in v.logins && u in v.logins && v.logins[t].account == v.logins[u].account ==> t == u
    ensures
      var v' := After(v, e, cap, 1, watched);
      v'.extra == 0 && v'.landed == 0 && forall t, u ::
          t in v'.logins && u in v'.logins && v'.logins[t].account == v'.logins[u].account ==> t == u
  {
    hide Next, RevokeOne, Families;
    if e.Arrives? {
      assert forall t :: t in v.logins && v.logins[t].account == e.account ==> t in UnderWay(v.logins, e.account);
    } else if e.Inserts? && v.logins[e.t].account == watched {
      assert UnderWay(map u | u in v.logins && u != e.t :: v.logins[u], watched) == {};
    }
  }

  /** One login at a time per account never exceeds the cap, whatever refreshes and logouts come in between. */
  lemma SerialLoginsKeepTheCap(v0: Server, es: seq<Step>, cap: nat, account: nat)
    requires Fresh(v0) && Run(v0, es, cap, 1, account).Some?
    ensures |Families(Run(v0, es, cap, 1, account).value.s.rows, account)| <= cap
  {
    CapExceededByExtras(v0, es, cap, 1, account);
    OneAtATime(v0, es, cap, account);
  }

  // ------------------------------------------------------------------ two at a time

  lemma RunOneMore(v0: Server, es: seq<Step>, m: Server, e: Step, cap: nat, width: nat, watched: nat)
    requires Run(v0, es, cap, width, watched) == Some(m) && Can(m, e, width)
    ensures Run(v0, es + [e], cap, width, watched) == Some(After(m, e, cap, width, watched))
  {
    assert (es + [e])[..|es|] == es;
  }

  lemma {:induction false} UnusedNumber(rows: Rows) returns (b: nat)
    ensures forall h :: h in rows ==> h < b && rows[h].cp < b && rows[h].node < b && rows[h].family < b
    decreases |rows|
  {
    if rows == map[] {
      b := 0;
    } else {
      var x :| x in rows;
      var c := UnusedNumber(rows - {x});
      b := c + x + rows[x].cp + rows[x].node + rows[x].family + 1;
      forall h | h in rows
        ensures h < b && rows[h].cp < b && rows[h].node < b && rows[h].family < b
      {
        assert h != x ==> h in rows - {x} && (rows - {x})[h] == rows[h];
      }
    }
  }

  predicate Unissued(rows: Rows, family: nat, names: RefreshFamilies.Names) {
    Unused(rows, names) && forall h :: h in rows ==> rows[h].family != family
  }

  lemma SomethingUnissued(rows: Rows) returns (family: nat, names: RefreshFamilies.Names)
    ensures Unissued(rows, family, names)
  {
    var b := UnusedNumber(rows);
    family, names := b, RefreshFamilies.Names(b, b, b + 1);
  }

  lemma {:induction false} SomeOldest(rows: Rows, live: set<nat>) returns (best: nat)
    requires live != {} && forall h :: h in live ==> h in rows
    ensures best in live && forall h :: h in live ==> rows[best].familyCreatedAt <= rows[h].familyCreatedAt
    decreases |live|
  {
    var x :| x in live;
    best := x;
    assert forall h :: h in live ==> h == x || h in live - {x};
    if live - {x} != {} {
      var y := SomeOldest(rows, live - {x});
      best := if rows[y].familyCreatedAt < rows[x].familyCreatedAt then y else x;
    }
  }

  lemma OldestExists(rows: Rows, account: nat) returns (family: nat)
    requires Families(rows, account) != {}
    ensures Oldest(rows, account, family)
  {
    var live := set h | h in rows && rows[h].account == account && !rows[h].revoked;
    var f :| f in Families(rows, account);
    var h :| h in rows && rows[h].account == account && !rows[h].revoked && rows[h].family == f;
    assert h in live;
    var best := SomeOldest(rows, live);
    family := rows[best].family;
    assert forall k :: k in rows && rows[k].account == account && !rows[k].revoked ==> k in live;
  }

  /** Nobody is logging in, and the account has `n` families. */
  ghost predicate Idle(v: Server, n: nat, account: nat) {
    Reachable(v.s) && v.logins == map[] && |Families(v.s.rows, account)| == n
  }

  /** No row of the account was born at `now` or later. */
  predicate BeforeNow(rows: Rows, account: nat, now: int) {
    forall h :: h in rows && rows[h].account == account ==> rows[h].createdAt < now
  }

  lemma TickMakesPast(s: State, account: nat)
    requires Reachable(s)
    ensures Enabled(s, Tick(1)) && Next(s, Tick(1)) == s.(clock := s.clock + 1) && Reachable(s.(clock := s.clock + 1))
    ensures s.clock > 0 && BeforeNow(s.rows, account, s.clock + 1)
  {
    ReachableSound(s);
    ReachableNext(s, Tick(1));
    assert forall h :: h in s.rows ==> RowOk(s.rows[h], s.clock);
  }

  /** A login that may insert does, into a second of its own. */
  lemma Insertion(v: Server, t: nat, cap: nat, width: nat, watched: nat) returns (e: Step)
    requires Reachable(v.s) && InPhase(v, t, Inserting) && 0 < v.logins[t].now <= v.s.clock
    requires forall h :: h in v.s.rows && v.s.rows[h].account == v.logins[t].account ==>
             v.s.rows[h].createdAt != v.logins[t].now
    ensures Can(v, e, width) && Reachable(After(v, e, cap, width, watched).s)
    ensures
      var v', a, now := After(v, e, cap, width, watched), v.logins[t].account, v.logins[t].now;
      && v'.s.clock == v.s.clock && v'.logins == (map u | u in v.logins && u != t :: v.logins[u])
      && |Families(v'.s.rows, a)| == |Families(v.s.rows, a)| + 1
      && forall h :: h in v'.s.rows && v'.s.rows[h].account == a ==>
            v'.s.rows[h].createdAt == now || (h in v.s.rows && v'.s.rows[h] == v.s.rows[h])
  {
    var family, names := SomethingUnissued(v.s.rows);
    e := Inserts(t, family, names);
    var b := Event.Birth(v.logins[t].account, family, names, v.logins[t].now);
    assert Enabled(v.s, b);
    BirthInserts(v.s, v.logins[t].account, family, names, v.logins[t].now);
    assert names.refresh in Next(v.s, b).rows && names.refresh !in v.s.rows;
    BirthAdds(v.s, b);
    ReachableNext(v.s, b);
    hide Next, Families, Reachable;
    assert After(v, e, cap, width, watched).s == Next(v.s, b);
  }

  /** Below the cap a login by itself adds a family. */
  lemma OneLogin(v: Server, n: nat, account: nat, cap: nat, watched: nat) returns (es: seq<Step>, v': Server)
    requires Idle(v, n, account) && n < cap
    ensures Run(v, es, cap, 2, watched) == Some(v') && Idle(v', n + 1, account)
  {
    TickMakesPast(v.s, account);
    var v1 := v.(s := v.s.(clock := v.s.clock + 1));
    var v2 := v1.(logins := map[0 := Login(account, v1.s.clock, Counting)]);
    var v3 := v1.(logins := map[0 := Login(account, v1.s.clock, Inserting)]);
    assert Can(v, Else(Tick(1)), 2) && After(v, Else(Tick(1)), cap, 2, watched) == v1;
    assert UnderWay(v1.logins, account) == {};
    assert Can(v1, Arrives(0, account, v1.s.clock), 2)
           && After(v1, Arrives(0, account, v1.s.clock), cap, 2, watched) == v2;
    assert Can(v2, Counts(0), 2) && After(v2, Counts(0), cap, 2, watched) == v3;
    var e := Insertion(v3, 0, cap, 2, watched);
    v' := After(v3, e, cap, 2, watched);
    assert v'.logins == map[];
    hide Can, After, Next, Families, Reachable;
    assert Run(v, [], cap, 2, watched) == Some(v);
    RunOneMore(v, [], v, Else(Tick(1)), cap, 2, watched);
    RunOneMore(v, [] + [Else(Tick(1))], v1, Arrives(0, account, v1.s.clock), cap, 2, watched);
    RunOneMore(v, [] + [Else(Tick(1))] + [Arrives(0, account, v1.s.clock)], v2, Counts(0), cap, 2, watched);
    RunOneMore(v, [] + [Else(Tick(1))] + [Arrives(0, account, v1.s.clock)] + [Counts(0)], v3, e, cap, 2, watched);
    es := [] + [Else(Tick(1))] + [Arrives(0, account, v1.s.clock)] + [Counts(0)] + [e];
  }

  lemma {:induction false} RunConcat(v: Server, a: seq<Step>, m: Server, b: seq<Step>, cap: nat, width: nat,
                                     watched: nat)
    requires Run(v, a, cap, width, watched) == Some(m) && Run(m, b, cap, width, watched).Some?
    ensures Run(v, a + b, cap, width, watched) == Run(m, b, cap, width, watched)
  {
    if b == [] {
      assert a + b == a;
    } else {
      RunConcat(v, a, m, b[..|b| - 1], cap, width, watched);
      assert (a + b)[..|a + b| - 1] == a + b[..|b| - 1];
    }
  }

  function Both(account: nat, c: int, p: Phase, q: Phase): map<nat, Login> {
    map[0 := Login(account, c, p), 1 := Login(account, c + 1, q)]
  }

  /** Two logins arrive a second apart before either counts. */
  lemma TwoArrive(v: Server, account: nat, cap: nat, watched: nat) returns (es: seq<Step>, v': Server)
    requires Reachable(v.s) && v.logins == map[]
    ensures Run(v, es, cap, 2, watched) == Some(v')
    ensures v' == v.(s := v.s.(clock := v.s.clock + 2), logins := Both(account, v.s.clock + 1, Counting, Counting))
    ensures Reachable(v'.s) && v.s.clock > 0 && BeforeNow(v.s.rows, account, v.s.clock + 1)
  {
    TickMakesPast(v.s, account);
    var c := v.s.clock + 1;
    var s1 := v.s.(clock := c);
    TickMakesPast(s1, account);
    var v1 := v.(s := s1);
    var v2 := v1.(logins := map[0 := Login(account, c, Counting)]);
    var v3 := v2.(s := s1.(clock := c + 1));
    v' := v3.(logins := Both(account, c, Counting, Counting));
    assert Can(v, Else(Tick(1)), 2) && After(v, Else(Tick(1)), cap, 2, watched) == v1;
    assert UnderWay(v1.logins, account) == {} && UnderWay(v3.logins, account) == {0};
    assert Can(v1, Arrives(0, account, c), 2) && After(v1, Arrives(0, account, c), cap, 2, watched) == v2;
    assert Can(v2, Else(Tick(1)), 2) && After(v2, Else(Tick(1)), cap, 2, watched) == v3;
    assert Can(v3, Arrives(1, account, c + 1), 2) && After(v3, Arrives(1, account, c + 1), cap, 2, watched) == v';
    hide *;
    es := RunOf4(v, v1, v2, v3, v', [Else(Tick(1)), Arrives(0, account, c), Else(Tick(1)), Arrives(1, account, c + 1)],
        cap, watched);
  }

  lemma RunOf4(v0: Server, v1: Server, v2: Server, v3: Server, v4: Server, e: seq<Step>, cap: nat,
               watched: nat) returns (es: seq<Step>)
    requires |e| == 4
    requires Can(v0, e[0], 2) && After(v0, e[0], cap, 2, watched) == v1 && Can(v1, e[1], 2)
             && After(v1, e[1], cap, 2, watched) == v2
    requires Can(v2, e[2], 2) && After(v2, e[2], cap, 2, watched) == v3 && Can(v3, e[3], 2)
             && After(v3, e[3], cap, 2, watched) == v4
    ensures es == e && Run(v0, es, cap, 2, watched) == Some(v4)
  {
    es := e;
    hide Can, After;
    assert Run(v0, e[..0], cap, 2, watched) == Some(v0);
    assert e[..1][..0] == e[..0] && Run(v0, e[..1], cap, 2, watched) == Some(v1);
    assert e[..2][..1] == e[..1] && Run(v0, e[..2], cap, 2, watched) == Some(v2);
    assert e[..3][..2] == e[..2] && Run(v0, e[..3], cap, 2, watched) == Some(v3);
  }

  /** Both find the cap reached and choose the same oldest family. */
  lemma TwoChoose(v: Server, account: nat, c: int, cap: nat, watched: nat) returns (es: seq<Step>, v': Server,
                  oldest: nat)
    requires v.logins == Both(account, c, Counting, Counting) && |Families(v.s.rows, account)| >= cap > 0
    ensures Run(v, es, cap, 2, watched) == Some(v') && Oldest(v.s.rows, account, oldest)
    ensures v' == v.(logins := Both(account, c, Evicting(oldest), Evicting(oldest)))
  {
    oldest := OldestExists(v.s.rows, account);
    var v1 := v.(logins := Both(account, c, Choosing, Counting));
    var v2 := v.(logins := Both(account, c, Choosing, Choosing));
    var v3 := v.(logins := Both(account, c, Evicting(oldest), Choosing));
    v' := v.(logins := Both(account, c, Evicting(oldest), Evicting(oldest)));
    hide Families, Oldest;
    assert Can(v, Counts(0), 2) && After(v, Counts(0), cap, 2, watched) == v1;
    assert Can(v1, Counts(1), 2) && After(v1, Counts(1), cap, 2, watched) == v2;
    assert Can(v2, Chooses(0, oldest), 2) && After(v2, Chooses(0, oldest), cap, 2, watched) == v3;
    assert Can(v3, Chooses(1, oldest), 2) && After(v3, Chooses(1, oldest), cap, 2, watched) == v';
    hide *;
    es := RunOf4(v, v1, v2, v3, v', [Counts(0), Counts(1), Chooses(0, oldest), Chooses(1, oldest)], cap, watched);
  }

  /** An eviction whose clock reading is not behind goes through, whether the family is still there or not. */
  lemma EvictionGoesThrough(s: State, account: nat, family: nat, now: int) returns (s': State)
    requires Reachable(s) && 0 < now <= s.clock && KnownFamily(s.rows, account, family)
             && FamilyBornBy(s.rows, family, now)
    ensures RevokeOne(s, account, family, now) == Some(s') && Reachable(s') && s'.rows == RevokeFamily(s.rows, family)
            && s'.clock == s.clock
    ensures Families(s'.rows, account) == Families(s.rows, account) - {family}
  {
    var h :| h in s.rows && s.rows[h].family == family && s.rows[h].account == account;
    FamilyNoticeFitsIff(s, h, now);
    s' := RevokeOne(s, account, family, now).value;
    var e := Event.Evict(account, family, now);
    assert Enabled(s, e) && Next(s, e) == s';
    ReachableNext(s, e);
    ReachableAccounts(s);
    EvictionFrees(s, account, family, now);
  }

  lemma RevokedFamilyFacts(rows: Rows, account: nat, family: nat, c: int)
    requires KnownFamily(rows, account, family) && BeforeNow(rows, account, c) && OneAccountPerFamily(rows)
    ensures KnownFamily(RevokeFamily(rows, family), account, family)
            && BeforeNow(RevokeFamily(rows, family), account, c)
    ensures OneAccountPerFamily(RevokeFamily(rows, family)) && FamilyBornBy(rows, family, c)
            && FamilyBornBy(rows, family, c + 1)
  {
    var rows' := RevokeFamily(rows, family);
    var k :| k in rows && rows[k].family == family && rows[k].account == account;
    assert k in rows' && rows'[k].family == family && rows'[k].account == account;
  }

  /** Evicting a family twice evicts it once. */
  lemma EvictedTwice(s: State, account: nat, family: nat, c: int) returns (s1: State, s2: State)
    requires Reachable(s) && Oldest(s.rows, account, family) && 0 < c && c + 1 == s.clock
             && BeforeNow(s.rows, account, c)
    ensures RevokeOne(s, account, family, c) == Some(s1) && RevokeOne(s1, account, family, c + 1) == Some(s2)
    ensures Reachable(s2) && s2.clock == s.clock && BeforeNow(s2.rows, account, c)
    ensures |Families(s2.rows, account)| == |Families(s.rows, account)| - 1
  {
    ReachableAccounts(s);
    assert KnownFamily(s.rows, account, family) && family in Families(s.rows, account);
    hide RevokeOne, Reachable, RevokeFamily, Families, Oldest, KnownFamily, BeforeNow, OneAccountPerFamily,
         FamilyBornBy;
    RevokedFamilyFacts(s.rows, account, family, c);
    s1 := EvictionGoesThrough(s, account, family, c);
    RevokedFamilyFacts(s1.rows, account, family, c);
    s2 := EvictionGoesThrough(s1, account, family, c + 1);
    assert Families(s2.rows, account) == Families(s.rows, account) - {family};
  }

  /** The two evict one family between them. */
  lemma TwoEvict(v: Server, account: nat, c: int, oldest: nat, cap: nat, watched: nat) returns (es: seq<Step>,
                 v': Server)
    requires v.logins == Both(account, c, Evicting(oldest), Evicting(oldest)) && Oldest(v.s.rows, account, oldest)
    requires Reachable(v.s) && 0 < c && c + 1 == v.s.clock && BeforeNow(v.s.rows, account, c)
    ensures Run(v, es, cap, 2, watched) == Some(v') && v'.logins == Both(account, c, Inserting, Inserting)
    ensures Reachable(v'.s) && v'.s.clock == v.s.clock && BeforeNow(v'.s.rows, account, c)
    ensures |Families(v'.s.rows, account)| == |Families(v.s.rows, account)| - 1
  {
    hide RevokeOne, Families, Reachable, BeforeNow, Oldest, Can, After, Run;
    var s1, s2 := EvictedTwice(v.s, account, oldest, c);
    var v1 := v.(s := s1, logins := Both(account, c, Inserting, Evicting(oldest)));
    v' := v.(s := s2, logins := Both(account, c, Inserting, Inserting));
    EvictMoves(v, 0, s1, cap, watched);
    EvictMoves(v1, 1, s2, cap, watched);
    assert Both(account, c, Inserting, Evicting(oldest)) == v.logins[0 := Login(account, c, Inserting)];
    assert Both(account, c, Inserting, Inserting) == v1.logins[1 := Login(account, c + 1, Inserting)];
    es := RunOf2(v, v1, v', [Evicts(0), Evicts(1)], cap, watched);
  }

  lemma EvictMoves(v: Server, t: nat, s: State, cap: nat, watched: nat)
    requires t in v.logins && v.logins[t].phase.Evicting?
    requires RevokeOne(v.s, v.logins[t].account, v.logins[t].phase.oldest, v.logins[t].now) == Some(s)
    ensures Can(v, Evicts(t), 2)
    ensures After(v, Evicts(t), cap, 2, watched) ==
            v.(s := s, logins := v.logins[t := v.logins[t].(phase := Inserting)])
  {
  }

  lemma RunOf2(v0: Server, v1: Server, v2: Server, e: seq<Step>, cap: nat, watched: nat) returns (es: seq<Step>)
    requires |e| == 2
    requires Can(v0, e[0], 2) && After(v0, e[0], cap, 2, watched) == v1 && Can(v1, e[1], 2)
             && After(v1, e[1], cap, 2, watched) == v2
    ensures es == e && Run(v0, es, cap, 2, watched) == Some(v2)
  {
    es := e;
    hide Can, After;
    assert Run(v0, e[..0], cap, 2, watched) == Some(v0);
    assert e[..1][..0] == e[..0] && Run(v0, e[..1], cap, 2, watched) == Some(v1);
  }

  /** And both insert. */
  lemma TwoInsert(v: Server, account: nat, c: int, cap: nat, watched: nat) returns (es: seq<Step>, v': Server)
    requires v.logins == Both(account, c, Inserting, Inserting)
    requires Reachable(v.s) && 0 < c && c + 1 == v.s.clock && BeforeNow(v.s.rows, account, c)
    ensures Run(v, es, cap, 2, watched) == Some(v') && v'.logins == map[] && Reachable(v'.s)
    ensures |Families(v'.s.rows, account)| == |Families(v.s.rows, account)| + 2
  {
    var e := Insertion(v, 0, cap, 2, watched);
    var v1 := After(v, e, cap, 2, watched);
    var f := Insertion(v1, 1, cap, 2, watched);
    v' := After(v1, f, cap, 2, watched);
    assert v'.logins == map[];
    hide *;
    es := RunOf2(v, v1, v', [e, f], cap, watched);
  }

  /** At or above the cap, two overlapping logins add a family. */
  lemma ConcurrentLoginsOvershoot(v: Server, n: nat, account: nat, cap: nat, watched: nat) returns (es: seq<Step>,
                                  v': Server)
    requires Idle(v, n, account) && n >= cap > 0
    ensures Run(v, es, cap, 2, watched) == Some(v') && Idle(v', n + 1, account)
  {
    var c := v.s.clock + 1;
    var e1, v1 := TwoArrive(v, account, cap, watched);
    var e2, v2, oldest := TwoChoose(v1, account, c, cap, watched);
    var e3, v3 := TwoEvict(v2, account, c, oldest, cap, watched);
    var e4, v4 := TwoInsert(v3, account, c, cap, watched);
    v' := v4;
    hide Run, Both, Families, Reachable, BeforeNow, Oldest;
    RunConcat(v, e1, v1, e2, cap, 2, watched);
    RunConcat(v, e1 + e2, v2, e3, cap, 2, watched);
    RunConcat(v, e1 + e2 + e3, v3, e4, cap, 2, watched);
    es := e1 + e2 + e3 + e4;
  }

  /** With just two logins of an account under way at a time, there is no number of families it cannot reach,
      whatever the cap: two that choose the same oldest family evict one and add two. */
  lemma {:induction false} TwoAtATimeReachAnyNumber(cap: nat, n: nat, account: nat) returns (v0: Server, es: seq<Step>)
    requires cap > 0
    ensures Fresh(v0) && Run(v0, es, cap, 2, account).Some?
    ensures Idle(Run(v0, es, cap, 2, account).value, n, account)
  {
    if n == 0 {
      v0, es := Server(State(map[], [], 0, 11, []), map[], 0, 0), [];
      assert Exec(v0.s, []) == Some(v0.s);
      assert Families(v0.s.rows, account) == {};
    } else {
      v0, es := TwoAtATimeReachAnyNumber(cap, n - 1, account);
      var v := Run(v0, es, cap, 2, account).value;
      var more, v';
      if n - 1 < cap {
        more, v' := OneLogin(v, n - 1, account, cap, account);
      } else {
        more, v' := ConcurrentLoginsOvershoot(v, n - 1, account, cap, account);
      }
      RunConcat(v0, es, v, more, cap, 2, account);
      es := es + more;
    }
  }

  lemma {:induction false} WiderRuns(v0: Server, es: seq<Step>, cap: nat, width: nat, watched: nat)
    requires Run(v0, es, cap, 2, watched).Some? && width >= 2
    ensures Run(v0, es, cap, width, watched) == Run(v0, es, cap, 2, watched)
  {
    if es != [] {
      WiderRuns(v0, es[..|es| - 1], cap, width, watched);
    }
  }

  /** So an account keeps within its cap in every run exactly if its logins are handled one at a time. */
  lemma CapHoldsIff(cap: nat, width: nat, account: nat)
    requires cap > 0 && width > 0
    ensures (forall v0, es :: Fresh(v0) && Run(v0, es, cap, width, account).Some? ==>
                                |Families(Run(v0, es, cap, width, account).value.s.rows, account)| <= cap)
            <==> width == 1
  {
    if width == 1 {
      forall v0, es | Fresh(v0) && Run(v0, es, cap, width, account).Some?
        ensures |Families(Run(v0, es, cap, width, account).value.s.rows, account)| <= cap
      {
        SerialLoginsKeepTheCap(v0, es, cap, account);
      }
    } else {
      var v0, es := TwoAtATimeReachAnyNumber(cap, cap + 1, account);
      WiderRuns(v0, es, cap, width, account);
      assert |Families(Run(v0, es, cap, width, account).value.s.rows, account)| == cap + 1;
    }
  }

  // ------------------------------------------------------------------ one login undisturbed

  /** enforceCapOrEvict and the insert that follows it, with nothing in between. */
  function SerialLogin(s: State, cap: nat, oldest: nat, e: Event): State
    requires e.Birth?
  {
    if |Families(s.rows, e.account)| < cap then Next(s, e)
    else
      match RevokeOne(s, e.account, oldest, e.now)
      case None => s
      case Some(m) => Next(m, e)
  }

  /** One login at a time: below the cap the account gains a family, at or above it the oldest makes way, so a
      count that is above the cap stays above. */
  lemma SerialLoginCount(s: State, cap: nat, oldest: nat, e: Event)
    requires OneAccountPerFamily(s.rows) && cap > 0 && e.Birth? && Enabled(s, e)
    requires Oldest(s.rows, e.account, oldest) || |Families(s.rows, e.account)| < cap
    requires e.names.refresh in SerialLogin(s, cap, oldest, e).rows
    ensures |Families(SerialLogin(s, cap, oldest, e).rows, e.account)|
            == if |Families(s.rows, e.account)| < cap then |Families(s.rows, e.account)| + 1
                else |Families(s.rows, e.account)|
  {
    if |Families(s.rows, e.account)| < cap {
      BirthAdds(s, e);
    } else {
      var m := RevokeOne(s, e.account, oldest, e.now).value;
      assert oldest in Families(s.rows, e.account);
      EvictionFrees(s, e.account, oldest, e.now);
      EvictionAdmits(s, m, e, oldest);
      hide Families, Oldest, Next, Enabled, RevokeOne, OneAccountPerFamily;
      BirthAdds(m, e);
    }
  }

  lemma EvictionAdmits(s: State, m: State, e: Event, family: nat)
    requires e.Birth? && Enabled(s, e) && RevokeOne(s, e.account, family, e.now) == Some(m)
    ensures Enabled(m, e)
  {
  }
}
