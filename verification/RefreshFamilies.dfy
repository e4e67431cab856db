/** Refresh-token families: births, rotation with reuse detection, replay inside a grace window, logouts
    and evictions, over the session rows and the revocation feed. Every operation is one transaction. */
module RefreshFamilies {
  import opened Codec

  const AccessTTL: int := 900
  const Sliding: int := 30 * 86400
  const FamilyMaxAge: int := 90 * 86400
  const ReplayGrace: int := 45
  const MaxRetained: int := 384
  const MaxTokens: int := 1024

  /** What a rotation hands out, kept for replay: two access token ids and the next refresh token. */
  datatype Pair = Pair(cp: nat, node: nat, refresh: nat)

  /** One refresh token, found by its hash. */
  datatype Row = Row(
    account: nat, family: nat, cp: nat, node: nat, accessExpiresAt: int, createdAt: int, expiresAt: int,
    familyCreatedAt: int, supersededBy: Option<nat>, supersededAt: int, cache: Option<Pair>, revoked: bool)

  type Rows = map<nat, Row>

  /** A revoked access token, and when it expires anyway. */
  datatype Token = Token(id: nat, retainUntil: int)

  /** An entry of the revocation feed, numbered as it was issued: a family's, or an account-wide one with a
      cutoff. */
  datatype Notice = Notice(num: nat, account: nat, family: Option<nat>, revokedAt: int, cutoff: int, tokens: set<Token>)

  // ------------------------------------------------------------------ the store

  function Retained(rows: Rows, family: nat, t: int): set<nat> {
    set h | h in rows && rows[h].family == family && rows[h].accessExpiresAt > t
  }

  function BornAt(rows: Rows, account: nat, t: int): set<nat> {
    set h | h in rows && rows[h].account == account && rows[h].createdAt == t
  }

  function Insert(rows: Rows, h: nat, row: Row): Option<Rows> {
    if row.accessExpiresAt <= 0 || |Retained(rows, row.family, row.createdAt)| >= MaxRetained
       || |BornAt(rows, row.account, row.createdAt)| >= MaxRetained || h in rows
    then None
    else Some(rows[h := row])
  }

  function ClearCaches(rows: Rows, family: nat, except: nat): Rows {
    map h | h in rows :: if rows[h].family == family && h != except then rows[h].(cache := None) else rows[h]
  }

  function Supersede(rows: Rows, h: nat, next: nat, successor: Row, pair: Pair, now: int): Option<Rows> {
    var cleared := ClearCaches(rows, successor.family, h);
    if h !in cleared || cleared[h].revoked || cleared[h].supersededBy.Some? then None
    else
      Insert(cleared[h := cleared[h].(supersededBy := Some(next), supersededAt := now, cache := Some(pair))], next,
          successor)
  }

  function RevokeFamily(rows: Rows, family: nat): Rows {
    map h | h in rows :: if rows[h].family == family then rows[h].(revoked := true, cache := None) else rows[h]
  }

  function RevokeAccount(rows: Rows, account: nat): Rows {
    map h | h in rows :: if rows[h].account == account then rows[h].(revoked := true, cache := None) else rows[h]
  }

  function CpToken(r: Row): Token {
    Token(r.cp, r.accessExpiresAt)
  }

  function NodeToken(r: Row): Token {
    Token(r.node, r.accessExpiresAt)
  }

  function Tokens(rows: Rows, hs: set<nat>): set<Token>
    requires forall h :: h in hs ==> h in rows
  {
    (set h | h in hs :: CpToken(rows[h])) + (set h | h in hs :: NodeToken(rows[h]))
  }

  /** The rows whose access tokens a family revocation must name. */
  function LiveOfFamily(rows: Rows, family: nat, now: int): set<nat> {
    set h | h in rows && rows[h].family == family && !rows[h].revoked && rows[h].accessExpiresAt > now
  }

  /** An account-wide revocation names only what its cutoff misses. */
  function LiveOfAccount(rows: Rows, account: nat, now: int): set<nat> {
    set h | h in rows && rows[h].account == account && !rows[h].revoked && rows[h].accessExpiresAt > now
            && rows[h].createdAt >= now
  }

  /** A notice naming too many tokens is refused, and one naming none is not needed. */
  function AppendFamily(feed: seq<Notice>, num: nat, account: nat, family: nat, tokens: set<Token>,
                        now: int): Option<seq<Notice>> {
    if tokens == {} then Some(feed)
    else if |tokens| > MaxTokens then None
    else Some(feed + [Notice(num, account, Some(family), now, 0, tokens)])
  }

  predicate OfAccount(n: Notice, account: nat) {
    n.account == account && n.family.None?
  }

  /** The account-wide notice that compaction keeps: the one with the latest cutoff, of several the newest. */
  function Keeper(feed: seq<Notice>, account: nat): (r: Option<Notice>)
    ensures r.None? <==> forall n :: n in feed ==> !OfAccount(n, account)
    ensures r.Some? ==> r.value in feed && OfAccount(r.value, account)
    ensures forall n :: n in feed && OfAccount(n, account) ==> n.cutoff <= r.value.cutoff
  {
    if feed == [] then None
    else
      var n := feed[|feed| - 1];
      assert feed == feed[..|feed| - 1] + [n];
      var rest := Keeper(feed[..|feed| - 1], account);
      if OfAccount(n, account) && (rest.None? || rest.value.cutoff <= n.cutoff) then Some(n) else rest
  }

  /** The tokens of an account's notices with the same cutoff are put together. */
  function Merged(feed: seq<Notice>, account: nat, cutoff: int): set<Token> {
    set n, k | n in feed && OfAccount(n, account) && n.cutoff == cutoff && k in n.tokens :: k
  }

  /** The account's other notices go. */
  function Keep(feed: seq<Notice>, account: nat, kept: Notice): (r: seq<Notice>)
    ensures forall n :: n in r ==> (n in feed && !OfAccount(n, account)) || n == kept
    ensures forall n :: n in feed && !OfAccount(n, account) ==> n in r
    ensures forall n :: n in feed && OfAccount(n, account) && n.num == kept.num ==> kept in r
  {
    if feed == [] then []
    else
      var n := feed[|feed| - 1];
      assert feed == feed[..|feed| - 1] + [n];
      Keep(feed[..|feed| - 1], account, kept)
      + if !OfAccount(n, account) then [n] else if n.num == kept.num then [kept] else []
  }

  /** What compaction makes of the kept notice. */
  function KeptNotice(feed: seq<Notice>, account: nat): Notice
    requires Keeper(feed, account).Some?
  {
    var k := Keeper(feed, account).value;
    k.(tokens := Merged(feed, account, k.cutoff))
  }

  function Compact(feed: seq<Notice>, account: nat): Option<seq<Notice>>
    requires Keeper(feed, account).Some?
  {
    var kept := KeptNotice(feed, account);
    if |kept.tokens| > MaxTokens then None else Some(Keep(feed, account, kept))
  }

  /** An account-wide notice is added and the account's notices compacted. */
  function AppendAccount(feed: seq<Notice>, num: nat, account: nat, tokens: set<Token>, now: int): Option<seq<Notice>> {
    var n := Notice(num, account, None, now, now, tokens);
    assert OfAccount(n, account) && n in feed + [n];
    if |tokens| > MaxTokens then None else Compact(feed + [n], account)
  }

  function Trimmed(n: Notice, now: int): Notice {
    n.(tokens := set t | t in n.tokens && t.retainUntil > now)
  }

  predicate Spent(n: Notice, now: int) {
    n.family.Some? && Trimmed(n, now).tokens == {}
  }

  /** Reading the feed first drops the tokens that have expired, and family notices left with none. */
  function Pruned(feed: seq<Notice>, now: int): (r: seq<Notice>)
    ensures forall n :: n in feed && !Spent(n, now) ==> Trimmed(n, now) in r
    ensures forall m :: m in r ==> exists n :: n in feed && m == Trimmed(n, now) && !Spent(n, now)
  {
    if feed == [] then []
    else
      var n := feed[|feed| - 1];
      Pruned(feed[..|feed| - 1], now) + if Spent(n, now) then [] else [Trimmed(n, now)]
  }

  // ------------------------------------------------------------------ the operations

  /** A token a caller was given, against the token it presented. */
  datatype Grant = Grant(presented: nat, pair: Pair, at: int)

  datatype State = State(rows: Rows, feed: seq<Notice>, issued: nat, clock: int, grants: seq<Grant>)

  datatype Refusal = NotFound | FamilyRevoked | MaxAge | Expired | BadProof | StoreError
  datatype Answer = Granted(pair: Pair) | Refused(why: Refusal)

  /** The names a mint draws at random. */
  datatype Names = Names(refresh: nat, cp: nat, node: nat)

  function Newborn(account: nat, family: nat, names: Names, now: int, familyCreatedAt: int): Row {
    Row(account, family, names.cp, names.node, now + AccessTTL, now, now + Sliding, familyCreatedAt, None, 0, None,
        false)
  }

  predicate Replayable(row: Row, now: int) {
    row.supersededBy.Some? && now - row.supersededAt <= ReplayGrace && row.cache.Some?
  }

  /** The checks every presented token must pass, in order. */
  function Refuse(rows: Rows, h: nat, now: int, proofOk: bool): Option<Refusal> {
    if h !in rows then Some(NotFound)
    else if rows[h].revoked then Some(FamilyRevoked)
    else if now >= rows[h].familyCreatedAt + FamilyMaxAge then Some(MaxAge)
    else if now >= rows[h].expiresAt then Some(Expired)
    else if !proofOk then Some(BadProof)
    else None
  }

  function Rotated(rows: Rows, h: nat, names: Names, now: int): Option<Rows>
    requires h in rows
  {
    Supersede(rows, h, names.refresh, Newborn(rows[h].account, rows[h].family, names, now, rows[h].familyCreatedAt),
              Pair(names.cp, names.node, names.refresh), now)
  }

  /** Revoking a family and announcing it is one transaction: when the notice is refused nothing happens. */
  function RevokeOne(s: State, account: nat, family: nat, now: int): Option<State> {
    var tokens := Tokens(s.rows, LiveOfFamily(s.rows, family, now));
    match AppendFamily(s.feed, s.issued + 1, account, family, tokens, now)
    case None => None
    case Some(feed) =>
      Some(s.(rows := RevokeFamily(s.rows, family), feed := feed,
              issued := if tokens == {} then s.issued else s.issued + 1))
  }

  function RevokeAll(s: State, account: nat, now: int): Option<State> {
    match AppendAccount(s.feed, s.issued + 1, account, Tokens(s.rows, LiveOfAccount(s.rows, account, now)), now)
    case None => None
    case Some(feed) => Some(s.(rows := RevokeAccount(s.rows, account), feed := feed, issued := s.issued + 1))
  }

  /** handleRefresh, with the clock as it was read before the transaction; `fails` is a failing user lookup,
      mint, store update or commit, which rolls everything back. */
  function Refresh(s: State, h: nat, proofOk: bool, fails: bool, names: Names, now: int): (State, Answer) {
    var refusal := Refuse(s.rows, h, now, proofOk);
    if refusal.Some? then (s, Refused(refusal.value))
    else if fails then (s, Refused(StoreError))
    else if Replayable(s.rows[h], now) then
      var pair := s.rows[h].cache.value;
      (s.(grants := s.grants + [Grant(h, pair, now)]), Granted(pair))
    else if s.rows[h].supersededBy.Some? then
      match RevokeOne(s, s.rows[h].account, s.rows[h].family, now)
      case None => (s, Refused(StoreError))
      case Some(t) => (t, Refused(FamilyRevoked))
    else
      match Rotated(s.rows, h, names, now)
      case None => (s, Refused(StoreError))
      case Some(rows) =>
        var pair := Pair(names.cp, names.node, names.refresh);
        (s.(rows := rows, grants := s.grants + [Grant(h, pair, now)]), Granted(pair))
  }

  /** Every request carries the clock as it read it, perhaps long before its transaction. */
  datatype Event =
    | Birth(account: nat, family: nat, names: Names, now: int)
    | Present(token: nat, proofOk: bool, fails: bool, names: Names, now: int)
    | Logout(token: nat, now: int)
    | LogoutEverywhere(token: nat, now: int)
    | Evict(account: nat, family: nat, now: int)
    | ReadFeed(now: int)
    | Tick(seconds: nat)

  /** Random names do not repeat. */
  predicate Unused(rows: Rows, names: Names) {
    && names.refresh !in rows && names.cp != names.node
    && forall h :: h in rows ==> {names.cp, names.node} !! {rows[h].cp, rows[h].node}
  }

  predicate Enabled(s: State, e: Event) {
    && (e.Tick? || 0 < e.now <= s.clock)
    && match e
       case Birth(_, family, names, _) =>
         Unused(s.rows, names) && forall h :: h in s.rows ==> s.rows[h].family != family
       case Present(_, _, _, names, _) => Unused(s.rows, names)
       case Evict(account, family, _) =>
         exists h :: h in s.rows && s.rows[h].family == family && s.rows[h].account == account
       case _ => true
  }

  function OrElse(t: Option<State>, s: State): State {
    if t.Some? then t.value else s
  }

  function Next(s: State, e: Event): State {
    match e
    case Birth(account, family, names, now) =>
      var r := Insert(s.rows, names.refresh, Newborn(account, family, names, now, now));
      if r.None? then s else s.(rows := r.value)
    case Present(h, proofOk, fails, names, now) => Refresh(s, h, proofOk, fails, names, now).0
    case Logout(h, now) => if h !in s.rows then s else OrElse(RevokeOne(s, s.rows[h].account, s.rows[h].family, now), s)
    case LogoutEverywhere(h, now) => if h !in s.rows then s else OrElse(RevokeAll(s, s.rows[h].account, now), s)
    case Evict(account, family, now) => OrElse(RevokeOne(s, account, family, now), s)
    case ReadFeed(now) => s.(feed := Pruned(s.feed, now))
    case Tick(n) => s.(clock := s.clock + n)
  }

  function Exec(s: State, es: seq<Event>): Option<State> {
    if es == [] then Some(s)
    else
      match Exec(s, es[..|es| - 1])
      case None => None
      case Some(m) => if Enabled(m, es[|es| - 1]) then Some(Next(m, es[|es| - 1])) else None
  }

  predicate Initial(s: State) {
    s.rows == map[] && s.feed == [] && s.issued == 0 && s.grants == [] && s.clock > 0
  }

  ghost predicate Reachable(s: State) {
    exists s0, es :: Initial(s0) && Exec(s0, es) == Some(s)
  }

  // ------------------------------------------------------------------ one unbranched chain per family

  /** `c` lists the family's rows, oldest first. */
  predicate Covers(rows: Rows, family: nat, c: seq<nat>) {
    && (forall h :: h in c ==> h in rows && rows[h].family == family)
    && (forall h :: h in rows && rows[h].family == family ==> h in c)
    && (forall i, j :: 0 <= i < j < |c| ==> c[i] != c[j])
  }

  predicate LinkAt(rows: Rows, c: seq<nat>, i: nat) {
    i < |c| && c[i] in rows && rows[c[i]].supersededBy == if i + 1 < |c| then Some(c[i + 1]) else None
  }

  /** Each row was superseded by the next, and the last by none. */
  predicate Linked(rows: Rows, c: seq<nat>) {
    forall i :: 0 <= i < |c| ==> LinkAt(rows, c, i)
  }

  /** The rows share what belongs to the family: account, birth and fate. */
  predicate Alike(rows: Rows, c: seq<nat>)
    requires forall h :: h in c ==> h in rows
  {
    forall i, j :: 0 <= i < j < |c| ==>
      && rows[c[i]].account == rows[c[j]].account && rows[c[i]].familyCreatedAt == rows[c[j]].familyCreatedAt
      && rows[c[i]].revoked == rows[c[j]].revoked
  }

  predicate CacheAt(rows: Rows, c: seq<nat>, i: nat)
    requires forall h :: h in c ==> h in rows
  {
    i < |c| ==>
      && (rows[c[i]].cache.Some? <==> i + 2 == |c| && !rows[c[i]].revoked)
      && (rows[c[i]].cache.Some? ==> rows[c[i]].cache.value == Pair(rows[c[i + 1]].cp, rows[c[i + 1]].node, c[i + 1]))
  }

  /** The row superseded last, in an unrevoked family, holds a cache, its successor's pair; no other does. */
  predicate Cached(rows: Rows, c: seq<nat>)
    requires forall h :: h in c ==> h in rows
  {
    forall i :: 0 <= i < |c| ==> CacheAt(rows, c, i)
  }

  predicate IsChain(rows: Rows, family: nat, c: seq<nat>) {
    c != [] && Covers(rows, family, c) && Linked(rows, c) && Alike(rows, c) && Cached(rows, c)
  }

  /** Families apart from `family` are as they were. */
  predicate SameOutside(rows: Rows, rows': Rows, family: nat) {
    && (forall h :: h in rows && rows[h].family != family ==> h in rows' && rows'[h] == rows[h])
    && (forall h :: h in rows' && rows'[h].family != family ==> h in rows && rows'[h] == rows[h])
  }

  lemma OthersKeepTheirChain(rows: Rows, rows': Rows, family: nat, other: nat, c: seq<nat>)
    requires SameOutside(rows, rows', family) && other != family && IsChain(rows, other, c)
    ensures IsChain(rows', other, c)
  {
    forall i | 0 <= i < |c|
      ensures LinkAt(rows', c, i) && CacheAt(rows', c, i)
    {
      assert c[i] in c && LinkAt(rows, c, i) && CacheAt(rows, c, i);
      assert i + 1 < |c| ==> c[i + 1] in c;
    }
  }

  lemma RevokingKeepsChain(rows: Rows, family: nat, c: seq<nat>)
    requires IsChain(rows, family, c)
    ensures IsChain(RevokeFamily(rows, family), family, c)
  {
    var rows' := RevokeFamily(rows, family);
    forall i | 0 <= i < |c|
      ensures LinkAt(rows', c, i) && CacheAt(rows', c, i)
    {
      assert c[i] in c && LinkAt(rows, c, i) && CacheAt(rows, c, i);
      assert i + 1 < |c| ==> c[i + 1] in c;
    }
  }

  lemma RevokingAccountKeepsChain(rows: Rows, account: nat, family: nat, c: seq<nat>)
    requires IsChain(rows, family, c)
    ensures IsChain(RevokeAccount(rows, account), family, c)
  {
    var rows' := RevokeAccount(rows, account);
    forall i | 0 <= i < |c|
      ensures LinkAt(rows', c, i) && CacheAt(rows', c, i)
    {
      assert c[i] in c && LinkAt(rows, c, i) && CacheAt(rows, c, i);
      assert i + 1 < |c| ==> c[i + 1] in c;
    }
  }

  /** Row by row, what a rotation of `h` does. */
  ghost predicate IsRotation(rows: Rows, h: nat, rows': Rows, names: Names, now: int)
    requires h in rows
  {
    var pair := Pair(names.cp, names.node, names.refresh);
    && rows[h].supersededBy.None? && !rows[h].revoked && names.refresh !in rows
    && (forall k :: k in rows' <==> k in rows || k == names.refresh)
    && rows'[names.refresh] == Newborn(rows[h].account, rows[h].family, names, now, rows[h].familyCreatedAt)
    && rows'[h] == rows[h].(supersededBy := Some(names.refresh), supersededAt := now, cache := Some(pair))
    && (forall k :: k in rows && k != h ==>
          rows'[k] == if rows[k].family == rows[h].family then rows[k].(cache := None) else rows[k])
  }

  lemma RotationShape(rows: Rows, h: nat, names: Names, now: int)
    requires h in rows && Rotated(rows, h, names, now).Some?
    ensures IsRotation(rows, h, Rotated(rows, h, names, now).value, names, now)
  {
    var cleared := ClearCaches(rows, rows[h].family, h);
    assert h in cleared && cleared[h] == rows[h];
  }

  lemma HeadIsLast(rows: Rows, h: nat, c: seq<nat>)
    requires h in rows && IsChain(rows, rows[h].family, c)
    ensures rows[h].supersededBy.None? <==> h == c[|c| - 1]
  {
    var i :| 0 <= i < |c| && c[i] == h;
    assert LinkAt(rows, c, i);
    assert LinkAt(rows, c, |c| - 1);
  }

  /** The only row a rotation accepts is the chain's last; its successor becomes the new last. */
  lemma RotationExtendsChain(rows: Rows, h: nat, rows': Rows, names: Names, now: int, c: seq<nat>)
    requires h in rows && IsChain(rows, rows[h].family, c) && IsRotation(rows, h, rows', names, now)
    ensures c[|c| - 1] == h && IsChain(rows', rows[h].family, c + [names.refresh])
  {
    HeadIsLast(rows, h, c);
    CoversExtended(rows, h, rows', names, now, c);
    LinksExtended(rows, h, rows', names, now, c);
    AlikeExtended(rows, h, rows', names, now, c);
    CachesExtended(rows, h, rows', names, now, c);
  }

  lemma LinksExtended(rows: Rows, h: nat, rows': Rows, names: Names, now: int, c: seq<nat>)
    requires h in rows && IsRotation(rows, h, rows', names, now)
    requires Covers(rows, rows[h].family, c) && Linked(rows, c) && c != [] && c[|c| - 1] == h
    ensures Linked(rows', c + [names.refresh])
  {
    forall i | 0 <= i < |c|
      ensures LinkAt(rows', c + [names.refresh], i)
    {
      assert LinkAt(rows, c, i);
    }
  }

  lemma AlikeExtended(rows: Rows, h: nat, rows': Rows, names: Names, now: int, c: seq<nat>)
    requires h in rows && IsRotation(rows, h, rows', names, now)
    requires Covers(rows, rows[h].family, c) && Alike(rows, c) && c != [] && c[|c| - 1] == h
    requires forall k :: k in c + [names.refresh] ==> k in rows'
    ensures Alike(rows', c + [names.refresh])
  {
    var c' := c + [names.refresh];
    forall i | 0 <= i < |c'|
      ensures rows'[c'[i]].account == rows[h].account && rows'[c'[i]].familyCreatedAt == rows[h].familyCreatedAt
              && !rows'[c'[i]].revoked
    {
      if i < |c| - 1 {
        assert c'[i] == c[i] && c[i] in rows;
      }
    }
  }

  lemma CachesExtended(rows: Rows, h: nat, rows': Rows, names: Names, now: int, c: seq<nat>)
    requires h in rows && IsRotation(rows, h, rows', names, now)
    requires Covers(rows, rows[h].family, c) && c != [] && c[|c| - 1] == h
    requires forall k :: k in c + [names.refresh] ==> k in rows'
    ensures Cached(rows', c + [names.refresh])
  {
    var c' := c + [names.refresh];
    forall i | 0 <= i < |c'|
      ensures CacheAt(rows', c', i)
    {
      if i < |c| - 1 {
        assert c'[i] == c[i] && c[i] in rows && c[i] != h;
        assert rows'[c[i]].cache.None?;
      }
    }
  }

  lemma CoversExtended(rows: Rows, h: nat, rows': Rows, names: Names, now: int, c: seq<nat>)
    requires h in rows && Covers(rows, rows[h].family, c) && IsRotation(rows, h, rows', names, now)
    ensures Covers(rows', rows[h].family, c + [names.refresh])
  {
    var c' := c + [names.refresh];
    forall k | k in rows' && rows'[k].family == rows[h].family
      ensures k in c'
    {
      if k != names.refresh {
        assert k in c;
      }
    }
  }

  ghost predicate Chained(rows: Rows, family: nat) {
    (forall h :: h in rows ==> rows[h].family != family) || exists c :: IsChain(rows, family, c)
  }

  lemma BirthKeepsChain(s: State, e: Event, family: nat)
    requires e.Birth? && Enabled(s, e) && Chained(s.rows, family)
    ensures Chained(Next(s, e).rows, family)
  {
    var rows, rows' := s.rows, Next(s, e).rows;
    if rows' != rows {
      if e.family == family {
        assert IsChain(rows', family, [e.names.refresh]);
      } else if c :| IsChain(rows, family, c) {
        OthersKeepTheirChain(rows, rows', e.family, family, c);
      }
    }
  }

  lemma RevokeKeepsChained(rows: Rows, touched: nat, family: nat)
    requires Chained(rows, family)
    ensures Chained(RevokeFamily(rows, touched), family)
  {
    if c :| IsChain(rows, family, c) {
      if touched == family {
        RevokingKeepsChain(rows, family, c);
      } else {
        OthersKeepTheirChain(rows, RevokeFamily(rows, touched), touched, family, c);
      }
    }
  }

  lemma RotationKeepsChained(rows: Rows, h: nat, names: Names, now: int, family: nat)
    requires h in rows && Rotated(rows, h, names, now).Some? && Chained(rows, family)
    ensures Chained(Rotated(rows, h, names, now).value, family)
  {
    var rows' := Rotated(rows, h, names, now).value;
    RotationShape(rows, h, names, now);
    if c :| IsChain(rows, family, c) {
      if rows[h].family == family {
        RotationExtendsChain(rows, h, rows', names, now, c);
      } else {
        OthersKeepTheirChain(rows, rows', rows[h].family, family, c);
      }
    }
  }

  lemma StepKeepsChain(s: State, e: Event, family: nat)
    requires Enabled(s, e) && Chained(s.rows, family)
    ensures Chained(Next(s, e).rows, family)
  {
    hide Chained, Tokens, AppendFamily, AppendAccount;
    match e
    case Birth(_, _, _, _) => BirthKeepsChain(s, e, family);
    case Present(h, proofOk, fails, names, now) =>
      if Refuse(s.rows, h, now, proofOk).None? && !Replayable(s.rows[h], now) && !fails {
        if s.rows[h].supersededBy.Some? {
          RevokeKeepsChained(s.rows, s.rows[h].family, family);
        } else if Rotated(s.rows, h, names, now).Some? {
          RotationKeepsChained(s.rows, h, names, now, family);
        }
      }
    case Logout(h, _) =>
      if h in s.rows {
        RevokeKeepsChained(s.rows, s.rows[h].family, family);
      }
    case LogoutEverywhere(h, _) =>
      if h in s.rows {
        RevokeAccountKeepsChained(s.rows, s.rows[h].account, family);
      }
    case Evict(_, touched, _) => RevokeKeepsChained(s.rows, touched, family);
    case _ =>
  }

  lemma RevokeAccountKeepsChained(rows: Rows, account: nat, family: nat)
    requires Chained(rows, family)
    ensures Chained(RevokeAccount(rows, account), family)
  {
    if c :| IsChain(rows, family, c) {
      RevokingAccountKeepsChain(rows, account, family, c);
    }
  }

  lemma {:induction false} RunsAreChained(s0: State, es: seq<Event>, family: nat)
    requires Initial(s0) && Exec(s0, es).Some?
    ensures Chained(Exec(s0, es).value.rows, family)
  {
    if es != [] {
      RunsAreChained(s0, es[..|es| - 1], family);
      StepKeepsChain(Exec(s0, es[..|es| - 1]).value, es[|es| - 1], family);
    }
  }

  lemma ReachableChained(s: State, family: nat)
    requires Reachable(s)
    ensures Chained(s.rows, family)
  {
    var s0, es :| Initial(s0) && Exec(s0, es) == Some(s);
    RunsAreChained(s0, es, family);
  }

  predicate SameSuccessor(x: Row, y: Row, family: nat) {
    x.family == family && y.family == family && x.supersededBy.Some? && x.supersededBy == y.supersededBy
  }

  /** However logins, refreshes, replays, logouts and evictions interleave, a family is one unbranched
      chain in which exactly one row is not superseded, and all its rows are revoked or none is. */
  lemma OneHeadPerFamily(s: State, h: nat) returns (head: nat)
    requires Reachable(s) && h in s.rows
    ensures head in s.rows && s.rows[head].family == s.rows[h].family && s.rows[head].supersededBy.None?
    ensures forall k :: k in s.rows && s.rows[k].family == s.rows[h].family && s.rows[k].supersededBy.None? ==>
            k == head
    ensures forall k :: k in s.rows && s.rows[k].family == s.rows[h].family ==> s.rows[k].revoked == s.rows[h].revoked
    ensures forall j, k :: j in s.rows && k in s.rows && SameSuccessor(s.rows[j], s.rows[k], s.rows[h].family) ==>
            j == k
  {
    ReachableChained(s, s.rows[h].family);
    var c :| IsChain(s.rows, s.rows[h].family, c);
    head := c[|c| - 1];
    assert head in c;
    forall k | k in s.rows && s.rows[k].family == s.rows[h].family
      ensures s.rows[k].supersededBy.None? <==> k == head
    {
      HeadIsLast(s.rows, k, c);
    }
    forall j, k | j in s.rows && k in s.rows && SameSuccessor(s.rows[j], s.rows[k], s.rows[h].family)
      ensures j == k
    {
      var x :| 0 <= x < |c| && c[x] == j;
      var y :| 0 <= y < |c| && c[y] == k;
      assert LinkAt(s.rows, c, x) && LinkAt(s.rows, c, y);
    }
  }
}
