/** The consumers of the revocation feed against the families that fill it: while notices are appended, merged
    and pruned, a consumer polls from the last number it was given. */
module FeedConsumers {
  import opened Codec
  import opened RefreshFamilies
  import opened FamilyTheorems
  import opened FamilyFeed
  import opened FamilyDenials
  import opened StoreResults

  // ------------------------------------------------------------------ a consumer

  /** What a consumer has learnt: tokens until they expire, each account's latest cutoff, and the number it
      will ask from next. */
  datatype Consumer = Consumer(known: set<Token>, cutoffs: map<nat, int>, checkpoint: nat)

  predicate IsRevoked(c: Consumer, id: nat, account: nat, issuedAt: int, now: int) {
    || (exists k :: k in c.known && k.id == id && now < k.retainUntil)
    || (account in c.cutoffs && issuedAt < c.cutoffs[account])
  }

  function WithCutoff(cutoffs: map<nat, int>, account: nat, cutoff: int): map<nat, int> {
    if cutoff > (if account in cutoffs then cutoffs[account] else 0) then cutoffs[account := cutoff] else cutoffs
  }

  function Unexpired(tokens: set<Token>, now: int): set<Token> {
    set k | k in tokens && k.retainUntil > now
  }

  function Learn(c: Consumer, n: Notice, now: int): Consumer {
    Consumer(c.known + Unexpired(n.tokens, now), WithCutoff(c.cutoffs, n.account, n.cutoff), n.num)
  }

  function LearnAll(c: Consumer, page: seq<Notice>, now: int): Consumer {
    if page == [] then c else Learn(LearnAll(c, page[..|page| - 1], now), page[|page| - 1], now)
  }

  /** ApplyPage: what has expired is forgotten, then the page is learnt. */
  function Absorb(c: Consumer, page: seq<Notice>, now: int): Consumer {
    LearnAll(c.(known := Unexpired(c.known, now)), page, now)
  }

  /** The ids a notice names are all different. */
  predicate DistinctIds(tokens: set<Token>) {
    forall j, k :: j in tokens && k in tokens && j.id == k.id ==> j == k
  }

  /** What a consumer demands of an entry before it applies the page. */
  predicate Acceptable(n: Notice) {
    && 0 < n.revokedAt && DistinctIds(n.tokens)
    && (if n.family.None? then n.cutoff > 0 else n.cutoff == 0 && n.tokens != {})
    && forall k :: k in n.tokens ==> k.retainUntil > n.revokedAt
  }

  predicate ValidPage(page: seq<Notice>, checkpoint: nat) {
    && (forall i :: 0 <= i < |page| ==> Acceptable(page[i]) && page[i].num > checkpoint)
    && Increasing(page)
  }

  // ------------------------------------------------------------------ what a page teaches

  /** Of old tokens and the page's those that have not expired, of the cutoffs each account's latest, and the last
      number. */
  ghost predicate Learnt(c: Consumer, page: seq<Notice>, now: int, d: Consumer) {
    && (forall k :: k in d.known <==> now < k.retainUntil && (k in c.known || exists n :: n in page && k in n.tokens))
    && CutoffsLearnt(c.cutoffs, page, d.cutoffs)
    && d.checkpoint == if page == [] then c.checkpoint else page[|page| - 1].num
  }

  ghost predicate CutoffsLearnt(before: map<nat, int>, page: seq<Notice>, after: map<nat, int>) {
    forall a :: CutoffLearnt(before, page, after, a)
  }

  ghost predicate CutoffLearnt(before: map<nat, int>, page: seq<Notice>, after: map<nat, int>, a: nat) {
    && (a in after <==> a in before || exists n :: n in page && n.account == a && n.cutoff > 0)
    && (a in after ==>
          && (a in before ==> before[a] <= after[a])
          && (forall n :: n in page && n.account == a ==> n.cutoff <= after[a])
          && ((a in before && after[a] == before[a])
              || exists n :: n in page && n.account == a && n.cutoff == after[a]))
  }

  lemma {:induction false} CutoffsMean(c: Consumer, page: seq<Notice>, now: int, a: nat)
    ensures CutoffLearnt(c.cutoffs, page, LearnAll(c, page, now).cutoffs, a)
    decreases |page|
  {
    if page != [] {
      var front, last := page[..|page| - 1], page[|page| - 1];
      CutoffsMean(c, front, now, a);
      hide LearnAll;
      CutoffOfOneMore(c.cutoffs, front, LearnAll(c, front, now).cutoffs, last, a);
      assert page == front + [last];
    }
  }

  lemma CutoffOfOneMore(before: map<nat, int>, front: seq<Notice>, mid: map<nat, int>, n: Notice, a: nat)
    requires CutoffLearnt(before, front, mid, a)
    ensures CutoffLearnt(before, front + [n], WithCutoff(mid, n.account, n.cutoff), a)
  {
    var page := front + [n];
    assert n in page && forall m :: m in page <==> m in front || m == n;
  }

  lemma {:induction false} TokensLearnt(c: Consumer, page: seq<Notice>, now: int)
    ensures forall k :: k in LearnAll(c, page, now).known <==>
              k in c.known || (now < k.retainUntil && exists n :: n in page && k in n.tokens)
    ensures LearnAll(c, page, now).checkpoint == if page == [] then c.checkpoint else page[|page| - 1].num
    decreases |page|
  {
    if page != [] {
      var front, last := page[..|page| - 1], page[|page| - 1];
      TokensLearnt(c, front, now);
      assert page == front + [last];
      hide WithCutoff;
    }
  }

  lemma AbsorbMeans(c: Consumer, page: seq<Notice>, now: int)
    ensures Learnt(c, page, now, Absorb(c, page, now))
  {
    var c0 := c.(known := Unexpired(c.known, now));
    forall a {
      CutoffsMean(c0, page, now, a);
    }
    TokensLearnt(c0, page, now);
    hide LearnAll, CutoffLearnt;
  }

  /** What is demanded of an entry that comes after `previous`. */
  ghost predicate Accepts(n: Notice, previous: nat) {
    && previous < n.num && 0 < n.revokedAt
    && (n.family.None? ==> n.cutoff > 0) && (n.family.Some? ==> n.cutoff == 0 && n.tokens != {})
    && (forall k :: k in n.tokens ==> n.revokedAt < k.retainUntil)
    && forall j, k :: j in n.tokens && k in n.tokens && j.id == k.id ==> j.retainUntil == k.retainUntil
  }

  /** The number an entry of a page comes after. */
  function NumBefore(page: seq<Notice>, checkpoint: nat, i: nat): nat
    requires i <= |page|
  {
    if i == 0 then checkpoint else page[i - 1].num
  }

  ghost predicate AllAccepted(page: seq<Notice>, checkpoint: nat) {
    forall i :: 0 <= i < |page| ==> Accepts(page[i], NumBefore(page, checkpoint, i))
  }

  lemma AcceptableMeans(n: Notice, previous: nat)
    ensures Accepts(n, previous) <==> previous < n.num && Acceptable(n)
  {
    assert forall j, k :: j in n.tokens && k in n.tokens && j.id == k.id ==>
             (j == k <==> j.retainUntil == k.retainUntil);
  }

  lemma ValidPageMeans(page: seq<Notice>, checkpoint: nat)
    ensures ValidPage(page, checkpoint) <==> AllAccepted(page, checkpoint)
  {
    forall i | 0 <= i < |page|
      ensures Accepts(page[i], NumBefore(page, checkpoint, i)) <==>
                NumBefore(page, checkpoint, i) < page[i].num && Acceptable(page[i])
    {
      AcceptableMeans(page[i], NumBefore(page, checkpoint, i));
    }
    hide Accepts, Acceptable;
    if AllAccepted(page, checkpoint) {
      forall i, j | 0 <= i <= j < |page|
        ensures NumBefore(page, checkpoint, i) <= NumBefore(page, checkpoint, j)
      {
        NumbersGrow(page, checkpoint, i, j);
      }
      forall i, j | 0 <= i < j < |page|
        ensures page[i].num < page[j].num
      {
        assert NumBefore(page, checkpoint, i + 1) == page[i].num <= NumBefore(page, checkpoint, j) < page[j].num;
      }
      assert forall j :: 0 <= j < |page| ==> NumBefore(page, checkpoint, 0) <= NumBefore(page, checkpoint, j);
    }
  }

  lemma {:induction false} NumbersGrow(page: seq<Notice>, checkpoint: nat, i: nat, j: nat)
    requires i <= j <= |page| && forall k :: 0 <= k < |page| ==> NumBefore(page, checkpoint, k) < page[k].num
    ensures NumBefore(page, checkpoint, i) <= NumBefore(page, checkpoint, j)
    decreases j
  {
    hide NumBefore;
    if i < j {
      NumbersGrow(page, checkpoint, i, j - 1);
      NumBeforeIs(page, checkpoint, j);
      assert NumBefore(page, checkpoint, j - 1) < page[j - 1].num;
    }
  }

  lemma NumBeforeIs(page: seq<Notice>, checkpoint: nat, j: nat)
    requires j <= |page|
    ensures NumBefore(page, checkpoint, j) == if j == 0 then checkpoint else page[j - 1].num
  {
  }

  // ------------------------------------------------------------------ polling while the feed changes

  /** How many notices are numbered up to `since`. */
  function Position(feed: seq<Notice>, since: nat): (k: nat)
    ensures k <= |feed| && (forall i :: 0 <= i < k ==> feed[i].num <= since) && (k < |feed| ==> feed[k].num > since)
  {
    if feed == [] || feed[0].num > since then 0
    else
      var k := Position(feed[1..], since);
      assert forall i :: 0 < i < 1 + k ==> feed[i] == feed[1..][i - 1];
      1 + k
  }

  function Nums(feed: seq<Notice>): set<nat> {
    set n | n in feed :: n.num
  }

  /** A page of `count` notices after `since`. */
  function PageOf(feed: seq<Notice>, since: nat, count: nat): seq<Notice>
    requires Position(feed, since) + count <= |feed|
  {
    feed[Position(feed, since)..Position(feed, since) + count]
  }

  /** The identity provider and one consumer: the page on its way to it, if any, where it started, what it has
      applied since, and which numbers were gone from the feed before they were put on a page for it. */
  datatype System = System(s: State, c: Consumer, page: Option<seq<Notice>>, start: nat, received: seq<nat>,
                           missed: set<nat>)

  datatype Act =
    | Do(e: Event)
    | Serve(now: int, count: nat)
    | Apply(readAt: int)
    | Lose
    | Restart

  /** A consumer asks for one page at a time. */
  predicate Can(y: System, a: Act) {
    match a
    case Do(e) => Enabled(y.s, e)
    case Serve(now, count) =>
      && y.page.None? && Enabled(y.s, ReadFeed(now))
      && Position(Pruned(y.s.feed, now), y.c.checkpoint) + count <= |Pruned(y.s.feed, now)|
    case Apply(readAt) => y.page.Some? && readAt <= y.s.clock
    case Lose => y.page.Some?
    case Restart => true
  }

  /** Numbers beyond the checkpoint that are no longer in the feed. */
  function Gone(s: State, checkpoint: nat): set<nat> {
    set k | checkpoint < k <= s.issued && k !in Nums(s.feed)
  }

  function LastNum(page: seq<Notice>, otherwise: nat): nat {
    if page == [] then otherwise else page[|page| - 1].num
  }

  function NumsInOrder(page: seq<Notice>): seq<nat> {
    seq(|page|, i requires 0 <= i < |page| => page[i].num)
  }

  /** The page under way. */
  function UnderWay(y: System): seq<Notice> {
    if y.page.Some? then y.page.value else []
  }

  /** The last number applied or under way. */
  function Horizon(y: System): nat {
    LastNum(UnderWay(y), y.c.checkpoint)
  }

  /** A request prunes the feed and is answered with a page of it, which is applied later, or never arrives or
      fails to be applied. A restarted consumer begins anew. */
  function After(y: System, a: Act): System
    requires Can(y, a)
  {
    match a
    case Do(e) =>
      var s := Next(y.s, e);
      y.(s := s, missed := y.missed + Gone(s, Horizon(y)))
    case Serve(now, count) =>
      var s := Next(y.s, ReadFeed(now));
      y.(s := s, page := Some(PageOf(s.feed, y.c.checkpoint, count)), missed := y.missed + Gone(s, y.c.checkpoint))
    case Apply(readAt) =>
      var page := UnderWay(y);
      y.(c := Absorb(y.c, page, readAt), page := None, received := y.received + NumsInOrder(page))
    case Lose => y.(page := None, missed := y.missed + Gone(y.s, y.c.checkpoint))
    case Restart => System(y.s, Consumer({}, map[], 0), None, 0, [], Gone(y.s, 0))
  }

  function Run(y: System, acts: seq<Act>): Option<System> {
    if acts == [] then Some(y)
    else
      match Run(y, acts[..|acts| - 1])
      case None => None
      case Some(m) => if Can(m, acts[|acts| - 1]) then Some(After(m, acts[|acts| - 1])) else None
  }

  predicate Begin(y: System) {
    Initial(y.s) && y.c == Consumer({}, map[], 0) && y.page.None? && y.start == 0 && y.received == [] && y.missed == {}
  }

  /** The run as the identity provider sees it. */
  function Served(acts: seq<Act>): seq<Event> {
    if acts == [] then []
    else
      var a := acts[|acts| - 1];
      Served(acts[..|acts| - 1]) + match a { case Do(e) => [e] case Serve(now, _) => [ReadFeed(now)] case _ => [] }
  }

  lemma {:induction false} ServedRuns(y0: System, acts: seq<Act>)
    requires Run(y0, acts).Some?
    ensures Exec(y0.s, Served(acts)) == Some(Run(y0, acts).value.s)
  {
    if acts != [] {
      ServedRuns(y0, acts[..|acts| - 1]);
      var m, a := Run(y0, acts[..|acts| - 1]).value, acts[|acts| - 1];
      var es := Served(acts[..|acts| - 1]);
      hide Next, Enabled;
      match a {
        case Do(e) => ExecOneMore(y0.s, es, m.s, e);
        case Serve(now, _) => ExecOneMore(y0.s, es, m.s, ReadFeed(now));
        case Apply(_) => assert es + [] == es;
        case Lose => assert es + [] == es;
        case Restart => assert es + [] == es;
      }
    }
  }

  // ------------------------------------------------------------------ what a poll does

  /** A request prunes the feed and puts on the page the first `count` notices beyond the checkpoint; what is beyond it
      and not in the feed any more is missed. */
  lemma ServeMeans(y: System, now: int, count: nat) returns (p: nat)
    requires Can(y, Serve(now, count)) && Increasing(y.s.feed)
    ensures
      var z := After(y, Serve(now, count));
      && z == y.(s := z.s, page := z.page, missed := z.missed) && z.s == y.s.(feed := z.s.feed)
      && PrunesTo(y.s.feed, now, z.s.feed)
      && p + count <= |z.s.feed| && z.page == Some(z.s.feed[p..p + count])
      && (forall i :: 0 <= i < |z.s.feed| ==> (p <= i <==> y.c.checkpoint < z.s.feed[i].num))
      && forall k :: k in z.missed <==>
           k in y.missed
           || (y.c.checkpoint < k <= y.s.issued && forall n :: n in z.s.feed ==> n.num != k)
  {
    PrunedMeans(y.s.feed, now);
    var feed := Next(y.s, ReadFeed(now)).feed;
    p := Position(feed, y.c.checkpoint);
    hide PrunesTo, Position, Pruned;
    assert Increasing(feed) by { PrunedIncreasing(y.s.feed, now); }
    GoneMeans(Next(y.s, ReadFeed(now)), y.c.checkpoint);
  }

  lemma GoneMeans(s: State, checkpoint: nat)
    ensures forall k :: k in Gone(s, checkpoint) <==>
              checkpoint < k <= s.issued && forall n :: n in s.feed ==> n.num != k
  {
  }

  /** The page that arrives teaches what it says; its numbers have been received. */
  lemma ApplyMeans(y: System, readAt: int)
    requires Can(y, Apply(readAt))
    ensures
      var z, page := After(y, Apply(readAt)), y.page.value;
      && z == y.(c := z.c, page := None, received := z.received) && Learnt(y.c, page, readAt, z.c)
      && |z.received| == |y.received| + |page|
      && (forall i :: 0 <= i < |y.received| ==> z.received[i] == y.received[i])
      && forall i :: 0 <= i < |page| ==> z.received[|y.received| + i] == page[i].num
  {
    AbsorbMeans(y.c, y.page.value, readAt);
    hide Learnt, Absorb;
  }

  /** Whatever else happens changes neither consumer nor page; beyond the last number applied or under way, what the
      feed no longer has is missed. A page that gets lost is missed for what the feed no longer has of it. */
  lemma OthersMean(y: System, a: Act)
    requires Can(y, a) && (a.Do? || a.Lose?)
    ensures
      var z := After(y, a);
      var last := if a.Do? && y.page.Some? && y.page.value != [] then y.page.value[|y.page.value| - 1].num
                  else y.c.checkpoint;
      && z == y.(s := z.s, page := if a.Do? then y.page else None, missed := z.missed)
      && z.s == (if a.Do? then Next(y.s, a.e) else y.s)
      && forall k :: k in z.missed <==>
           k in y.missed || (last < k <= z.s.issued && forall n :: n in z.s.feed ==> n.num != k)
  {
    hide Next;
    if a.Do? {
      GoneMeans(Next(y.s, a.e), Horizon(y));
    } else {
      GoneMeans(y.s, y.c.checkpoint);
    }
  }

  // ------------------------------------------------------------------ a stored notice only shrinks

  /** `m` has become `n`: the same notice with perhaps fewer tokens. */
  predicate Shrunk(m: Notice, n: Notice) {
    n.num == m.num && n.account == m.account && n.family == m.family && n.cutoff == m.cutoff && n.tokens <= m.tokens
  }

  /** Compaction moves tokens to a newer number only: under its own number a notice never grows. */
  lemma NoticesOnlyShrink(s: State, e: Event, n: Notice)
    requires FeedOk(s) && Enabled(s, e) && n in Next(s, e).feed
    ensures n.num == s.issued + 1 == Next(s, e).issued || exists m :: m in s.feed && Shrunk(m, n)
    ensures s.issued <= Next(s, e).issued
  {
    hide Tokens, Replayable, Rotated, FeedOk, RevokeAll, Kept;
    assert n in s.feed ==> Shrunk(n, n);
    match e
    case LogoutEverywhere(h, now) =>
      if h in s.rows && RevokeAll(s, s.rows[h].account, now).Some? {
        RevokeAllShrinks(s, s.rows[h].account, now, n);
      }
    case ReadFeed(now) =>
      var m :| m in s.feed && n == Trimmed(m, now);
      assert Shrunk(m, n);
    case Birth(_, _, _, _) =>
    case Present(_, _, _, _, _) =>
    case Logout(_, _) =>
    case Evict(_, _, _) =>
    case Tick(_) =>
  }

  lemma RevokeAllShrinks(s: State, account: nat, now: int, n: Notice)
    requires FeedOk(s) && RevokeAll(s, account, now).Some? && n in RevokeAll(s, account, now).value.feed
    ensures RevokeAll(s, account, now).value.issued == s.issued + 1
    ensures n.num == s.issued + 1 || exists m :: m in s.feed && Shrunk(m, n)
  {
    RevokeAllFeed(s, account, now, n);
    CompactionChooses(s, account, now);
    hide Tokens, FeedOk, Kept;
    if n.num != s.issued + 1 {
      assert n in s.feed && Shrunk(n, n);
    }
  }

  // ------------------------------------------------------------------ each number once

  /** Up to the checkpoint every number was received or missed, then up to the horizon under way or missed, and
      beyond it in the feed or missed, and never both. */
  ghost predicate Partition(y: System) {
    && y.start <= y.c.checkpoint <= Horizon(y) <= y.s.issued
    && Increasing(UnderWay(y)) && (forall n :: n in UnderWay(y) ==> y.c.checkpoint < n.num <= Horizon(y))
    && (forall i, j :: 0 <= i < j < |y.received| ==> y.received[i] < y.received[j])
    && (forall k :: k in y.received ==> y.start < k <= y.c.checkpoint)
    && (forall k :: k in y.missed ==> y.start < k <= y.s.issued)
    && (forall k :: y.start < k <= y.c.checkpoint ==> (k in y.received <==> k !in y.missed))
    && (forall k :: y.c.checkpoint < k <= Horizon(y) ==> (k in Nums(UnderWay(y)) <==> k !in y.missed))
    && (forall k :: Horizon(y) < k <= y.s.issued ==> (k in Nums(y.s.feed) <==> k !in y.missed))
  }

  lemma NumbersStepwise(s: State, e: Event, k: nat)
    requires FeedOk(s) && Enabled(s, e) && k in Nums(Next(s, e).feed)
    ensures k in Nums(s.feed) || k == s.issued + 1 == Next(s, e).issued
  {
    hide FeedOk, Next, Enabled;
    var n :| n in Next(s, e).feed && n.num == k;
    NoticesOnlyShrink(s, e, n);
  }

  lemma DoKeepsPartition(y: System, e: Event)
    requires Partition(y) && FeedOk(y.s) && Enabled(y.s, e)
    ensures Partition(After(y, Do(e)))
  {
    var s, s' := y.s, Next(y.s, e);
    IssuedGrows(s, e);
    forall k | k in Nums(s'.feed)
      ensures k in Nums(s.feed) || s.issued < k
    {
      NumbersStepwise(s, e, k);
    }
    hide Next, Enabled, FeedOk, Nums, Horizon, UnderWay, Increasing;
  }

  lemma IssuedGrows(s: State, e: Event)
    requires FeedOk(s) && Enabled(s, e)
    ensures s.issued <= Next(s, e).issued
  {
    hide Tokens, Rotated, Replayable, FeedOk, AppendAccount, AppendFamily;
  }

  lemma {:induction false} LearnAllLearns(c: Consumer, page: seq<Notice>, now: int)
    ensures LearnAll(c, page, now).checkpoint == LastNum(page, c.checkpoint)
    ensures c.known <= LearnAll(c, page, now).known
    ensures forall a :: a in c.cutoffs ==>
            a in LearnAll(c, page, now).cutoffs && c.cutoffs[a] <= LearnAll(c, page, now).cutoffs[a]
    ensures forall n :: n in page && 0 <= n.cutoff && (n.family.None? ==> n.cutoff > 0) ==>
            Absorbed(LearnAll(c, page, now), n, now)
  {
    if page != [] {
      var front, last := page[..|page| - 1], page[|page| - 1];
      LearnAllLearns(c, front, now);
      var m := LearnAll(c, front, now);
      LearnKeeps(m, last, now);
      forall n | n in page && 0 <= n.cutoff && (n.family.None? ==> n.cutoff > 0)
        ensures Absorbed(LearnAll(c, page, now), n, now)
      {
        if n != last {
          assert n in front;
          AbsorbedStays(m, Learn(m, last, now), n, now, now);
        }
      }
    }
  }

  /** The consumer knows what the notice denies. */
  predicate Absorbed(c: Consumer, n: Notice, now: int) {
    && Unexpired(n.tokens, now) <= c.known
    && (n.family.None? ==> n.account in c.cutoffs && n.cutoff <= c.cutoffs[n.account])
  }

  lemma LearnKeeps(c: Consumer, n: Notice, now: int)
    ensures c.known <= Learn(c, n, now).known
    ensures forall a :: a in c.cutoffs ==> a in Learn(c, n, now).cutoffs && c.cutoffs[a] <= Learn(c, n, now).cutoffs[a]
    ensures (n.family.None? ==> n.cutoff > 0) ==> Absorbed(Learn(c, n, now), n, now)
  {
  }

  lemma AbsorbedStays(c: Consumer, c': Consumer, n: Notice, now: int, now': int)
    requires Absorbed(c, n, now) && now <= now' && Unexpired(c.known, now') <= c'.known
    requires forall a :: a in c.cutoffs ==> a in c'.cutoffs && c.cutoffs[a] <= c'.cutoffs[a]
    ensures Absorbed(c', n, now')
  {
    assert Unexpired(n.tokens, now') <= Unexpired(c.known, now');
  }

  /** The consumer knows what every notice up to its checkpoint denies, and what follows up to its horizon is on
      the page under way, where it may still have tokens that are gone by now. */
  ghost predicate UpToDate(y: System) {
    && (forall n :: n in y.s.feed && n.num <= y.c.checkpoint ==> Absorbed(y.c, n, y.s.clock))
    && (forall n :: n in y.s.feed && y.c.checkpoint < n.num <= Horizon(y) ==> OnPage(UnderWay(y), n))
    && (forall m :: m in UnderWay(y) ==> 0 <= m.cutoff && (m.family.None? ==> m.cutoff > 0))
  }

  ghost predicate OnPage(page: seq<Notice>, n: Notice) {
    exists m :: m in page && Shrunk(m, n)
  }

  lemma DoKeepsUpToDate(y: System, e: Event)
    requires UpToDate(y) && FeedOk(y.s) && Enabled(y.s, e) && y.c.checkpoint <= Horizon(y) <= y.s.issued
    ensures UpToDate(After(y, Do(e)))
  {
    var s' := Next(y.s, e);
    assert y.s.clock <= s'.clock;
    forall n | n in s'.feed && n.num <= Horizon(y)
      ensures exists m :: m in y.s.feed && Shrunk(m, n)
    {
      NoticesOnlyShrink(y.s, e, n);
    }
    SameHorizon(y, After(y, Do(e)));
    hide Next, Enabled, FeedOk;
    ShrinkingKeepsUpToDate(y, After(y, Do(e)));
  }

  lemma SameHorizon(y: System, y': System)
    requires y'.page == y.page && y'.c == y.c
    ensures Horizon(y') == Horizon(y) && UnderWay(y') == UnderWay(y)
  {
  }

  lemma ShrinkingKeepsUpToDate(y: System, y': System)
    requires UpToDate(y) && y'.c == y.c && y.s.clock <= y'.s.clock && y.c.checkpoint <= Horizon(y)
    requires Horizon(y') == Horizon(y) && UnderWay(y') == UnderWay(y)
    requires forall n :: n in y'.s.feed && n.num <= Horizon(y) ==> exists m :: m in y.s.feed && Shrunk(m, n)
    ensures UpToDate(y')
  {
    hide Absorbed, Horizon, UnderWay;
    forall n | n in y'.s.feed && n.num <= y.c.checkpoint
      ensures Absorbed(y.c, n, y'.s.clock)
    {
      var m :| m in y.s.feed && Shrunk(m, n);
      ShrunkIsAbsorbed(y.c, m, n, y.s.clock, y'.s.clock);
    }
    forall n | n in y'.s.feed && y.c.checkpoint < n.num <= Horizon(y)
      ensures OnPage(UnderWay(y), n)
    {
      var m :| m in y.s.feed && Shrunk(m, n);
      var p :| p in UnderWay(y) && Shrunk(p, m);
      assert Shrunk(p, n);
    }
  }

  lemma ShrunkIsAbsorbed(c: Consumer, m: Notice, n: Notice, now: int, now': int)
    requires Absorbed(c, m, now) && Shrunk(m, n) && now <= now'
    ensures Absorbed(c, n, now')
  {
    assert Unexpired(n.tokens, now') <= Unexpired(m.tokens, now);
  }

  lemma ServeKeepsUpToDate(y: System, now: int, count: nat)
    requires UpToDate(y) && FeedOk(y.s) && Can(y, Serve(now, count)) && y.c.checkpoint <= y.s.issued
    ensures UpToDate(After(y, Serve(now, count)))
  {
    var s, y' := Next(y.s, ReadFeed(now)), After(y, Serve(now, count));
    ReadFeedOk(y.s, now);
    DoKeepsUpToDate(y, ReadFeed(now));
    forall n | n in s.feed && y.c.checkpoint < n.num <= Horizon(y')
      ensures OnPage(UnderWay(y'), n)
    {
      PageHolds(s.feed, y.c.checkpoint, count, n);
      assert n in UnderWay(y') && Shrunk(n, n);
    }
    forall m | m in UnderWay(y')
      ensures 0 <= m.cutoff && (m.family.None? ==> m.cutoff > 0)
    {
      assert m in s.feed && NoticeOk(s, m);
    }
  }

  lemma ApplyKeepsUpToDate(y: System, readAt: int)
    requires UpToDate(y) && Partition(y) && Can(y, Apply(readAt))
    ensures UpToDate(After(y, Apply(readAt)))
  {
    var page, c0 := UnderWay(y), y.c.(known := Unexpired(y.c.known, readAt));
    LearnAllLearns(c0, page, readAt);
    var c := LearnAll(c0, page, readAt);
    assert After(y, Apply(readAt)).c == c && c.checkpoint == Horizon(y);
    hide LearnAll, Partition, Horizon, UnderWay, Absorbed;
    forall n | n in y.s.feed && n.num <= c.checkpoint
      ensures Absorbed(c, n, y.s.clock)
    {
      if n.num <= y.c.checkpoint {
        AbsorbedStays(y.c, c, n, y.s.clock, y.s.clock);
      } else {
        var m :| m in page && Shrunk(m, n);
        ShrunkIsAbsorbed(c, m, n, readAt, readAt);
        AbsorbedStays(c, c, n, readAt, y.s.clock);
      }
    }
    NothingUnderWay(After(y, Apply(readAt)));
  }

  lemma NothingUnderWay(y: System)
    requires y.page.None?
    ensures UnderWay(y) == [] && Horizon(y) == y.c.checkpoint
  {
  }

  lemma PageIndex(feed: seq<Notice>, since: nat, count: nat, i: nat)
    requires Increasing(feed) && Position(feed, since) + count <= |feed| && i < |feed|
    ensures Position(feed, since) <= i < Position(feed, since) + count <==>
              since < feed[i].num <= LastNum(PageOf(feed, since, count), since)
  {
    var p := Position(feed, since);
    assert count > 0 ==> PageOf(feed, since, count)[count - 1] == feed[p + count - 1];
    assert p <= i ==> feed[p].num <= feed[i].num;
  }

  lemma InPage(feed: seq<Notice>, since: nat, count: nat, n: Notice)
    requires Position(feed, since) + count <= |feed|
    ensures n in PageOf(feed, since, count) <==>
              exists i :: Position(feed, since) <= i < Position(feed, since) + count && feed[i] == n
  {
    var p, page := Position(feed, since), PageOf(feed, since, count);
    hide Position;
    if n in page {
      var j :| 0 <= j < |page| && page[j] == n;
      assert feed[p + j] == n;
    }
    if i :| p <= i < p + count && feed[i] == n {
      assert page[i - p] == n;
    }
  }

  /** A page holds everything from the checkpoint to its last number. */
  lemma PageHolds(feed: seq<Notice>, since: nat, count: nat, n: Notice)
    requires Increasing(feed) && Position(feed, since) + count <= |feed| && n in feed
    ensures n in PageOf(feed, since, count) <==> since < n.num <= LastNum(PageOf(feed, since, count), since)
  {
    hide PageOf, Position, LastNum, Increasing;
    InPage(feed, since, count, n);
    if n in PageOf(feed, since, count) {
      var i :| Position(feed, since) <= i < Position(feed, since) + count && feed[i] == n;
      PageIndex(feed, since, count, i);
    } else {
      var i :| 0 <= i < |feed| && feed[i] == n;
      PageIndex(feed, since, count, i);
    }
  }

  lemma ServeKeepsPartition(y: System, now: int, count: nat)
    requires Partition(y) && FeedOk(y.s) && Can(y, Serve(now, count))
    ensures Partition(After(y, Serve(now, count)))
  {
    var s := Next(y.s, ReadFeed(now));
    ReadFeedOk(y.s, now);
    DoKeepsPartition(y, ReadFeed(now));
    var page := PageOf(s.feed, y.c.checkpoint, count);
    assert forall n :: n in s.feed ==> NoticeOk(s, n);
    PageNumbers(s.feed, y.c.checkpoint, count, s.issued);
    PageIncreases(s.feed, y.c.checkpoint, count);
    var z := y.(s := s, missed := y.missed + Gone(s, y.c.checkpoint));
    assert After(y, Do(ReadFeed(now))) == z;
    assert After(y, Serve(now, count)) == z.(page := Some(page));
    hide Next, FeedOk, PageOf, Gone;
    SettingOut(z, page);
  }

  /** A page of all the numbers there are up to its last. */
  lemma SettingOut(y: System, page: seq<Notice>)
    requires Partition(y) && y.page.None? && Increasing(page)
             && y.c.checkpoint <= LastNum(page, y.c.checkpoint) <= y.s.issued
    requires forall k :: k in NumsInOrder(page) <==>
             k in Nums(y.s.feed) && y.c.checkpoint < k <= LastNum(page, y.c.checkpoint)
    ensures Partition(y.(page := Some(page)))
  {
    forall k: nat
      ensures k in Nums(page) <==> k in NumsInOrder(page)
    {
      NumbersOf(page, k);
    }
    forall n | n in page
      ensures y.c.checkpoint < n.num <= LastNum(page, y.c.checkpoint)
    {
      assert n.num in Nums(page);
    }
    hide Nums, NumsInOrder;
  }

  lemma ApplyKeepsPartition(y: System, readAt: int)
    requires Partition(y) && Can(y, Apply(readAt))
    ensures Partition(After(y, Apply(readAt)))
  {
    var page := UnderWay(y);
    var c := Absorb(y.c, page, readAt);
    LearnAllLearns(y.c.(known := Unexpired(y.c.known, readAt)), page, readAt);
    forall k: nat
      ensures k in Nums(page) <==> k in NumsInOrder(page)
    {
      NumbersOf(page, k);
    }
    assert forall k :: k in Nums(page) ==> y.c.checkpoint < k <= Horizon(y);
    assert forall i, j :: 0 <= i < j < |page| ==> NumsInOrder(page)[i] < NumsInOrder(page)[j];
    assert c.checkpoint == Horizon(y);
    hide Nums, NumsInOrder, Absorb;
    MovingOn(y, NumsInOrder(page), c);
  }

  /** A consumer that takes all the numbers under way keeps the partition. */
  lemma MovingOn(y: System, page: seq<nat>, c: Consumer)
    requires Partition(y) && c.checkpoint == Horizon(y)
    requires forall i, j :: 0 <= i < j < |page| ==> page[i] < page[j]
    requires forall k :: k in page <==> k in Nums(UnderWay(y))
    requires forall k :: k in page ==> y.c.checkpoint < k <= c.checkpoint
    ensures Partition(y.(c := c, page := None, received := y.received + page))
  {
    hide Nums;
    ReceivedGrows(y.received, page, y.c.checkpoint);
  }

  /** What was on a page that never arrived is in the feed still, or missed. */
  lemma LoseKeeps(y: System)
    requires Partition(y) && UpToDate(y) && y.page.Some?
    ensures Partition(After(y, Lose)) && UpToDate(After(y, Lose))
  {
    forall k | y.c.checkpoint < k <= Horizon(y) && k in Nums(y.s.feed)
      ensures k in Nums(UnderWay(y))
    {
      var n :| n in y.s.feed && n.num == k;
      var m :| m in UnderWay(y) && Shrunk(m, n);
      assert m.num == k;
    }
    hide Nums;
  }

  lemma SliceIncreases(feed: seq<Notice>, p: nat, q: nat)
    requires Increasing(feed) && p <= q <= |feed|
    ensures Increasing(feed[p..q])
  {
    forall i, j | 0 <= i < j < q - p
      ensures feed[p..q][i].num < feed[p..q][j].num
    {
      assert feed[p + i].num < feed[p + j].num;
    }
  }

  lemma PageIncreases(feed: seq<Notice>, since: nat, count: nat)
    requires Increasing(feed) && Position(feed, since) + count <= |feed|
    ensures Increasing(PageOf(feed, since, count))
    ensures
      var page := NumsInOrder(PageOf(feed, since, count));
      forall i, j :: 0 <= i < j < |page| ==> page[i] < page[j]
  {
    SliceIncreases(feed, Position(feed, since), Position(feed, since) + count);
    hide Position;
  }

  lemma NumbersOf(page: seq<Notice>, k: nat)
    ensures k in NumsInOrder(page) <==> k in Nums(page)
  {
    if k in NumsInOrder(page) {
      var i :| 0 <= i < |page| && NumsInOrder(page)[i] == k;
      assert page[i] in page;
    }
    if k in Nums(page) {
      var n :| n in page && n.num == k;
      var i :| 0 <= i < |page| && page[i] == n;
      assert NumsInOrder(page)[i] == k;
    }
  }

  lemma PageNumber(feed: seq<Notice>, since: nat, count: nat, k: nat)
    requires Increasing(feed) && Position(feed, since) + count <= |feed|
    ensures k in Nums(PageOf(feed, since, count)) <==>
            k in Nums(feed) && since < k <= LastNum(PageOf(feed, since, count), since)
  {
    var page := PageOf(feed, since, count);
    assert forall n :: n in page ==> n in feed;
    hide PageOf, Position, Increasing;
    if k in Nums(page) {
      var n :| n in page && n.num == k;
      PageHolds(feed, since, count, n);
    }
    if k in Nums(feed) {
      var n :| n in feed && n.num == k;
      PageHolds(feed, since, count, n);
    }
  }

  lemma PageNumbers(feed: seq<Notice>, since: nat, count: nat, issued: nat)
    requires Increasing(feed) && Position(feed, since) + count <= |feed| && since <= issued
             && forall n :: n in feed ==> n.num <= issued
    ensures
      var page := PageOf(feed, since, count);
      && since <= LastNum(page, since) <= issued
      && (forall k :: k in NumsInOrder(page) <==> k in Nums(feed) && since < k <= LastNum(page, since))
  {
    var page := PageOf(feed, since, count);
    if page != [] {
      PageHolds(feed, since, count, page[|page| - 1]);
    }
    hide PageOf, Position, Increasing, NumsInOrder, Nums;
    forall k: nat
      ensures k in NumsInOrder(page) <==> k in Nums(feed) && since < k <= LastNum(page, since)
    {
      NumbersOf(page, k);
      PageNumber(feed, since, count, k);
    }
  }

  lemma ReceivedGrows(received: seq<nat>, page: seq<nat>, checkpoint: nat)
    requires forall i, j :: 0 <= i < j < |received| ==> received[i] < received[j]
    requires forall i, j :: 0 <= i < j < |page| ==> page[i] < page[j]
    requires (forall k :: k in received ==> k <= checkpoint) && (forall k :: k in page ==> k > checkpoint)
    ensures forall i, j :: 0 <= i < j < |received + page| ==> (received + page)[i] < (received + page)[j]
  {
    forall i, j | 0 <= i < j < |received + page|
      ensures (received + page)[i] < (received + page)[j]
    {
      if i < |received| <= j {
        assert received[i] in received && page[j - |received|] in page;
      }
    }
  }

  lemma RestartKeeps(y: System)
    requires FeedOk(y.s)
    ensures Partition(After(y, Restart)) && UpToDate(After(y, Restart))
  {
    assert forall n :: n in y.s.feed ==> NoticeOk(y.s, n);
  }

  ghost predicate Sound(y: System) {
    Reachable(y.s) && Partition(y) && UpToDate(y)
  }

  lemma ActKeepsSound(y: System, a: Act)
    requires Sound(y) && Can(y, a)
    ensures Partition(After(y, a)) && UpToDate(After(y, a))
  {
    ReachableFeed(y.s);
    hide Partition, UpToDate, FeedOk, Enabled, After;
    HorizonIssued(y);
    match a
    case Do(e) =>
      DoKeepsPartition(y, e);
      DoKeepsUpToDate(y, e);
    case Serve(now, count) =>
      ServeKeepsPartition(y, now, count);
      ServeKeepsUpToDate(y, now, count);
    case Apply(readAt) =>
      ApplyKeepsPartition(y, readAt);
      ApplyKeepsUpToDate(y, readAt);
    case Lose => LoseKeeps(y);
    case Restart => RestartKeeps(y);
  }

  lemma HorizonIssued(y: System)
    requires Partition(y)
    ensures y.c.checkpoint <= Horizon(y) <= y.s.issued
  {
  }

  lemma {:induction false} RunsAreSoundToo(y0: System, acts: seq<Act>)
    requires Begin(y0) && Run(y0, acts).Some?
    ensures Sound(Run(y0, acts).value)
  {
    ServedRuns(y0, acts);
    if acts != [] {
      RunsAreSoundToo(y0, acts[..|acts| - 1]);
      hide Sound, Can, After, Reachable;
      ActKeepsSound(Run(y0, acts[..|acts| - 1]).value, acts[|acts| - 1]);
    }
    assert Reachable(Run(y0, acts).value.s);
  }

  /** However appending, merging, pruning and polling interleave, between a page's being served and its being
      applied too, and whatever another consumer's polls do to the feed, a consumer applies numbers in strictly
      increasing order, so none twice; and of the numbers after its start up to its checkpoint it has applied
      exactly those that were not gone from the feed before they were put on a page for it. */
  lemma EachNumberOnce(y0: System, acts: seq<Act>, k: nat)
    requires Begin(y0) && Run(y0, acts).Some?
    ensures
      var y := Run(y0, acts).value;
      && (forall i, j :: 0 <= i < j < |y.received| ==> y.received[i] < y.received[j])
      && (forall r :: r in y.received ==> y.start < r <= y.c.checkpoint)
      && (y.start < k <= y.c.checkpoint ==> (k in y.received <==> k !in y.missed))
      && (y.c.checkpoint < k <= y.s.issued ==>
            (k !in y.missed <==> exists n :: n in (if k <= Horizon(y) then UnderWay(y) else y.s.feed) && n.num == k))
  {
    RunsAreSoundToo(y0, acts);
  }

  /** Numbers do go missing: when an account logs out everywhere twice before the consumer asks, it is given
      one of the two notices, the one with the later cutoff, and misses the other. */
  lemma OneOfTwoIsMissed(y: System, token: nat, now: int)
    requires Sound(y) && Can(y, Do(LogoutEverywhere(token, now))) && token in y.s.rows
    requires RevokeAll(y.s, y.s.rows[token].account, now).Some? && Keeper(y.s.feed, y.s.rows[token].account).Some?
    requires Keeper(y.s.feed, y.s.rows[token].account).value.num > Horizon(y)
    ensures
      var y' := After(y, Do(LogoutEverywhere(token, now)));
      var first, second := Keeper(y.s.feed, y.s.rows[token].account).value, y.s.issued + 1;
      if first.cutoff <= now then first.num in y'.missed && second in Nums(y'.s.feed)
      else second in y'.missed && first.num in Nums(y'.s.feed)
  {
    hide Next, RevokeAll, Nums, Keeper, Partition, UpToDate, Reachable, Enabled, FeedOk, NoticeOk;
    var a := y.s.rows[token].account;
    ReachableFeed(y.s);
    LogoutRevokesAll(y.s, token, now);
    KeeperIsIssued(y.s, a);
    OneOfTwoStays(y.s, a, now);
  }

  lemma LogoutRevokesAll(s: State, token: nat, now: int)
    requires token in s.rows && RevokeAll(s, s.rows[token].account, now).Some?
    ensures Next(s, LogoutEverywhere(token, now)) == RevokeAll(s, s.rows[token].account, now).value
  {
    hide RevokeAll;
  }

  lemma KeeperIsIssued(s: State, account: nat)
    requires FeedOk(s) && Keeper(s.feed, account).Some?
    ensures Keeper(s.feed, account).value.num <= s.issued
  {
    assert NoticeOk(s, Keeper(s.feed, account).value);
  }

  lemma OneOfTwoStays(s: State, account: nat, now: int)
    requires FeedOk(s) && RevokeAll(s, account, now).Some? && Keeper(s.feed, account).Some?
    ensures
      var t, first, second := RevokeAll(s, account, now).value, Keeper(s.feed, account).value.num, s.issued + 1;
      && t.issued == second
      && if Keeper(s.feed, account).value.cutoff <= now then first !in Nums(t.feed) && second in Nums(t.feed)
         else second !in Nums(t.feed) && first in Nums(t.feed)
  {
    KeeperIsIssued(s, account);
    KeptNumber(s, account, now);
    OnlyKeptStays(s, account, now, Keeper(s.feed, account).value.num);
    OnlyKeptStays(s, account, now, s.issued + 1);
    hide *;
  }

  lemma KeptNumber(s: State, account: nat, now: int)
    requires FeedOk(s) && RevokeAll(s, account, now).Some? && Keeper(s.feed, account).Some?
    ensures RevokeAll(s, account, now).value.issued == s.issued + 1
    ensures Kept(s, account, now).num == if Keeper(s.feed, account).value.cutoff <= now then s.issued + 1
            else Keeper(s.feed, account).value.num
    ensures Kept(s, account, now).num in Nums(RevokeAll(s, account, now).value.feed)
  {
    CompactionChooses(s, account, now);
    RevokeAllFeed(s, account, now, Kept(s, account, now));
    hide Tokens, AppendAccount, Kept, FeedOk, Keeper;
  }

  /** Of the account's numbers only the kept one is left. */
  lemma OnlyKeptStays(s: State, account: nat, now: int, k: nat)
    requires FeedOk(s) && RevokeAll(s, account, now).Some? && Keeper(s.feed, account).Some?
    requires k == Keeper(s.feed, account).value.num || k > s.issued
    ensures k in Nums(RevokeAll(s, account, now).value.feed) ==> k == Kept(s, account, now).num
  {
    var t, first := RevokeAll(s, account, now).value, Keeper(s.feed, account).value;
    assert Increasing(s.feed) && forall n :: n in s.feed ==> NoticeOk(s, n) && n.num <= s.issued;
    assert first in s.feed && OfAccount(first, account);
    hide FeedOk, RevokeAll, Kept, Increasing, Keeper, NoticeOk;
    if k in Nums(t.feed) {
      var n :| n in t.feed && n.num == k;
      RevokeAllFeed(s, account, now, n);
      if n in s.feed {
        SameNumberSameNotice(s.feed, n, first);
      }
    }
  }

  lemma SameNumberSameNotice(feed: seq<Notice>, m: Notice, n: Notice)
    requires Increasing(feed) && m in feed && n in feed && m.num == n.num
    ensures m == n
  {
    var i :| 0 <= i < |feed| && feed[i] == m;
    var j :| 0 <= j < |feed| && feed[j] == n;
  }

  // ------------------------------------------------------------------ nothing revoked gets past a consumer

  /** Whatever the feed denies, the consumer denies as well or is still to be given. */
  lemma KnownOrToCome(y: System, r: Row)
    requires Sound(y) && DeniedBy(y.s.feed, r) && r.accessExpiresAt > y.s.clock
    ensures (forall now :: now <= y.s.clock ==>
               IsRevoked(y.c, r.cp, r.account, r.createdAt, now) && IsRevoked(y.c, r.node, r.account, r.createdAt, now))
            || exists n :: n in y.s.feed && n.num > y.c.checkpoint && Denies(n, r)
  {
    var n :| n in y.s.feed && Denies(n, r);
    if n.num <= y.c.checkpoint {
      assert Absorbed(y.c, n, y.s.clock);
      if Lists(n, r) {
        assert CpToken(r) in Unexpired(n.tokens, y.s.clock) && NodeToken(r) in Unexpired(n.tokens, y.s.clock);
      }
    }
  }

  /** Once a poll has come to the end of the feed, the consumer turns away both access tokens of every revoked
      row until they expire, if no logout everywhere of the run let a row slip: through every refresh,
      eviction, compaction and pruning, and although it may never have seen the notice that revoked it. */
  lemma CaughtUpConsumerDenies(y0: System, acts: seq<Act>, h: nat, now: int)
    requires Begin(y0) && Run(y0, acts).Some? && Exec(y0.s, Served(acts)).Some? && AllSealed(y0.s, Served(acts))
    requires
      var y := Run(y0, acts).value;
      && (forall n :: n in y.s.feed ==> n.num <= y.c.checkpoint)
      && h in y.s.rows && y.s.rows[h].revoked && now <= y.s.clock < y.s.rows[h].accessExpiresAt
    ensures
      var y := Run(y0, acts).value;
      var r := y.s.rows[h];
      IsRevoked(y.c, r.cp, r.account, r.createdAt, now) && IsRevoked(y.c, r.node, r.account, r.createdAt, now)
  {
    var y := Run(y0, acts).value;
    RunsAreSoundToo(y0, acts);
    ServedRuns(y0, acts);
    RevokedMeansDeniedIff(y0.s, Served(acts));
    assert AlwaysAnnounced(y0.s, Served(acts));
    assert Announced(y.s) && Accounted(y.s, y.s.rows[h]);
    KnownOrToCome(y, y.s.rows[h]);
  }

  // ------------------------------------------------------------------ consumers never get stuck

  lemma OneTokenPerId(rows: Rows, x: nat, z: nat, j: Token, k: Token)
    requires Apart(rows) && x in rows && z in rows && IsTokenOf(j, rows[x]) && IsTokenOf(k, rows[z]) && j.id == k.id
    ensures j == k
  {
    assert forall y :: y in rows && y != x ==> Ids(rows[x]) !! Ids(rows[y]);
    assert j.id in Ids(rows[x]) && j.id in Ids(rows[z]);
  }

  lemma NoticeIdsDistinct(s: State, n: Notice)
    requires Apart(s.rows) && Backed(s.rows, n)
    ensures DistinctIds(n.tokens)
  {
    hide Apart;
    forall j, k | j in n.tokens && k in n.tokens && j.id == k.id
      ensures j == k
    {
      var x :| x in s.rows && IsTokenOf(j, s.rows[x]) && s.rows[x].account == n.account
          && (n.family.None? ==> s.rows[x].createdAt >= n.cutoff);
      var z :| z in s.rows && IsTokenOf(k, s.rows[z]) && s.rows[z].account == n.account
          && (n.family.None? ==> s.rows[z].createdAt >= n.cutoff);
      OneTokenPerId(s.rows, x, z, j, k);
    }
  }

  /** Every notice of the feed passes the consumer's checks. */
  lemma FeedIsAcceptable(s: State, n: Notice)
    requires FeedOk(s) && Apart(s.rows) && n in s.feed
    ensures Acceptable(n)
  {
    assert NoticeOk(s, n);
    NoticeIdsDistinct(s, n);
  }

  /** Every page a poll can be answered with passes the consumer's checks: one entry that did not would keep
      it from ever getting further. */
  lemma EveryPageIsValid(s: State, checkpoint: nat, now: int, count: nat)
    requires Reachable(s) && Enabled(s, ReadFeed(now))
             && Position(Pruned(s.feed, now), checkpoint) + count <= |Pruned(s.feed, now)|
    ensures ValidPage(PageOf(Pruned(s.feed, now), checkpoint, count), checkpoint)
  {
    ReachableFeed(s);
    ReadFeedOk(s, now);
    var t := s.(feed := Pruned(s.feed, now));
    forall n | n in t.feed
      ensures Acceptable(n)
    {
      FeedIsAcceptable(t, n);
    }
    hide FeedOk, Acceptable, NoticeOk, Reachable;
    assert Increasing(t.feed) by { FeedIsIncreasing(t); }
    AcceptablePage(t.feed, checkpoint, count);
  }

  lemma FeedIsIncreasing(s: State)
    requires FeedOk(s)
    ensures Increasing(s.feed)
  {
  }

  /** A page is valid unless one of its entries is not acceptable: its numbers are in order. */
  lemma AcceptablePage(feed: seq<Notice>, since: nat, count: nat)
    requires Increasing(feed) && Position(feed, since) + count <= |feed|
    requires forall n :: n in PageOf(feed, since, count) ==> Acceptable(n)
    ensures ValidPage(PageOf(feed, since, count), since)
  {
    var page := PageOf(feed, since, count);
    PageIncreases(feed, since, count);
    forall i | 0 <= i < |page|
      ensures page[i].num > since
    {
      assert page[i] in feed && page[i] in page;
      PageHolds(feed, since, count, page[i]);
    }
  }
}
