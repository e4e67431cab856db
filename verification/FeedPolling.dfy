/** Polling as it runs: the identity provider prunes its feed and serves pages of it, and a consumer's
    registry applies them until it is told there is no more. */
module FeedPolling {
  import opened RefreshFamilies
  import opened FamilyFeed
  import opened FeedConsumers
  import opened StoreResults
  import Service = RefreshService
  import Pages = RevocationFeed

  /** The registry of revoked tokens, with the set it stands for. */
  class Registry {
    var revokedTokens: map<nat, int>
    var accountCutoffs: map<nat, int>
    ghost var known: set<Token>

    constructor ()
      ensures Valid() && known == {} && accountCutoffs == map[]
    {
      revokedTokens, accountCutoffs, known := map[], map[], {};
    }

    ghost predicate Valid()
      reads this
    {
      StandsFor(revokedTokens, known)
    }

    ghost function Seen(checkpoint: nat): Consumer
      reads this
    {
      Consumer(known, accountCutoffs, checkpoint)
    }

    method IsRevoked(id: nat, account: nat, issuedAt: int, now: int) returns (b: bool)
      requires Valid()
      ensures b == FeedConsumers.IsRevoked(Seen(0), id, account, issuedAt, now)
      ensures b <==> (id in revokedTokens && now < revokedTokens[id])
                     || (account in accountCutoffs && issuedAt < accountCutoffs[account])
    {
      if id in revokedTokens && now < revokedTokens[id] {
        assert Token(id, revokedTokens[id]) in known;
        return true;
      }
      return account in accountCutoffs && issuedAt < accountCutoffs[account];
    }

    /** A token's latest expiry is kept. */
    method Remember(k: Token, now: int)
      requires Valid() && 0 <= now
      modifies this`revokedTokens, this`known
      ensures Valid() && known == old(known) + Unexpired({k}, now)
    {
      if k.retainUntil > now {
        if k.retainUntil > (if k.id in revokedTokens then revokedTokens[k.id] else 0) {
          revokedTokens := revokedTokens[k.id := k.retainUntil];
        }
        known := known + {k};
      }
      assert known == old(known) + Unexpired({k}, now);
    }

    method Apply(n: Notice, now: int, ghost checkpoint: nat)
      requires Valid() && 0 <= now
      modifies this
      ensures Valid() && Seen(n.num) == Learn(old(Seen(checkpoint)), n, now)
    {
      var rest := n.tokens;
      while rest != {}
        invariant Valid() && rest <= n.tokens && known == old(known) + Unexpired(n.tokens - rest, now)
        invariant accountCutoffs == old(accountCutoffs)
        decreases |rest|
      {
        var k :| k in rest;
        Remember(k, now);
        rest := rest - {k};
        assert Unexpired(n.tokens - rest, now) == Unexpired(n.tokens - (rest + {k}), now) + Unexpired({k}, now);
      }
      assert n.tokens - rest == n.tokens;
      if n.cutoff > (if n.account in accountCutoffs then accountCutoffs[n.account] else 0) {
        accountCutoffs := accountCutoffs[n.account := n.cutoff];
      }
    }

    /** ApplyPage: nothing is applied unless every entry is valid; the new checkpoint is the last number. */
    method ApplyPage(page: seq<Notice>, now: int, checkpoint: nat) returns (ok: bool, last: nat)
      requires Valid() && 0 <= now
      modifies this
      ensures Valid() && (ok <==> ValidPage(page, checkpoint))
      ensures ok ==> Seen(last) == Absorb(old(Seen(checkpoint)), page, now)
      ensures !ok ==> last == checkpoint && known == old(known) && accountCutoffs == old(accountCutoffs)
      ensures ok <==> AllAccepted(page, checkpoint)
      ensures ok ==> Learnt(old(Seen(checkpoint)), page, now, Seen(last))
    {
      ValidPageMeans(page, checkpoint);
      AbsorbMeans(Seen(checkpoint), page, now);
      hide Learnt, AllAccepted;
      ok := Validate(page, checkpoint);
      if !ok {
        return false, checkpoint;
      }
      revokedTokens := map id | id in revokedTokens && revokedTokens[id] > now :: revokedTokens[id];
      known := Unexpired(known, now);
      last := checkpoint;
      ghost var before := Consumer(Unexpired(old(known), now), old(accountCutoffs), checkpoint);
      var i := 0;
      while i < |page|
        invariant 0 <= i <= |page| && Valid() && Seen(last) == LearnAll(before, page[..i], now)
      {
        assert page[..i + 1][..i] == page[..i];
        Apply(page[i], now, last);
        last := page[i].num;
        i := i + 1;
      }
      assert page[..i] == page;
    }
  }

  /** The map keeps each id's latest expiry. */
  predicate StandsFor(m: map<nat, int>, known: set<Token>) {
    && (forall id :: id in m ==> Token(id, m[id]) in known)
    && (forall k :: k in known ==> k.id in m && k.retainUntil <= m[k.id])
  }

  method Validate(page: seq<Notice>, checkpoint: nat) returns (ok: bool)
    ensures ok <==> ValidPage(page, checkpoint)
  {
    var previous := checkpoint;
    var i := 0;
    while i < |page|
      invariant 0 <= i <= |page| && ValidPage(page[..i], checkpoint) && previous == LastNum(page[..i], checkpoint)
    {
      if page[i].num <= previous || !Acceptable(page[i]) {
        NotValid(page, i, checkpoint);
        return false;
      }
      ValidGrows(page, i, checkpoint);
      previous := page[i].num;
      i := i + 1;
    }
    assert page[..i] == page;
    ok := true;
  }

  lemma ValidGrows(page: seq<Notice>, i: nat, checkpoint: nat)
    requires i < |page| && ValidPage(page[..i], checkpoint) && Acceptable(page[i])
             && page[i].num > LastNum(page[..i], checkpoint)
    ensures ValidPage(page[..i + 1], checkpoint) && LastNum(page[..i + 1], checkpoint) == page[i].num
  {
    var front := page[..i];
    assert page[..i + 1] == front + [page[i]];
    forall m | m in front
      ensures m.num < page[i].num
    {
      var j :| 0 <= j < i && front[j] == m;
      assert j < i - 1 ==> front[j].num < front[i - 1].num;
    }
    IncreasingAppended(front, page[i]);
    assert i > 0 ==> front[0].num > checkpoint && LastNum(front, checkpoint) == front[i - 1].num > checkpoint;
  }

  lemma NotValid(page: seq<Notice>, i: nat, checkpoint: nat)
    requires i < |page| && (page[i].num <= LastNum(page[..i], checkpoint) || !Acceptable(page[i]))
    ensures !ValidPage(page, checkpoint)
  {
    assert i > 0 ==> LastNum(page[..i], checkpoint) == page[i - 1].num;
  }

  // ------------------------------------------------------------------ polling to the end

  /** The feed as it is paged: `sign` is the signed and encoded form of a notice. */
  function Entries(feed: seq<Notice>, sign: Notice -> string): seq<Pages.Entry> {
    seq(|feed|, i requires 0 <= i < |feed| => Pages.Entry(feed[i].num, sign(feed[i])))
  }

  /** The numbers still to be given out. */
  function Ahead(feed: seq<Notice>, since: nat): set<nat> {
    set n | n in feed && n.num > since :: n.num
  }

  /** A notice ahead does not fit a page even alone, or is one the consumer will not accept. */
  ghost predicate Stuck(feed: seq<Notice>, since: nat, sign: Notice -> string) {
    exists n :: n in feed && n.num > since && (!Pages.FitsAlone(Pages.Entry(n.num, sign(n))) || !Acceptable(n))
  }

  /** Every notice is acceptable, and fits a page alone however much of it has expired. */
  ghost predicate Deliverable(feed: seq<Notice>, sign: Notice -> string) {
    forall n :: n in feed ==> Acceptable(n) && forall now :: Pages.FitsAlone(Pages.Entry(n.num, sign(Trimmed(n, now))))
  }

  lemma DeliverableIsNotStuck(feed: seq<Notice>, since: nat, sign: Notice -> string)
    requires Deliverable(feed, sign)
    ensures !Stuck(feed, since, sign)
  {
    forall n | n in feed
      ensures Acceptable(n) && Pages.FitsAlone(Pages.Entry(n.num, sign(n)))
    {
      assert Trimmed(n, n.revokedAt) == n;
    }
  }

  lemma PrunedIsDeliverable(feed: seq<Notice>, sign: Notice -> string, now: int)
    requires Deliverable(feed, sign)
    ensures Deliverable(Pruned(feed, now), sign)
  {
    forall n | n in Pruned(feed, now)
      ensures Acceptable(n) && forall later :: Pages.FitsAlone(Pages.Entry(n.num, sign(Trimmed(n, later))))
    {
      var m :| m in feed && n == Trimmed(m, now) && !Spent(m, now);
      forall later: int
        ensures Pages.FitsAlone(Pages.Entry(n.num, sign(Trimmed(n, later))))
      {
        assert Trimmed(n, later) == Trimmed(m, if later < now then now else later);
      }
    }
  }

  /** Every reachable state meets what the polling methods demand of the feed, which can be delivered if each of its
      notices fits a page. */
  lemma ReachableIsDeliverable(s: State, sign: Notice -> string)
    requires Reachable(s)
    ensures Service.Settled(s.feed)
    ensures (forall n, now :: n in s.feed ==> Pages.FitsAlone(Pages.Entry(n.num, sign(Trimmed(n, now))))) ==>
              Deliverable(s.feed, sign)
  {
    ReachableFeed(s);
    Service.ReachableIsSettled(s);
    hide FeedOk, Apart, Acceptable, Reachable;
    forall n | n in s.feed
      ensures Acceptable(n)
    {
      FeedIsAcceptable(s, n);
    }
  }

  /** What the store pages is what the protocol pages. */
  lemma PagesAgree(feed: seq<Notice>, sign: Notice -> string, since: nat)
    requires Increasing(feed)
    ensures Pages.After(Entries(feed, sign), since) == Entries(feed, sign)[Position(feed, since)..]
  {
    var entries := Entries(feed, sign);
    assert forall i :: 0 <= i < |feed| ==> entries[i].seqno == feed[i].num;
    var k := Pages.AfterIsSuffix(entries, since);
    var p := Position(feed, since);
    hide Pages.After, Position;
    assert k < |feed| ==> feed[k].num > since && p <= k;
    assert p < |feed| ==> feed[p].num > since && k <= p;
  }

  /** serveRevocations on the store: it prunes, then serves. */
  method ServeRevocations(store: Service.SessionStore, since: nat, limit: nat, now: int, sign: Notice -> string)
    returns (r: Pages.Response)
    requires Service.Settled(store.feed) && 1 <= limit <= Pages.MaxEntries
    modifies store`feed
    ensures store.feed == Pruned(old(store.feed), now) && Service.Settled(store.feed)
    ensures r.Page? ==>
              && Position(store.feed, since) + |r.entries| <= |store.feed|
              && r.entries == Entries(PageOf(store.feed, since, |r.entries|), sign)
              && (r.hasMore <==> Position(store.feed, since) + |r.entries| < |store.feed|)
              && (r.entries == [] ==> !r.hasMore)
    ensures r.TooLarge? ==> Stuck(store.feed, since, sign)
    ensures PrunesTo(old(store.feed), now, store.feed)
  {
    hide Pages.After, Pages.Encode, Position, Increasing, OnePerAccount, Pruned, Keeper, Compact;
    store.Prune(now);
    r := Pages.ServePage(Entries(store.feed, sign), since, limit);
    PagesAgree(store.feed, sign, since);
    if r.Page? {
      PrefixIsPage(store.feed, sign, since, r.entries);
    } else {
      FirstAhead(store.feed, sign, since);
    }
  }

  lemma PrefixIsPage(feed: seq<Notice>, sign: Notice -> string, since: nat, entries: seq<Pages.Entry>)
    requires entries <= Entries(feed, sign)[Position(feed, since)..]
    ensures Position(feed, since) + |entries| <= |feed| && entries == Entries(PageOf(feed, since, |entries|), sign)
  {
    hide Position;
  }

  lemma FirstAhead(feed: seq<Notice>, sign: Notice -> string, since: nat)
    requires Position(feed, since) < |feed|
    ensures !Pages.FitsAlone(Entries(feed, sign)[Position(feed, since)..][0]) ==> Stuck(feed, since, sign)
  {
    var n := feed[Position(feed, since)];
    assert n in feed && Entries(feed, sign)[Position(feed, since)..][0] == Pages.Entry(n.num, sign(n));
  }

  /** The numbers ahead are no more after pruning. */
  lemma PrunedAhead(feed: seq<Notice>, now: int, since: nat)
    ensures Ahead(Pruned(feed, now), since) <= Ahead(feed, since)
  {
    forall n | n in Pruned(feed, now) && n.num > since
      ensures n.num in Ahead(feed, since)
    {
      var m :| m in feed && n == Trimmed(m, now);
    }
  }

  /** A page that is not empty leaves fewer ahead, and one to the end none. */
  lemma PageLessAhead(feed: seq<Notice>, since: nat, count: nat)
    requires Increasing(feed) && Position(feed, since) + count <= |feed|
    ensures
      var last := LastNum(PageOf(feed, since, count), since);
      && since <= last && (count == 0 ==> last == since)
      && (count > 0 ==> Ahead(feed, last) < Ahead(feed, since))
      && (Position(feed, since) + count == |feed| ==> Ahead(feed, last) == {})
  {
    PageEnds(feed, since, count);
    if count > 0 {
      PageAdvances(feed, since, count);
    }
    if Position(feed, since) + count == |feed| {
      PageToTheEnd(feed, since, count);
    }
    hide *;
  }

  lemma PageAdvances(feed: seq<Notice>, since: nat, count: nat)
    requires Increasing(feed) && Position(feed, since) + count <= |feed| && count > 0
    ensures Ahead(feed, LastNum(PageOf(feed, since, count), since)) < Ahead(feed, since)
  {
    PageEnds(feed, since, count);
    var i := Position(feed, since) + count - 1;
    hide *;
    LastIsAhead(feed, since, LastNum(PageOf(feed, since, count), since), i);
  }

  lemma PageToTheEnd(feed: seq<Notice>, since: nat, count: nat)
    requires Increasing(feed) && Position(feed, since) + count == |feed|
    ensures Ahead(feed, LastNum(PageOf(feed, since, count), since)) == {}
  {
    PageEnds(feed, since, count);
    var p := Position(feed, since);
    assert p < |feed| ==> p + count - 1 == |feed| - 1;
    hide *;
    NoneAhead(feed, LastNum(PageOf(feed, since, count), since), p);
  }

  lemma PageEnds(feed: seq<Notice>, since: nat, count: nat)
    requires Increasing(feed) && Position(feed, since) + count <= |feed|
    ensures
      var p, last := Position(feed, since), LastNum(PageOf(feed, since, count), since);
      && since <= last && (count == 0 ==> last == since)
      && (count > 0 ==> last > since && feed[p + count - 1].num == last)
      && (forall i :: 0 <= i < p ==> feed[i].num <= last)
  {
    var p := Position(feed, since);
    if count > 0 {
      assert PageOf(feed, since, count)[count - 1] == feed[p + count - 1];
      assert count > 1 ==> feed[p].num < feed[p + count - 1].num;
    }
  }

  lemma LastIsAhead(feed: seq<Notice>, since: nat, last: nat, i: nat)
    requires i < |feed| && feed[i].num == last > since
    ensures Ahead(feed, last) < Ahead(feed, since)
  {
    assert feed[i] in feed && last in Ahead(feed, since) && last !in Ahead(feed, last);
  }

  lemma NoneAhead(feed: seq<Notice>, last: nat, p: nat)
    requires Increasing(feed) && p <= |feed| && (forall i :: 0 <= i < p ==> feed[i].num <= last)
    requires p < |feed| ==> feed[|feed| - 1].num == last
    ensures Ahead(feed, last) == {}
  {
    forall n | n in feed
      ensures n.num <= last
    {
      var i :| 0 <= i < |feed| && feed[i] == n;
      assert i < |feed| - 1 ==> feed[i].num < feed[|feed| - 1].num;
    }
  }

  /** Every notice of the feed numbered since `start` up to the checkpoint has been given, and is known. */
  ghost predicate Given(feed: seq<Notice>, start: nat, c: Consumer, received: seq<nat>, now: int) {
    forall n :: n in feed && start < n.num <= c.checkpoint ==>
      n.num in received && ((n.family.None? ==> n.cutoff > 0) && 0 <= n.cutoff ==> Absorbed(c, n, now))
  }

  lemma GivenAtFirst(feed: seq<Notice>, c: Consumer, received: seq<nat>, now: int)
    ensures Given(feed, c.checkpoint, c, received, now)
  {
  }

  lemma AheadOrPassed(feed: seq<Notice>, since: nat)
    ensures forall n :: n in feed ==> n.num in Ahead(feed, since) || n.num <= since
  {
  }

  lemma GivenAfterPruning(feed: seq<Notice>, start: nat, c: Consumer, received: seq<nat>, now: int)
    requires Given(feed, start, c, received, now)
    ensures Given(Pruned(feed, now), start, c, received, now)
  {
    forall n | n in Pruned(feed, now) && start < n.num <= c.checkpoint
      ensures n.num in received && ((n.family.None? ==> n.cutoff > 0) && 0 <= n.cutoff ==> Absorbed(c, n, now))
    {
      var m :| m in feed && n == Trimmed(m, now);
      assert Unexpired(n.tokens, now) == Unexpired(m.tokens, now);
    }
  }

  lemma GivenAfterPage(feed: seq<Notice>, start: nat, c: Consumer, received: seq<nat>, now: int, count: nat, later: int)
    requires Given(feed, start, c, received, now) && Increasing(feed) && now <= later && start <= c.checkpoint
    requires Position(feed, c.checkpoint) + count <= |feed|
    ensures
      var page := PageOf(feed, c.checkpoint, count);
      Given(feed, start, Absorb(c, page, now), received + NumsInOrder(page), later)
  {
    var page := PageOf(feed, c.checkpoint, count);
    var c0, c' := c.(known := Unexpired(c.known, now)), Absorb(c, page, now);
    LearnAllLearns(c0, page, now);
    forall n | n in feed && start < n.num <= c'.checkpoint
      ensures n.num in received + NumsInOrder(page)
              && ((n.family.None? ==> n.cutoff > 0) && 0 <= n.cutoff ==> Absorbed(c', n, later))
    {
      PageHolds(feed, c.checkpoint, count, n);
      NumbersOf(page, n.num);
      if (n.family.None? ==> n.cutoff > 0) && 0 <= n.cutoff {
        if n.num <= c.checkpoint {
          AbsorbedStays(c, c', n, now, now);
        }
        AbsorbedStays(c', c', n, now, later);
      }
    }
  }

  lemma AbsorbMoves(c: Consumer, page: seq<Notice>, now: int)
    ensures Absorb(c, page, now).checkpoint == LastNum(page, c.checkpoint)
  {
    LearnAllLearns(c.(known := Unexpired(c.known, now)), page, now);
  }

  lemma FewerAhead(feed: seq<Notice>, feed': seq<Notice>, since: nat, last: nat, more: bool)
    requires Ahead(feed', since) <= Ahead(feed, since) && (last == since || Ahead(feed', last) < Ahead(feed', since))
    requires more ==> Ahead(feed', last) < Ahead(feed', since)
    ensures |Ahead(feed', last)| <= |Ahead(feed, since)| && (more ==> |Ahead(feed', last)| < |Ahead(feed, since)|)
  {
    SubsetIsSmaller(Ahead(feed', last), Ahead(feed, since));
    if more {
      ProperSubsetIsSmaller(Ahead(feed', last), Ahead(feed, since));
    }
  }

  lemma ProperSubsetIsSmaller<T>(a: set<T>, b: set<T>)
    requires a < b
    ensures |a| < |b|
  {
    var x :| x in b && x !in a;
    SubsetIsSmaller(a, b - {x});
  }

  /** A page taken from the pruned feed: everything up to the new checkpoint has been given, and less is ahead. */
  lemma PageTaken(feed: seq<Notice>, pruned: seq<Notice>, start: nat, c: Consumer, c': Consumer, received: seq<nat>,
                  count: nat, more: bool, now: int, later: int)
    requires pruned == Pruned(feed, now) && Increasing(pruned) && now <= later && start <= c.checkpoint
    requires Given(feed, start, c, received, now) && Position(pruned, c.checkpoint) + count <= |pruned|
    requires c' == Absorb(c, PageOf(pruned, c.checkpoint, count), now)
    requires (more <==> Position(pruned, c.checkpoint) + count < |pruned|) && (more ==> count > 0)
    ensures Given(pruned, start, c', received + NumsInOrder(PageOf(pruned, c.checkpoint, count)), later)
    ensures |Ahead(pruned, c'.checkpoint)| <= |Ahead(feed, c.checkpoint)|
    ensures more ==> |Ahead(pruned, c'.checkpoint)| < |Ahead(feed, c.checkpoint)|
    ensures !more ==> Ahead(pruned, c'.checkpoint) == {}
  {
    hide *;
    PrunedAhead(feed, now, c.checkpoint);
    GivenAfterPruning(feed, start, c, received, now);
    GivenAfterPage(pruned, start, c, received, now, count, later);
    PageLessAhead(pruned, c.checkpoint, count);
    AbsorbMoves(c, PageOf(pruned, c.checkpoint, count), now);
    FewerAhead(feed, pruned, c.checkpoint, c'.checkpoint, more);
  }

  class Poller {
    const store: Service.SessionStore
    const registry: Registry
    var checkpoint: nat
    ghost var received: seq<nat>

    constructor (store: Service.SessionStore, registry: Registry)
      ensures this.store == store && this.registry == registry && checkpoint == 0 && received == []
    {
      this.store, this.registry, checkpoint, received := store, registry, 0, [];
    }

    /** What was given is in order and behind the checkpoint. */
    ghost predicate Ordered()
      reads this
    {
      && (forall i, j :: 0 <= i < j < |received| ==> received[i] < received[j])
      && (forall k :: k in received ==> k <= checkpoint)
    }

    /** pollOnce: pages until there is no more, with the feed pruned anew before each. It always comes to an
        end, and succeeds unless it is stuck at a notice that cannot be served or will not be accepted, so always
        if the feed can be delivered. When it succeeds, nothing in the feed is beyond the checkpoint. In either
        case every notice up to the checkpoint that was beyond it before has been given, once and in order, and
        the registry knows all that it denies. */
    method PollOnce(limit: nat, clock: nat -> int, sign: Notice -> string) returns (ok: bool, polls: nat)
      requires registry.Valid() && Service.Settled(store.feed) && Ordered() && 1 <= limit <= Pages.MaxEntries
      requires forall i, j :: 0 <= i <= j ==> 0 <= clock(i) <= clock(j)
      modifies this`checkpoint, this`received, registry, store`feed
      ensures registry.Valid() && Service.Settled(store.feed) && Ordered()
      ensures old(checkpoint) <= checkpoint && old(received) <= received
      ensures ok ==> forall n :: n in store.feed ==> n.num <= checkpoint
      ensures !ok ==> Stuck(store.feed, checkpoint, sign)
      ensures Deliverable(old(store.feed), sign) ==> ok
      ensures Given(store.feed, old(checkpoint), registry.Seen(checkpoint), received, clock(polls))
    {
      hide Position, PageOf, Increasing, OnePerAccount, Pruned, Ahead, Given, Absorb, NumsInOrder, LastNum, StandsFor;
      hide Learnt, AllAccepted, PrunesTo, CutoffsLearnt;
      hide Absorbed, Deliverable, Stuck;
      polls := 0;
      ok := true;
      var more := true;
      GivenAtFirst(store.feed, registry.Seen(checkpoint), received, clock(0));
      while more
        invariant registry.Valid() && Service.Settled(store.feed) && Ordered()
        invariant old(checkpoint) <= checkpoint && old(received) <= received
        invariant Given(store.feed, old(checkpoint), registry.Seen(checkpoint), received, clock(polls))
        invariant ok && (!more ==> Ahead(store.feed, checkpoint) == {})
        invariant Deliverable(old(store.feed), sign) ==> Deliverable(store.feed, sign)
        decreases |Ahead(store.feed, checkpoint)|, more
      {
        ghost var feed, since, seen, before := store.feed, checkpoint, registry.Seen(checkpoint), received;
        ok, more := PollPage(limit, clock(polls), sign);
        if Deliverable(feed, sign) {
          PrunedIsDeliverable(feed, sign, clock(polls));
          DeliverableIsNotStuck(store.feed, since, sign);
        }
        if !ok {
          GivenAfterPruning(feed, old(checkpoint), seen, received, clock(polls));
          break;
        }
        ghost var count :| Position(store.feed, since) + count <= |store.feed|
                           && registry.Seen(checkpoint) == Absorb(seen, PageOf(store.feed, since, count), clock(polls))
                           && received == before + NumsInOrder(PageOf(store.feed, since, count))
                           && (more <==> Position(store.feed, since) + count < |store.feed|)
                           && (more ==> count > 0);
        PageTaken(feed, store.feed, old(checkpoint), seen, registry.Seen(checkpoint), before, count, more,
                  clock(polls), clock(polls + 1));
        polls := polls + 1;
      }
      AheadOrPassed(store.feed, checkpoint);
    }

    /** One page of it. */
    method PollPage(limit: nat, now: int, sign: Notice -> string) returns (ok: bool, more: bool)
      requires registry.Valid() && Service.Settled(store.feed) && Ordered() && 1 <= limit <= Pages.MaxEntries
               && 0 <= now
      modifies this`checkpoint, this`received, registry, store`feed
      ensures registry.Valid() && Service.Settled(store.feed) && Ordered()
      ensures store.feed == Pruned(old(store.feed), now)
      ensures old(checkpoint) <= checkpoint && old(received) <= received
      ensures !ok ==> checkpoint == old(checkpoint) && received == old(received)
      ensures !ok ==> registry.Seen(checkpoint) == old(registry.Seen(checkpoint)) && Stuck(store.feed, checkpoint, sign)
      ensures ok ==> exists count :: Position(store.feed, old(checkpoint)) + count <= |store.feed|
                                     && registry.Seen(checkpoint) ==
                                        Absorb(old(registry.Seen(checkpoint)),
                                            PageOf(store.feed, old(checkpoint), count), now)
                                     && received == old(received)
                                           + NumsInOrder(PageOf(store.feed, old(checkpoint), count))
                                     && (more <==> Position(store.feed, old(checkpoint)) + count < |store.feed|)
                                     && (more ==> count > 0)
    {
      hide Position, PageOf, Increasing, OnePerAccount, Pruned, Entries, LearnAll, ValidPage, LastNum, Stuck;
      hide Learnt, AllAccepted, PrunesTo;
      var r := ServeRevocations(store, checkpoint, limit, now, sign);
      if r.TooLarge? {
        return false, false;
      }
      var page := PageOf(store.feed, checkpoint, |r.entries|);
      var applied, last := registry.ApplyPage(page, now, checkpoint);
      if !applied {
        InvalidPageIsStuck(store.feed, checkpoint, |r.entries|, sign);
        return false, false;
      }
      PageIsNext(old(registry.Seen(checkpoint)), store.feed, received, |r.entries|, now);
      received := received + NumsInOrder(page);
      checkpoint := last;
      assert registry.Seen(checkpoint) ==
             Absorb(old(registry.Seen(checkpoint)), PageOf(store.feed, old(checkpoint), |r.entries|), now);
      return true, r.hasMore;
    }
  }

  lemma InvalidPageIsStuck(feed: seq<Notice>, since: nat, count: nat, sign: Notice -> string)
    requires Increasing(feed) && Position(feed, since) + count <= |feed|
             && !ValidPage(PageOf(feed, since, count), since)
    ensures Stuck(feed, since, sign)
  {
    var page := PageOf(feed, since, count);
    if forall n :: n in page ==> Acceptable(n) {
      AcceptablePage(feed, since, count);
    } else {
      var n :| n in page && !Acceptable(n);
      assert n in feed;
      PageHolds(feed, since, count, n);
    }
  }

  lemma PageIsNext(c: Consumer, feed: seq<Notice>, received: seq<nat>, count: nat, now: int)
    requires Increasing(feed) && Position(feed, c.checkpoint) + count <= |feed|
    requires forall i, j :: 0 <= i < j < |received| ==> received[i] < received[j]
    requires forall k :: k in received ==> k <= c.checkpoint
    ensures
      var page := PageOf(feed, c.checkpoint, count);
      var last, more := Absorb(c, page, now).checkpoint, received + NumsInOrder(page);
      && c.checkpoint <= last && (forall i, j :: 0 <= i < j < |more| ==> more[i] < more[j])
            && (forall k :: k in more ==> k <= last)
  {
    var page := PageOf(feed, c.checkpoint, count);
    LearnAllLearns(c.(known := Unexpired(c.known, now)), page, now);
    PageIncreases(feed, c.checkpoint, count);
    PageLessAhead(feed, c.checkpoint, count);
    forall k | k in NumsInOrder(page)
      ensures c.checkpoint < k <= LastNum(page, c.checkpoint)
    {
      NumbersOf(page, k);
      PageNumber(feed, c.checkpoint, count, k);
    }
    hide Position, PageOf, Increasing;
    ReceivedGrows(received, NumsInOrder(page), c.checkpoint);
  }
}
