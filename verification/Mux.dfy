/** The multiplexer object itself: every method is one critical section of the Go code, with the loops
    it runs while holding the mutex. Each is tied to the transition function whose consequences are
    proved in ReplayLog, TurnSerializer and Permissions. */
module Mux {
  import opened Codec
  import L = ReplayLog
  import T = TurnSerializer
  import P = Permissions

  /** One connected client: its cursor, its one-slot notify channel, its `done` channel. */
  class DsClient {
    const id: string
    var cursor: nat
    var notify: bool
    var hasSession: bool
    var done: bool      // closed

    constructor (id: string, cursor: nat)
      ensures this.id == id && !done && Conn() == L.Conn(false, cursor, false)
    {
      this.id := id;
      this.cursor := cursor;
      notify := false;
      hasSession := false;
      done := false;
    }

    function Conn(): L.Conn
      reads this
    {
      L.Conn(hasSession, cursor, notify)
    }

    /** wake */
    method Wake()
      modifies this`notify
      ensures Conn() == L.Wake(old(Conn()))
    {
      notify := true;
    }

    /** close(c.done): closing it twice would panic. */
    method CloseDone()
      requires !done
      modifies this`done
      ensures done
    {
      done := true;
    }
  }

  /** A pending permission as the object stores it. */
  datatype PendingPerm = PendingPerm(upstreamId: int, options: seq<P.Choice>)

  function Erase(table: map<string, P.Pending>): map<string, PendingPerm> {
    map k | k in table :: PendingPerm(table[k].upstreamId, table[k].options)
  }

  /** The items of a stretch that are broadcast or targeted at `id`. */
  function Meant(items: seq<L.Item>, id: string): (r: seq<L.Item>)
    ensures forall it :: it in r <==> it in items && (it.target == "" || it.target == id)
  {
    if items == [] then []
    else
      var it := items[|items| - 1];
      assert items == items[..|items| - 1] + [it];
      Meant(items[..|items| - 1], id) + if it.target != "" && it.target != id then [] else [it]
  }

  lemma {:induction false} MeantIsVisible(items: seq<L.Item>, id: string)
    ensures Meant(items, id) == L.Visible(items, id)
  {
    if items != [] {
      MeantIsVisible(items[..|items| - 1], id);
    }
  }

  class Mux {
    var log: seq<L.Item>
    var base: nat
    var last: nat
    var maxLog: nat
    var clients: map<string, DsClient>
    var stopped: bool
    var clientSeq: nat

    var busy: bool
    var queue: seq<T.Prompt>
    var inflightId: nat
    var inflightClient: string
    var inflightReq: Option<RawId>
    var inflightHasClient: bool
    var nextId: nat
    var waiters: set<nat>

    var pending: map<string, PendingPerm>

    /** Clients are filed under their own id, and none in the table has been closed. */
    ghost predicate Valid()
      reads this, clients.Values
    {
      forall id | id in clients :: clients[id].id == id && !clients[id].done
    }

    function LogView(): L.Log
      reads this
    {
      L.Log(log, base, last, maxLog)
    }

    function Serializer(): T.Serializer
      reads this
    {
      T.Serializer(busy, queue, inflightId, inflightClient, inflightReq, inflightHasClient, nextId, waiters)
    }

    constructor (maxLog: nat)
      ensures Valid() && LogView() == L.Init(maxLog).log && Serializer() == T.Init().z
      ensures clients == map[] && pending == map[] && clientSeq == 0 && !stopped
    {
      log, base, last, this.maxLog := [], 0, 0, maxLog;
      clients, stopped, clientSeq := map[], false, 0;
      busy, queue, inflightId, inflightClient, inflightReq, inflightHasClient := false, [], 0, "", None, false;
      nextId, waiters, pending := 0, {}, map[];
    }

    // ---------------------------------------------------------------- replay log

    /** appendItem: number, append, trim, and wake every connected client. */
    method AppendItem(target: string, frame: L.Frame)
      requires Valid()
      modifies this`log, this`base, this`last, clients.Values
      ensures Valid()
      ensures LogView() == L.Append(old(LogView()), target, frame)
      ensures last == old(last) + 1 && |log| == if |old(log)| < maxLog then |old(log)| + 1 else maxLog
      ensures base + |log| == old(base) + |old(log)| + 1
      ensures log == (old(log) + [L.Item(last, frame, target)])[|old(log)| + 1 - |log|..]
      ensures forall id | id in clients :: clients[id].Conn() == L.Wake(old(clients[id].Conn()))
      ensures forall id | id in clients :: clients[id].notify && clients[id].cursor == old(clients[id].cursor)
                                           && clients[id].hasSession == old(clients[id].hasSession)
    {
      last := last + 1;
      log := log + [L.Item(last, frame, target)];
      if |log| > maxLog {
        var over := |log| - maxLog;
        base := base + over;
        log := log[over..];
      } else {
        assert log == log[0..];
      }
      WakeAll();
    }

    /** The loop of appendItem over the client table. */
    method WakeAll()
      requires Valid()
      modifies clients.Values
      ensures Valid() && forall id | id in clients :: clients[id].Conn() == L.Wake(old(clients[id].Conn()))
    {
      var rest := clients.Keys;
      while rest != {}
        invariant rest <= clients.Keys && Valid()
        invariant forall id | id in clients ::
            clients[id].Conn() == if id in rest then old(clients[id].Conn()) else L.Wake(old(clients[id].Conn()))
        decreases rest
      {
        var id :| id in rest;
        clients[id].Wake();
        rest := rest - {id};
      }
    }

    /** The locked part of clientReplayLoop for client c, connected or already detached. */
    method TakeBatch(c: DsClient) returns (batch: seq<L.Item>)
      requires L.InBounds(LogView(), c.Conn())
      modifies c`cursor
      ensures (c.Conn(), batch) == L.CatchUp(LogView(), old(c.Conn()), c.id)
      ensures !c.hasSession ==> batch == [] && c.cursor == old(c.cursor)
      ensures c.hasSession ==>
                var from := if old(c.cursor) < base then base else old(c.cursor);
                && c.cursor == (if from < last then last else from)
                && batch == if from < last then Meant(log[from - base..], c.id) else []
    {
      hide L.Visible, Meant;
      batch := [];
      if !c.hasSession {
        return;
      }
      if c.cursor < base {
        c.cursor := base;
      }
      if c.cursor < last {
        var from := c.cursor - base;
        batch := Collect(log[from..], c.id);
        MeantIsVisible(log[from..], c.id);
        c.cursor := last;
      }
    }

    /** Its loop over the unseen items. */
    static method Collect(items: seq<L.Item>, id: string) returns (batch: seq<L.Item>)
      ensures batch == Meant(items, id)
    {
      batch := [];
      for k := 0 to |items|
        invariant batch == Meant(items[..k], id)
      {
        assert items[..k + 1][..k] == items[..k] && items[..k + 1][k] == items[k];
        if items[k].target == "" || items[k].target == id {
          batch := batch + [items[k]];
        }
      }
      assert items[..|items|] == items;
    }

    /** handleClient's registration. */
    method Register() returns (c: DsClient)
      requires Valid()
      modifies this`clients, this`clientSeq
      ensures Valid() && fresh(c) && clientSeq == old(clientSeq) + 1
      ensures c.id == L.ClientId(clientSeq) && clients == old(clients)[c.id := c]
      ensures c.Conn() == L.NewClient(LogView()).conn
      ensures c.cursor == base && !c.hasSession && !c.notify && !c.done && c.id == "c" + Itoa(clientSeq)
    {
      clientSeq := clientSeq + 1;
      c := new DsClient(L.ClientId(clientSeq), base);
      clients := clients[c.id := c];
    }

    /** handleClient's deferred exit: only a client still in the table is closed, so never twice. */
    method Detach(c: DsClient)
      requires Valid() && ((c.id in clients && clients[c.id] == c) || c.done)
      modifies this`clients, c`done
      ensures Valid() && c.done
      ensures clients == if c.id in old(clients) && old(clients)[c.id] == c then old(clients) - {c.id} else old(clients)
      ensures old(c.done) ==> clients == old(clients)
    {
      if c.id in clients && clients[c.id] == c {
        clients := clients - {c.id};
        c.CloseDone();
      }
    }

    /** Stop: close every client once, forget clients and pending permissions; a second call does nothing. */
    method Stop()
      requires Valid()
      modifies this`stopped, this`clients, this`pending, clients.Values
      ensures Valid() && stopped
      ensures old(stopped) ==> clients == old(clients) && pending == old(pending)
                               && forall id | id in clients :: unchanged(clients[id])
      ensures !old(stopped) ==> clients == map[] && pending == map[]
                                && forall id | id in old(clients) :: old(clients)[id].done
                                                                     && old(clients)[id].Conn() ==
                                                                           old(clients[id].Conn())
    {
      if stopped {
        return;
      }
      stopped := true;
      var rest := clients.Keys;
      while rest != {}
        invariant rest <= clients.Keys && clients == old(clients) && stopped
        invariant forall id | id in clients :: clients[id].id == id && (clients[id].done <==> id !in rest)
                                               && clients[id].Conn() == old(clients[id].Conn())
        decreases rest
      {
        var id :| id in rest;
        clients[id].CloseDone();
        rest := rest - {id};
      }
      clients := map[];
      pending := map[];
    }

    // ---------------------------------------------------------------- prompt serializer

    /** fromClientPrompt's locked part. */
    method Submit(p: T.Prompt) returns (verdict: T.Verdict)
      modifies this`busy, this`queue
      ensures (Serializer(), verdict) == T.Submit(old(Serializer()), p)
      ensures verdict.SendNow? <==> !old(busy)
      ensures verdict.Enqueued? <==> old(busy) && |old(queue)| < 50
      ensures busy && queue == if verdict.Enqueued? then old(queue) + [p] else old(queue)
    {
      if !busy {
        busy := true;
        return T.SendNow;
      }
      if |queue| < T.MaxQueued {
        queue := queue + [p];
        return T.Enqueued;
      }
      return T.Refused;
    }

    /** sendPrompt's locked part. */
    method Launch(p: T.Prompt) returns (id: nat)
      modifies this`nextId, this`inflightId, this`inflightClient, this`inflightReq, this`inflightHasClient
      ensures Serializer() == T.Launch(old(Serializer()), p) && id == inflightId
      ensures id == nextId == old(nextId) + 1 && inflightClient == p.client && inflightReq == Some(p.req)
      ensures inflightHasClient
    {
      nextId := nextId + 1;
      id := nextId;
      inflightId, inflightClient, inflightReq, inflightHasClient := id, p.client, Some(p.req), true;
    }

    /** The id allocation of call (which waits) and forwardSetMode (which does not). */
    method Allocate(waits: bool) returns (id: nat)
      modifies this`nextId, this`waiters
      ensures Serializer() == T.Allocate(old(Serializer()), waits)
      ensures id == nextId == old(nextId) + 1 && waiters == if waits then old(waiters) + {id} else old(waiters)
    {
      nextId := nextId + 1;
      id := nextId;
      if waits {
        waiters := waiters + {id};
      }
    }

    /** readLoop's look-up of a reply's id. */
    method Classify(id: nat) returns (r: T.Class)
      ensures r == T.Classify(Serializer(), id)
      ensures r.ForWaiter? <==> id in waiters
      ensures r.EndsTurn? <==> id !in waiters && inflightId != 0 && id == inflightId
    {
      var isWaiter := id in waiters;
      var inflight := inflightId != 0 && id == inflightId;
      r := if isWaiter then T.ForWaiter else if inflight then T.EndsTurn else T.Ignored;
    }

    /** handleTurnEnd's locked part: whom to answer, if anyone, and what to launch next. */
    method EndTurn() returns (client: string, req: Option<RawId>, answer: bool, next: Option<T.Prompt>)
      modifies this`busy, this`queue, this`inflightId, this`inflightClient, this`inflightReq, this`inflightHasClient
      ensures (Serializer(), next) == T.EndTurn(old(Serializer()))
      ensures inflightId == 0 && inflightClient == "" && inflightReq == None && !inflightHasClient
      ensures busy <==> old(queue) != []
      ensures old(queue) == [] ==> next == None && queue == []
      ensures old(queue) != [] ==> next == Some(old(queue)[0]) && queue == old(queue)[1..]
      ensures client == old(inflightClient) && req == old(inflightReq)
      ensures answer <==> old(inflightHasClient) && client in clients
    {
      client, req, answer := inflightClient, inflightReq, inflightHasClient;
      busy, inflightId, inflightClient, inflightReq, inflightHasClient := false, 0, "", None, false;
      next := None;
      if |queue| > 0 {
        next := Some(queue[0]);
        queue := queue[1..];
        busy := true;
      }
      answer := answer && client in clients;
    }

    // ---------------------------------------------------------------- permissions

    /** onPermissionRequest's locked part. */
    method RecordPermission(upstreamId: int, options: seq<P.Choice>)
      modifies this`pending
      ensures pending == if stopped then old(pending)
                         else old(pending)[Itoa(upstreamId) := PendingPerm(upstreamId, options)]
      ensures forall s: P.State | s.stopped == stopped && !stopped && Erase(s.pending) == old(pending) ::
                Erase(P.Record(s, upstreamId, options).pending) == pending
    {
      if stopped {
        return;
      }
      pending := pending[Itoa(upstreamId) := PendingPerm(upstreamId, options)];
    }

    /** resolvePermission's locked part: the reply to send, or None when someone was first. */
    method ResolvePermission(key: string, optionId: string) returns (reply: Option<(int, string)>)
      modifies this`pending
      ensures pending == old(pending) - {key}
      ensures reply.Some? <==> key in old(pending)
      ensures key in old(pending) ==>
                && reply.value.0 == old(pending)[key].upstreamId
                && (optionId != "" ==> reply.value.1 == optionId)
                && (optionId == "" ==> P.IsRejectChoice(old(pending)[key].options, reply.value.1))
      ensures forall table: map<string, P.Pending> | Erase(table) == old(pending) ::
                var (table', r) := P.Resolve(table, key, optionId);
                && Erase(table') == pending
                && reply == match r case None => None case Some(x) => Some((x.upstreamId, x.optionId))
    {
      if key !in pending {
        assert pending == pending - {key};
        return None;
      }
      var p := pending[key];
      pending := pending - {key};
      var choice := optionId;
      if choice == "" {
        choice := P.RejectOptionID(p.options);
      }
      forall table: map<string, P.Pending> | Erase(table) == old(pending)
        ensures Erase(P.Resolve(table, key, optionId).0) == pending
        ensures P.Resolve(table, key, optionId).1.Some?
                && P.Resolve(table, key, optionId).1.value.upstreamId == p.upstreamId
                && P.Resolve(table, key, optionId).1.value.optionId == choice
      {
        assert key in Erase(table) && Erase(table)[key] == PendingPerm(table[key].upstreamId, table[key].options);
        assert Erase(table - {key}) == Erase(table) - {key};
      }
      reply := Some((p.upstreamId, choice));
    }
  }
}
