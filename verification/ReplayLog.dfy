/** The multiplexer's replay log and its per-client replay goroutines.

    Every outbound conversation frame goes through one bounded, trimmed log; each client has a
    cursor into it and a one-slot notify channel. Each event below is one critical section (or one
    channel operation, or one socket write), so that every interleaving of the goroutines is a
    sequence of events. `history` records every item ever appended, trimmed or not. */
module ReplayLog {
  import opened Codec

  datatype StopReason = EndTurn | Refusal

  /** A decoded outbound frame: a session/update notification, or the result of a prompt. */
  datatype Frame = Update(body: string) | Result(req: RawId, stop: StopReason)

  /** One log entry; target "" is a broadcast. */
  datatype Item = Item(num: nat, frame: Frame, target: string)

  /** The shared log: `items[i].num == base + 1 + i`, `last` is the last assigned number. */
  datatype Log = Log(items: seq<Item>, base: nat, last: nat, maxLog: nat)

  /** The fields of a connected client that the mutex guards, and its notify channel. */
  datatype Conn = Conn(hasSession: bool, cursor: nat, notify: bool)

  predicate Matches(it: Item, id: string) {
    it.target == "" || it.target == id
  }

  /** The items of a stretch of the log that a client is shown, in order. */
  function Visible(items: seq<Item>, id: string): seq<Item> {
    if items == [] then []
    else
      var n := |items| - 1;
      Visible(items[..n], id) + if Matches(items[n], id) then [items[n]] else []
  }

  /** appendItem's update of the log: number the frame, append it, trim the oldest beyond maxLog. */
  function Append(log: Log, target: string, frame: Frame): Log {
    var items := log.items + [Item(log.last + 1, frame, target)];
    var over := if |items| > log.maxLog then |items| - log.maxLog else 0;
    Log(items[over..], log.base + over, log.last + 1, log.maxLog)
  }

  /** wake: fill the one-slot channel; a second token is dropped. */
  function Wake(c: Conn): Conn {
    c.(notify := true)
  }

  /** The slice `log[from:]` of the replay loop is within bounds. */
  predicate InBounds(log: Log, c: Conn) {
    var from := if c.cursor < log.base then log.base else c.cursor;
    from < log.last ==> from - log.base <= |log.items|
  }

  /** The locked part of the replay loop: skip what was trimmed, take the rest, advance. */
  function CatchUp(log: Log, c: Conn, id: string): (Conn, seq<Item>)
    requires InBounds(log, c)
  {
    if !c.hasSession then (c, [])
    else
      var from := if c.cursor < log.base then log.base else c.cursor;
      if from < log.last
      then (c.(cursor := log.last), Visible(log.items[from - log.base..], id))
      else (c.(cursor := from), [])
  }

  /** Where a client's replay goroutine stands. */
  datatype Phase =
    | AtSelect                     // blocked on done / notify
    | Running                      // about to take the mutex
    | Writing(batch: seq<Item>)    // writing a batch to the connection, outside the mutex
    | Exited

  /** A client, with its goroutines: `needsWake` is the read loop between setting hasSession and
      calling wake; `reading` says the read loop still runs. The last three fields are history:
      the cursor at registration, what the replay goroutine has written, and the numbers of the
      items it skipped because they had been trimmed. */
  datatype Client = Client(
    conn: Conn, registered: bool, doneCloses: nat, reading: bool, needsWake: bool, phase: Phase,
    start: nat, written: seq<Item>, skipped: set<nat>)

  datatype State = State(
    log: Log, clients: map<string, Client>, clientSeq: nat, stopped: bool, history: seq<Item>)

  datatype Event =
    | Connect
    | SetSession(id: string)
    | WakeSelf(id: string)
    | Detach(id: string)
    | Stop
    | AppendItem(target: string, frame: Frame)
    | TakeNotify(id: string)
    | SeeDone(id: string)
    | CatchUpStep(id: string)
    | WriteOne(id: string)
    | WriteFails(id: string)

  function Init(maxLog: nat): State {
    State(Log([], 0, 0, maxLog), map[], 0, false, [])
  }

  function ClientId(n: nat): string {
    "c" + Itoa(n)
  }

  predicate Enabled(s: State, e: Event) {
    match e
    case Connect => true
    case SetSession(id) => id in s.clients && s.clients[id].reading && !s.clients[id].needsWake
    case WakeSelf(id) => id in s.clients && s.clients[id].needsWake
    case Detach(id) => id in s.clients && s.clients[id].reading && !s.clients[id].needsWake
    case Stop => !s.stopped
    case AppendItem(_, _) => true
    case TakeNotify(id) => id in s.clients && s.clients[id].phase.AtSelect? && s.clients[id].conn.notify
    case SeeDone(id) => id in s.clients && s.clients[id].phase.AtSelect? && s.clients[id].doneCloses > 0
    case CatchUpStep(id) =>
      id in s.clients && InBounds(s.log, s.clients[id].conn)
      && (s.clients[id].phase.Running? || s.clients[id].phase == Writing([]))
    case WriteOne(id) =>
      id in s.clients && s.clients[id].phase.Writing? && s.clients[id].phase.batch != []
    case WriteFails(id) =>
      id in s.clients && s.clients[id].phase.Writing? && s.clients[id].phase.batch != []
  }

  function NewClient(log: Log): Client {
    Client(Conn(false, log.base, false), true, 0, true, false, AtSelect, log.base, [], {})
  }

  function Woken(c: Client): Client {
    if c.registered then c.(conn := Wake(c.conn)) else c
  }

  /** Leaving the client table closes `done`; a client already out of it is left alone. */
  function Unregister(c: Client): Client {
    if c.registered then c.(registered := false, doneCloses := c.doneCloses + 1) else c
  }

  function AfterCatchUp(log: Log, c: Client, id: string): Client
    requires InBounds(log, c.conn)
  {
    var (conn, batch) := CatchUp(log, c.conn, id);
    c.(conn := conn,
       phase := if batch == [] then AtSelect else Writing(batch),
       skipped := if c.conn.hasSession then c.skipped + Between(c.conn.cursor, log.base) else c.skipped)
  }

  /** The numbers in (lo, hi]. */
  function Between(lo: nat, hi: nat): (r: set<nat>)
    ensures forall n: nat :: n in r <==> lo < n <= hi
  {
    if hi <= lo then {} else Between(lo, hi - 1) + {hi}
  }

  function Next(s: State, e: Event): State
    requires Enabled(s, e)
  {
    match e
    case Connect =>
      s.(clients := s.clients[ClientId(s.clientSeq + 1) := NewClient(s.log)], clientSeq := s.clientSeq + 1)
    case SetSession(id) =>
      s.(clients := s.clients[id := s.clients[id].(conn := s.clients[id].conn.(hasSession := true), needsWake := true)])
    case WakeSelf(id) =>
      s.(clients := s.clients[id := s.clients[id].(conn := Wake(s.clients[id].conn), needsWake := false)])
    case Detach(id) =>
      s.(clients := s.clients[id := Unregister(s.clients[id]).(reading := false)])
    case Stop =>
      s.(clients := map id | id in s.clients :: Unregister(s.clients[id]), stopped := true)
    case AppendItem(target, frame) =>
      s.(log := Append(s.log, target, frame),
         clients := map id | id in s.clients :: Woken(s.clients[id]),
         history := s.history + [Item(s.log.last + 1, frame, target)])
    case TakeNotify(id) =>
      s.(clients := s.clients[id := s.clients[id].(conn := s.clients[id].conn.(notify := false), phase := Running)])
    case SeeDone(id) =>
      s.(clients := s.clients[id := s.clients[id].(phase := Exited)])
    case CatchUpStep(id) =>
      s.(clients := s.clients[id := AfterCatchUp(s.log, s.clients[id], id)])
    case WriteOne(id) =>
      var c := s.clients[id];
      s.(clients := s.clients[id :=
          c.(phase := Writing(c.phase.batch[1..]), written := c.written + [c.phase.batch[0]])])
    case WriteFails(id) =>
      s.(clients := s.clients[id := s.clients[id].(phase := Exited)])
  }

  /** The state after a sequence of events, or None when some event was not possible. */
  function Exec(s: State, es: seq<Event>): Option<State> {
    if es == [] then Some(s)
    else
      match Exec(s, es[..|es| - 1])
      case None => None
      case Some(m) => if Enabled(m, es[|es| - 1]) then Some(Next(m, es[|es| - 1])) else None
  }

  // ------------------------------------------------------------------ what a client should see

  /** The reference: of the items numbered in (lo, hi], those meant for `id`, minus `skipped`. */
  function Shown(history: seq<Item>, id: string, lo: nat, hi: nat, skipped: set<nat>): seq<Item>
    requires hi <= |history|
  {
    if hi <= lo then []
    else
      Shown(history, id, lo, hi - 1, skipped)
      + if Matches(history[hi - 1], id) && hi !in skipped then [history[hi - 1]] else []
  }

  predicate Numbered(history: seq<Item>) {
    forall i | 0 <= i < |history| :: history[i].num == i + 1
  }

  predicate Increasing(items: seq<Item>) {
    forall i, j | 0 <= i < j < |items| :: items[i].num < items[j].num
  }

  /** Exactly the right items ... */
  lemma {:induction false} ShownExact(history: seq<Item>, id: string, lo: nat, hi: nat, skipped: set<nat>)
    requires Numbered(history) && hi <= |history|
    ensures forall it :: it in Shown(history, id, lo, hi, skipped) <==>
                         lo < it.num <= hi && it.num !in skipped && it == history[it.num - 1]
                         && (it.target == "" || it.target == id)
  {
    if hi > lo {
      ShownExact(history, id, lo, hi - 1, skipped);
      var last := history[hi - 1];
      assert last.num == hi;
      assert Shown(history, id, lo, hi, skipped)
          == Shown(history, id, lo, hi - 1, skipped) + if Matches(last, id) && hi !in skipped then [last] else [];
      hide Shown, Numbered;
    }
  }

  /** ... each once, in order: with ShownExact, membership and order determine Shown. */
  lemma {:induction false} ShownIncreasing(history: seq<Item>, id: string, lo: nat, hi: nat, skipped: set<nat>)
    requires Numbered(history) && hi <= |history|
    ensures Increasing(Shown(history, id, lo, hi, skipped))
    ensures forall it <- Shown(history, id, lo, hi, skipped) :: it.num <= hi
  {
    if hi > lo {
      ShownIncreasing(history, id, lo, hi - 1, skipped);
      IncreasingGrows(Shown(history, id, lo, hi - 1, skipped), history[hi - 1]);
    }
  }

  lemma IncreasingGrows(items: seq<Item>, it: Item)
    requires Increasing(items) && forall o <- items :: o.num < it.num
    ensures Increasing(items + [it])
  {
    assert forall i | 0 <= i < |items| :: items[i] in items;
  }

  lemma {:induction false} ShownGrows(history: seq<Item>, more: seq<Item>, id: string, lo: nat, hi: nat,
                                skipped: set<nat>)
    requires hi <= |history|
    ensures Shown(history + more, id, lo, hi, skipped) == Shown(history, id, lo, hi, skipped)
  {
    if hi > lo {
      ShownGrows(history, more, id, lo, hi - 1, skipped);
    }
  }

  /** Skipping (hi, top] leaves the part up to hi as it was and adds nothing after it. */
  lemma {:induction false} ShownSkips(history: seq<Item>, id: string, lo: nat, hi: nat, top: nat, skipped: set<nat>)
    requires lo <= hi <= top <= |history|
    ensures Shown(history, id, lo, hi, skipped + Between(hi, top)) == Shown(history, id, lo, hi, skipped)
    ensures Shown(history, id, lo, top, skipped + Between(hi, top)) == Shown(history, id, lo, hi, skipped)
  {
    ShownSameSkips(history, id, lo, hi, skipped + Between(hi, top), skipped);
    ShownAllSkipped(history, id, lo, hi, top, skipped + Between(hi, top));
  }

  lemma {:induction false} ShownSameSkips(history: seq<Item>, id: string, lo: nat, hi: nat, a: set<nat>, b: set<nat>)
    requires hi <= |history|
    requires forall n: nat | n <= hi :: n in a <==> n in b
    ensures Shown(history, id, lo, hi, a) == Shown(history, id, lo, hi, b)
  {
    if hi > lo {
      ShownSameSkips(history, id, lo, hi - 1, a, b);
    }
  }

  lemma {:induction false} ShownAllSkipped(history: seq<Item>, id: string, lo: nat, mid: nat, hi: nat,
                                skipped: set<nat>)
    requires lo <= mid <= hi <= |history|
    requires Between(mid, hi) <= skipped
    ensures Shown(history, id, lo, hi, skipped) == Shown(history, id, lo, mid, skipped)
  {
    if hi > mid {
      assert hi in Between(mid, hi);
      assert Between(mid, hi - 1) <= Between(mid, hi);
      ShownAllSkipped(history, id, lo, mid, hi - 1, skipped);
    }
  }

  /** Taking a stretch of the log whole extends what was shown by exactly that stretch. */
  lemma {:induction false} ShownTakes(history: seq<Item>, id: string, lo: nat, from: nat, to: nat, skipped: set<nat>)
    requires lo <= from <= to <= |history|
    requires forall n: nat | from < n <= to :: n !in skipped
    ensures Shown(history, id, lo, to, skipped)
         == Shown(history, id, lo, from, skipped) + Visible(history[from..to], id)
  {
    if to == from {
      assert history[from..to] == [];
    } else {
      ShownTakes(history, id, lo, from, to - 1, skipped);
      var part := history[from..to];
      assert part[..|part| - 1] == history[from..to - 1] && part[|part| - 1] == history[to - 1];
      assert Shown(history, id, lo, to, skipped)
          == Shown(history, id, lo, to - 1, skipped) + if Matches(history[to - 1], id) then [history[to - 1]] else [];
      hide Shown, Matches;
    }
  }

  // ------------------------------------------------------------------ invariant

  predicate LogOk(log: Log, history: seq<Item>) {
    && Numbered(history)
    && log.last == |history| == log.base + |log.items|
    && log.items == history[log.base..]
    && |log.items| == (if |history| <= log.maxLog then |history| else log.maxLog)
  }

  /** What is still to be written of the last batch. */
  function Pending(p: Phase): seq<Item> {
    if p.Writing? then p.batch else []
  }

  /** Having started at lo and reached cursor, a client has been handed exactly `shown`. */
  predicate Handed(log: Log, history: seq<Item>, id: string, lo: nat, cursor: nat, skipped: set<nat>, shown: seq<Item>)
    requires log.last == |history|
  {
    && lo <= cursor <= log.last
    && (forall n <- skipped :: lo < n <= cursor && n <= log.base && n + log.maxLog <= |history|)
    && shown == Shown(history, id, lo, cursor, skipped)
  }

  ghost predicate StreamOk(log: Log, history: seq<Item>, id: string, c: Client)
    requires log.last == |history|
  {
    if c.phase.Exited? then
      exists rest :: Handed(log, history, id, c.start, c.conn.cursor, c.skipped, c.written + rest)
    else Handed(log, history, id, c.start, c.conn.cursor, c.skipped, c.written + Pending(c.phase))
  }

  /** A client that could be caught up but is not, and whose goroutine sleeps, will be woken: its
      channel is full, or its own read loop is about to fill it. */
  predicate WillWake(log: Log, c: Client) {
    c.registered && c.conn.hasSession && c.phase.AtSelect? && c.conn.cursor < log.last
    ==> c.conn.notify || c.needsWake
  }

  predicate Named(id: string, clientSeq: nat) {
    exists n | 1 <= n <= clientSeq :: id == ClientId(n)
  }

  ghost predicate ClientOk(log: Log, history: seq<Item>, id: string, c: Client)
    requires log.last == |history|
  {
    && StreamOk(log, history, id, c)
    && WillWake(log, c)
    && c.doneCloses == (if c.registered then 0 else 1)
    && (c.registered ==> c.reading)
  }

  ghost predicate Inv(s: State) {
    && LogOk(s.log, s.history)
    && (forall id | id in s.clients :: ClientOk(s.log, s.history, id, s.clients[id]))
    && (forall id | id in s.clients :: Named(id, s.clientSeq))
  }

  lemma AppendKeepsLog(log: Log, history: seq<Item>, target: string, frame: Frame)
    requires LogOk(log, history)
    ensures LogOk(Append(log, target, frame), history + [Item(log.last + 1, frame, target)])
  {
    var h := history + [Item(log.last + 1, frame, target)];
    assert log.items + [Item(log.last + 1, frame, target)] == h[log.base..];
  }

  lemma AppendKeepsHanded(log: Log, history: seq<Item>, target: string, frame: Frame,
                          id: string, lo: nat, cursor: nat, skipped: set<nat>, shown: seq<Item>)
    requires LogOk(log, history) && Handed(log, history, id, lo, cursor, skipped, shown)
    ensures Handed(Append(log, target, frame), history + [Item(log.last + 1, frame, target)], id, lo, cursor, skipped,
            shown)
  {
    ShownGrows(history, [Item(log.last + 1, frame, target)], id, lo, cursor, skipped);
  }

  lemma AppendKeepsClient(log: Log, history: seq<Item>, target: string, frame: Frame, id: string, c: Client)
    requires LogOk(log, history) && ClientOk(log, history, id, c)
    ensures ClientOk(Append(log, target, frame), history + [Item(log.last + 1, frame, target)], id, Woken(c))
  {
    var rest := Pending(c.phase);
    if c.phase.Exited? {
      rest :| Handed(log, history, id, c.start, c.conn.cursor, c.skipped, c.written + rest);
    }
    AppendKeepsHanded(log, history, target, frame, id, c.start, c.conn.cursor, c.skipped, c.written + rest);
  }

  /** One catch-up hands over exactly the log's stretch, and skips what was trimmed. */
  lemma CatchUpHands(log: Log, history: seq<Item>, id: string, lo: nat, cursor: nat, skipped: set<nat>,
                     shown: seq<Item>)
    requires LogOk(log, history) && Handed(log, history, id, lo, cursor, skipped, shown)
    ensures var from := if cursor < log.base then log.base else cursor;
            Handed(log, history, id, lo, log.last, skipped + Between(cursor, log.base),
                   shown + Visible(log.items[from - log.base..], id))
  {
    var from := if cursor < log.base then log.base else cursor;
    var skipped' := skipped + Between(cursor, log.base);
    assert Shown(history, id, lo, from, skipped') == shown by {
      if cursor < log.base {
        ShownSkips(history, id, lo, cursor, from, skipped);
      } else {
        assert skipped' == skipped;
      }
    }
    assert history[from..log.last] == log.items[from - log.base..];
    ShownTakes(history, id, lo, from, log.last, skipped');
  }

  lemma CatchUpBatch(log: Log, history: seq<Item>, conn: Conn, id: string)
    requires LogOk(log, history) && conn.cursor <= log.last && conn.hasSession
    ensures InBounds(log, conn)
    ensures var from := if conn.cursor < log.base then log.base else conn.cursor;
            CatchUp(log, conn, id) == (conn.(cursor := log.last), Visible(log.items[from - log.base..], id))
  {
  }

  lemma AfterCatchUpIs(log: Log, history: seq<Item>, c: Client, id: string)
    requires LogOk(log, history) && c.conn.cursor <= log.last && c.conn.hasSession
    ensures InBounds(log, c.conn)
    ensures (var from := if c.conn.cursor < log.base then log.base else c.conn.cursor;
             var batch := Visible(log.items[from - log.base..], id);
             var c' := AfterCatchUp(log, c, id);
             c' == c.(conn := c.conn.(cursor := log.last), phase := if batch == [] then AtSelect else Writing(batch),
                      skipped := c.skipped + Between(c.conn.cursor, log.base)))
  {
    CatchUpBatch(log, history, c.conn, id);
  }

  lemma CatchUpKeepsStream(log: Log, history: seq<Item>, id: string, c: Client)
    requires LogOk(log, history) && c.conn.hasSession
    requires Handed(log, history, id, c.start, c.conn.cursor, c.skipped, c.written)
    ensures InBounds(log, c.conn)
    ensures var c' := AfterCatchUp(log, c, id);
            Handed(log, history, id, c'.start, c'.conn.cursor, c'.skipped, c'.written + Pending(c'.phase))
  {
    CatchUpHands(log, history, id, c.start, c.conn.cursor, c.skipped, c.written);
    AfterCatchUpIs(log, history, c, id);
  }

  lemma CatchUpKeepsClient(log: Log, history: seq<Item>, id: string, c: Client)
    requires LogOk(log, history) && ClientOk(log, history, id, c)
    requires InBounds(log, c.conn) && (c.phase.Running? || c.phase == Writing([]))
    ensures ClientOk(log, history, id, AfterCatchUp(log, c, id))
  {
    assert c.written + Pending(c.phase) == c.written;
    if c.conn.hasSession {
      CatchUpKeepsStream(log, history, id, c);
      AfterCatchUpIs(log, history, c, id);
    } else {
      assert AfterCatchUp(log, c, id) == c.(phase := AtSelect);
    }
  }

  lemma WriteKeepsClient(log: Log, history: seq<Item>, id: string, c: Client)
    requires LogOk(log, history) && ClientOk(log, history, id, c) && c.phase.Writing? && c.phase.batch != []
    ensures ClientOk(log, history, id,
            c.(phase := Writing(c.phase.batch[1..]), written := c.written + [c.phase.batch[0]]))
    ensures ClientOk(log, history, id, c.(phase := Exited))
  {
    assert c.written + c.phase.batch == (c.written + [c.phase.batch[0]]) + c.phase.batch[1..];
    assert Handed(log, history, id, c.start, c.conn.cursor, c.skipped, c.written + c.phase.batch);
  }

  lemma FreshId(s: State)
    requires Inv(s)
    ensures ClientId(s.clientSeq + 1) !in s.clients
  {
    var id := ClientId(s.clientSeq + 1);
    if id in s.clients {
      assert Named(id, s.clientSeq);
      var n :| 1 <= n <= s.clientSeq && id == ClientId(n);
      assert Itoa(n) == id[1..] == Itoa(s.clientSeq + 1);
      ItoaInjective(n, s.clientSeq + 1);
      assert false;
    }
  }

  /** Changing one client, and nothing of the log, leaves the others as they were. */
  lemma OneClient(s: State, s': State, id: string)
    requires Inv(s) && s'.log == s.log && s'.history == s.history && s.clientSeq <= s'.clientSeq
    requires s'.clients.Keys == s.clients.Keys + {id}
    requires ClientOk(s.log, s.history, id, s'.clients[id]) && Named(id, s'.clientSeq)
    requires forall o | o in s.clients && o != id :: s'.clients[o] == s.clients[o]
    ensures Inv(s')
  {
    forall o | o in s'.clients ensures Named(o, s'.clientSeq) {
      if o != id {
        assert Named(o, s.clientSeq);
      }
    }
  }

  lemma AppendKeepsInv(s: State, target: string, frame: Frame)
    requires Inv(s)
    ensures Inv(Next(s, AppendItem(target, frame)))
  {
    var s' := Next(s, AppendItem(target, frame));
    AppendKeepsLog(s.log, s.history, target, frame);
    forall id | id in s'.clients ensures ClientOk(s'.log, s'.history, id, s'.clients[id]) {
      AppendKeepsClient(s.log, s.history, target, frame, id, s.clients[id]);
    }
  }

  lemma StopKeepsInv(s: State)
    requires Inv(s) && Enabled(s, Stop)
    ensures Inv(Next(s, Stop))
  {
    var s' := Next(s, Stop);
    forall id | id in s'.clients ensures ClientOk(s'.log, s'.history, id, s'.clients[id]) {
      FlagsKeepClient(s.log, s.history, id, s.clients[id], s'.clients[id]);
    }
  }

  lemma ConnectKeepsInv(s: State)
    requires Inv(s)
    ensures Inv(Next(s, Connect))
  {
    assert Named(ClientId(s.clientSeq + 1), s.clientSeq + 1);
    OneClient(s, Next(s, Connect), ClientId(s.clientSeq + 1));
  }

  /** Every event keeps the invariant, in every state. */
  lemma StepKeepsInv(s: State, e: Event)
    requires Inv(s) && Enabled(s, e)
    ensures Inv(Next(s, e))
  {
    match e {
      case AppendItem(target, frame) => AppendKeepsInv(s, target, frame);
      case Stop => StopKeepsInv(s);
      case Connect => ConnectKeepsInv(s);
      case SetSession(_) => FlagsKeepInv(s, e);
      case WakeSelf(_) => FlagsKeepInv(s, e);
      case Detach(_) => FlagsKeepInv(s, e);
      case TakeNotify(_) => FlagsKeepInv(s, e);
      case SeeDone(_) => FlagsKeepInv(s, e);
      case CatchUpStep(_) => ReplayKeepsInv(s, e);
      case WriteOne(_) => ReplayKeepsInv(s, e);
      case WriteFails(_) => ReplayKeepsInv(s, e);
    }
  }

  lemma ReplayKeepsInv(s: State, e: Event)
    requires Inv(s) && Enabled(s, e) && (e.CatchUpStep? || e.WriteOne? || e.WriteFails?)
    ensures Inv(Next(s, e))
  {
    if e.CatchUpStep? {
      CatchUpKeepsClient(s.log, s.history, e.id, s.clients[e.id]);
    } else {
      WriteKeepsClient(s.log, s.history, e.id, s.clients[e.id]);
    }
    OneClient(s, Next(s, e), e.id);
  }

  lemma FlagsKeepClient(log: Log, history: seq<Item>, id: string, c: Client, c': Client)
    requires LogOk(log, history) && ClientOk(log, history, id, c)
    requires c'.conn.cursor == c.conn.cursor && c'.start == c.start && c'.written == c.written
             && c'.skipped == c.skipped
    requires Pending(c'.phase) == Pending(c.phase) && (c.phase.Exited? ==> c'.phase.Exited?)
    requires WillWake(log, c') && c'.doneCloses == (if c'.registered then 0 else 1) && (c'.registered ==> c'.reading)
    ensures ClientOk(log, history, id, c')
  {
    if c'.phase.Exited? && !c.phase.Exited? {
      assert Handed(log, history, id, c'.start, c'.conn.cursor, c'.skipped, c'.written + Pending(c.phase));
    }
  }

  /** The events that touch one client's flags and phase only. */
  lemma FlagsKeepInv(s: State, e: Event)
    requires Inv(s) && Enabled(s, e)
    requires e.SetSession? || e.WakeSelf? || e.Detach? || e.TakeNotify? || e.SeeDone?
    ensures Inv(Next(s, e))
  {
    FlagsKeepClient(s.log, s.history, e.id, s.clients[e.id], Next(s, e).clients[e.id]);
    OneClient(s, Next(s, e), e.id);
  }

  lemma InitOk(maxLog: nat)
    ensures Inv(Init(maxLog))
  {
  }

  lemma {:induction false} ExecKeepsInv(s: State, es: seq<Event>)
    requires Inv(s) && Exec(s, es).Some?
    ensures Inv(Exec(s, es).value)
  {
    if es != [] {
      ExecKeepsInv(s, es[..|es| - 1]);
      StepKeepsInv(Exec(s, es[..|es| - 1]).value, es[|es| - 1]);
    }
  }

  // ------------------------------------------------------------------ theorems over whole runs

  /** Some sequence of events leads here from a log bounded by maxLog. */
  ghost predicate Reachable(s: State, maxLog: nat) {
    exists es :: Exec(Init(maxLog), es) == Some(s)
  }

  lemma ReachableInv(s: State, maxLog: nat)
    requires Reachable(s, maxLog)
    ensures Inv(s) && s.log.maxLog == maxLog
  {
    var es :| Exec(Init(maxLog), es) == Some(s);
    InitOk(maxLog);
    ExecKeepsInv(Init(maxLog), es);
    BoundKept(Init(maxLog), es);
  }

  lemma {:induction false} BoundKept(s: State, es: seq<Event>)
    requires Exec(s, es).Some?
    ensures Exec(s, es).value.log.maxLog == s.log.maxLog
  {
    if es != [] {
      BoundKept(s, es[..|es| - 1]);
    }
  }

  /** In every reachable state: the log is the whole history as long as that fits, and its last maxLog items
      from then on, contiguously numbered; every client's slice index is in range (so the guard of CatchUpStep
      excludes nothing); and `done` is closed once when a client leaves the table, and never again. */
  lemma LogIsHistoryTail(s: State, maxLog: nat)
    requires Reachable(s, maxLog)
    ensures s.log.last == |s.history| == s.log.base + |s.log.items|
    ensures |s.log.items| == if |s.history| <= maxLog then |s.history| else maxLog
    ensures s.log.base == if |s.history| <= maxLog then 0 else |s.history| - maxLog
    ensures s.log.items == s.history[s.log.base..]
    ensures forall i | 0 <= i < |s.log.items| :: s.log.items[i].num == s.log.base + 1 + i
    ensures forall id | id in s.clients :: InBounds(s.log, s.clients[id].conn)
    ensures forall id | id in s.clients :: s.clients[id].doneCloses == if s.clients[id].registered then 0 else 1
  {
    ReachableInv(s, maxLog);
  }

  lemma StreamOfClient(log: Log, history: seq<Item>, id: string, c: Client)
    requires LogOk(log, history) && StreamOk(log, history, id, c)
    ensures Increasing(c.written)
    ensures forall it <- c.written :: 0 < it.num <= |history| && it == history[it.num - 1] && Matches(it, id)
  {
    var rest := Pending(c.phase);
    if c.phase.Exited? {
      rest :| Handed(log, history, id, c.start, c.conn.cursor, c.skipped, c.written + rest);
    }
    var shown := Shown(history, id, c.start, c.conn.cursor, c.skipped);
    ShownExact(history, id, c.start, c.conn.cursor, c.skipped);
    ShownIncreasing(history, id, c.start, c.conn.cursor, c.skipped);
    assert shown == c.written + rest;
    assert forall i | 0 <= i < |c.written| :: c.written[i] == shown[i];
    forall it <- c.written ensures it in shown { }
  }

  lemma StreamComplete(log: Log, history: seq<Item>, id: string, c: Client, it: Item)
    requires LogOk(log, history) && StreamOk(log, history, id, c) && !c.phase.Exited?
    requires it in history && Matches(it, id) && c.start < it.num <= c.conn.cursor && it.num !in c.skipped
    ensures it in c.written || it in Pending(c.phase)
  {
    ShownExact(history, id, c.start, c.conn.cursor, c.skipped);
    var i :| 0 <= i < |history| && history[i] == it;
    assert it in Shown(history, id, c.start, c.conn.cursor, c.skipped);
  }

  /** Replay refinement. What a client's replay goroutine has written is, in strictly increasing
      number and without repeats, made of history items meant for that client; and every such item
      between its registration and its cursor has been written, is in the batch being written, or
      was skipped, and what is skipped had maxLog items after it, then already, being a step of the run. */
  lemma StreamRefinesHistory(s: State, maxLog: nat, id: string)
    requires Reachable(s, maxLog) && id in s.clients
    ensures var c := s.clients[id];
            && Increasing(c.written)
            && (forall it <- c.written :: 0 < it.num <= |s.history| && it == s.history[it.num - 1]
                                          && (it.target == "" || it.target == id))
            && (!c.phase.Exited? ==>
                  forall it <- s.history | (it.target == "" || it.target == id)
                                           && c.start < it.num <= c.conn.cursor && it.num !in c.skipped
                    :: it in c.written || it in Pending(c.phase))
            && (forall n <- c.skipped :: c.start < n && n + maxLog <= |s.history|)
  {
    ReachableInv(s, maxLog);
    var c := s.clients[id];
    StreamOfClient(s.log, s.history, id, c);
    forall it <- s.history | !c.phase.Exited? && Matches(it, id) && c.start < it.num <= c.conn.cursor
        && it.num !in c.skipped
      ensures it in c.written || it in Pending(c.phase)
    {
      StreamComplete(s.log, s.history, id, c, it);
    }
  }

  /** The client's cursor was never more than the log's bound behind the history. */
  ghost predicate NeverLagged(s: State, es: seq<Event>, id: string) {
    forall n | 0 <= n < |es| ::
      var m := Exec(s, es[..n]);
      m.Some? && id in m.value.clients ==> |m.value.history| <= m.value.clients[id].conn.cursor + s.log.maxLog
  }

  lemma LaggedPrefix(s: State, es: seq<Event>, id: string)
    requires es != [] && NeverLagged(s, es, id)
    ensures NeverLagged(s, es[..|es| - 1], id)
  {
    var p := es[..|es| - 1];
    forall n | 0 <= n < |p|
      ensures var m := Exec(s, p[..n]);
              m.Some? && id in m.value.clients ==> |m.value.history| <= m.value.clients[id].conn.cursor + s.log.maxLog
    {
      assert p[..n] == es[..n];
    }
  }

  lemma NoLagNoSkip(s: State, e: Event, id: string)
    requires Inv(s) && Enabled(s, e) && id in s.clients && s.clients[id].skipped == {}
    requires |s.history| <= s.clients[id].conn.cursor + s.log.maxLog
    ensures id in Next(s, e).clients && Next(s, e).clients[id].skipped == {}
  {
    FreshId(s);
    assert Between(s.clients[id].conn.cursor, s.log.base) == {};
  }

  lemma NewcomerSkippedNothing(s: State, e: Event, id: string)
    requires Enabled(s, e) && id !in s.clients && id in Next(s, e).clients
    ensures Next(s, e).clients[id].skipped == {}
  {
  }

  /** ... then nothing is missing. */
  lemma {:induction false} NothingMissing(maxLog: nat, es: seq<Event>, id: string)
    requires Exec(Init(maxLog), es).Some? && id in Exec(Init(maxLog), es).value.clients
    requires NeverLagged(Init(maxLog), es, id)
    ensures Exec(Init(maxLog), es).value.clients[id].skipped == {}
  {
    var s0 := Init(maxLog);
    var n := |es| - 1;
    if es != [] {
      var m := Exec(s0, es[..n]).value;
      if id in m.clients {
        LaggedPrefix(s0, es, id);
        NothingMissing(maxLog, es[..n], id);
        InitOk(maxLog);
        ExecKeepsInv(s0, es[..n]);
        BoundKept(s0, es[..n]);
        NoLagNoSkip(m, es[n], id);
      } else {
        NewcomerSkippedNothing(m, es[n], id);
      }
    }
  }

  lemma QuietClient(log: Log, history: seq<Item>, id: string, c: Client)
    requires LogOk(log, history) && ClientOk(log, history, id, c)
    requires c.registered && c.conn.hasSession && c.phase.AtSelect? && !c.conn.notify && !c.needsWake
    ensures c.written == Shown(history, id, c.start, |history|, c.skipped)
    ensures forall it <- history | Matches(it, id) && c.start < it.num && it.num !in c.skipped :: it in c.written
  {
    forall it <- history | Matches(it, id) && c.start < it.num && it.num !in c.skipped ensures it in c.written {
      StreamComplete(log, history, id, c, it);
    }
  }

  /** No lost wakeup: a connected client with a session that sleeps behind the log has a token in its
      channel, or its read loop is still between setting hasSession and calling wake. */
  lemma NoLostWakeup(s: State, maxLog: nat, id: string)
    requires Reachable(s, maxLog) && id in s.clients
    ensures WillWake(s.log, s.clients[id])
  {
    ReachableInv(s, maxLog);
    assert ClientOk(s.log, s.history, id, s.clients[id]);
  }

  /** In its consequence: a sleeping client with no token in its channel, and no wake on its way, has
      been written everything. */
  lemma QuietClientIsCaughtUp(s: State, maxLog: nat, id: string)
    requires Reachable(s, maxLog) && id in s.clients
    requires var c := s.clients[id];
             c.registered && c.conn.hasSession && c.phase.AtSelect? && !c.conn.notify && !c.needsWake
    ensures var c := s.clients[id];
            && c.written == Shown(s.history, id, c.start, |s.history|, c.skipped)
            && forall it <- s.history | (it.target == "" || it.target == id) && c.start < it.num && it.num !in c.skipped
                 :: it in c.written
  {
    ReachableInv(s, maxLog);
    QuietClient(s.log, s.history, id, s.clients[id]);
  }

  /** The steps that lead a new client to its first catch-up. */
  lemma JoinerIsReady(s: State)
    requires Inv(s)
    ensures
      var id := ClientId(s.clientSeq + 1);
      && id !in s.clients && Enabled(s, Connect) && Enabled(Next(s, Connect), SetSession(id))
      && var s2 := Next(Next(s, Connect), SetSession(id));
      && Enabled(s2, WakeSelf(id)) && Enabled(Next(s2, WakeSelf(id)), TakeNotify(id))
      && var s4 := Next(Next(s2, WakeSelf(id)), TakeNotify(id));
      && s4.log == s.log && s4.history == s.history && id in s4.clients
      && s4.clients[id] == Client(Conn(true, s.log.base, false), true, 0, true, false, Running, s.log.base, [], {})
  {
    hide Inv;
    FreshId(s);
  }

  /** What a tail of the history shows. */
  lemma TailShown(history: seq<Item>, id: string, base: nat)
    requires Numbered(history) && base <= |history|
    ensures Visible(history[base..], id) == Shown(history, id, base, |history|, {})
  {
    ShownTakes(history, id, base, base, |history|, {});
    assert history[base..|history|] == history[base..];
  }

  lemma FirstCatchUp(s: State, maxLog: nat, c: Client, id: string)
    requires Reachable(s, maxLog) && id in s.clients && s.clients[id] == c
    requires c.phase.Running? && c.conn.hasSession && c.conn.cursor <= s.log.base
    ensures InBounds(s.log, c.conn) && Numbered(s.history) && s.log.base <= |s.history|
    ensures Pending(AfterCatchUp(s.log, c, id).phase) == Visible(s.history[s.log.base..], id)
    ensures AfterCatchUp(s.log, c, id).conn.cursor == |s.history|
    ensures s.log.base == if |s.history| <= maxLog then 0 else |s.history| - maxLog
  {
    LogIsHistoryTail(s, maxLog);
    assert Numbered(s.history) by { ReachableInv(s, maxLog); }
    hide *;
    CatchUpFromBase(s.log, c, id);
  }

  lemma CatchUpFromBase(log: Log, c: Client, id: string)
    requires InBounds(log, c.conn) && c.conn.hasSession && c.conn.cursor <= log.base
    requires log.last == log.base + |log.items|
    ensures Pending(AfterCatchUp(log, c, id).phase) == Visible(log.items, id)
    ensures AfterCatchUp(log, c, id).conn.cursor == log.last
  {
    assert log.items[0..] == log.items;
    assert log.items == [] ==> Visible(log.items, id) == [];
    hide Visible, Between;
  }

  /** A late joiner, which starts at the log's base, is shown the log: its first catch-up with a session hands it,
      in order, exactly the items for it among the last maxLog of the history. */
  lemma LateJoinerGetsTheLog(s: State, maxLog: nat, c: Client, id: string)
    requires Reachable(s, maxLog) && id in s.clients && s.clients[id] == c
    requires c.phase.Running? && c.conn.hasSession && c.conn.cursor <= s.log.base
    ensures InBounds(s.log, c.conn)
    ensures
      var batch := Pending(AfterCatchUp(s.log, c, id).phase);
      && Increasing(batch) && AfterCatchUp(s.log, c, id).conn.cursor == |s.history|
      && forall it :: it in batch <==>
           0 < it.num <= |s.history| < it.num + maxLog && it == s.history[it.num - 1]
           && (it.target == "" || it.target == id)
  {
    FirstCatchUp(s, maxLog, c, id);
    hide *;
    TailShown(s.history, id, s.log.base);
    ShownExact(s.history, id, s.log.base, |s.history|, {});
    ShownIncreasing(s.history, id, s.log.base, |s.history|, {});
  }
}
