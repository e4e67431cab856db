/** No client is left behind: whatever a connected client's replay goroutine is at, it can always go on until the
    client has been written everything meant for it. */
module ReplayProgress {
  import opened Codec
  import opened ReplayLog

  /** What is left to do: wake itself, take the token, catch up, write. */
  function ToWrite(phase: Phase): nat {
    match phase
    case Running => 1
    case Writing(batch) => |batch| + 1
    case _ => 0
  }

  function Flags(c: Client): nat {
    (if c.needsWake then 2 else 0) + if c.conn.notify then 1 else 0
  }

  function Behind(log: Log, c: Client): nat {
    if c.conn.cursor < log.last then 1 else 0
  }

  /** A client whose replay goroutine may still write to it. */
  predicate Served(s: State, id: string) {
    id in s.clients && s.clients[id].registered && s.clients[id].conn.hasSession && !s.clients[id].phase.Exited?
  }

  predicate Sleeps(c: Client) {
    c.phase.AtSelect? && !c.conn.notify && !c.needsWake
  }

  /** The client is nearer to sleep. */
  predicate Nearer(log: Log, c: Client, c': Client) {
    && c'.registered && c'.conn.hasSession && !c'.phase.Exited? && c'.start == c.start
    && (Flags(c') < Flags(c)
        || (Flags(c') == Flags(c)
            && (Behind(log, c') < Behind(log, c)
                || (Behind(log, c') == Behind(log, c) && ToWrite(c'.phase) < ToWrite(c.phase)))))
  }

  lemma CatchesUp(s: State, id: string) returns (e: Event)
    requires Inv(s) && Served(s, id) && !Sleeps(s.clients[id])
    ensures Enabled(s, e)
    ensures Next(s, e).log == s.log && Next(s, e).history == s.history && id in Next(s, e).clients
    ensures Nearer(s.log, s.clients[id], Next(s, e).clients[id])
  {
    var c := s.clients[id];
    ServedInBounds(s, id);
    if c.needsWake {
      e := WakeSelf(id);
    } else if c.phase.AtSelect? {
      e := TakeNotify(id);
    } else if c.phase.Writing? && c.phase.batch != [] {
      e := WriteOne(id);
    } else {
      e := CatchUpStep(id);
      CatchUpEnds(s.log, c, id);
      CatchUpIsNext(s, id);
    }
    hide Inv, InBounds, AfterCatchUp;
  }

  lemma CatchUpIsNext(s: State, id: string)
    requires Enabled(s, CatchUpStep(id))
    ensures Next(s, CatchUpStep(id)) == s.(clients := s.clients[id := AfterCatchUp(s.log, s.clients[id], id)])
  {
  }

  /** One catch-up brings the cursor to the end, and one from there finds nothing. */
  lemma CatchUpEnds(log: Log, c: Client, id: string)
    requires InBounds(log, c.conn) && c.conn.hasSession
    ensures
      var c' := AfterCatchUp(log, c, id);
      && Behind(log, c') == 0 && Flags(c') == Flags(c) && !c'.phase.Exited? && c'.conn.hasSession
      && c'.registered == c.registered && c'.start == c.start && (Behind(log, c) == 0 ==> c'.phase.AtSelect?)
  {
    hide Visible;
  }

  lemma ServedInBounds(s: State, id: string)
    requires Inv(s) && Served(s, id)
    ensures InBounds(s.log, s.clients[id].conn)
  {
    assert ClientOk(s.log, s.history, id, s.clients[id]);
  }

  lemma {:induction false} ExecJoins(s: State, e: Event, es: seq<Event>)
    requires Enabled(s, e)
    ensures Exec(s, [e] + es) == Exec(Next(s, e), es)
  {
    if es == [] {
      assert [e] + es == [e] && [e][..0] == [];
    } else {
      var all, n := [e] + es, |es| - 1;
      assert all[..|all| - 1] == [e] + es[..n] && all[|all| - 1] == es[n];
      ExecJoins(s, e, es[..n]);
    }
  }

  lemma {:induction false} CanSleep(s: State, id: string) returns (es: seq<Event>)
    requires Inv(s) && Served(s, id)
    ensures Exec(s, es).Some?
    ensures
      var t := Exec(s, es).value;
      && Served(t, id) && t.history == s.history && Sleeps(t.clients[id])
      && t.clients[id].start == s.clients[id].start
    decreases Flags(s.clients[id]), Behind(s.log, s.clients[id]), ToWrite(s.clients[id].phase)
  {
    if Sleeps(s.clients[id]) {
      es := [];
    } else {
      var e := CatchesUp(s, id);
      StepKeepsInv(s, e);
      hide Inv, Enabled, Next;
      es := CanSleep(Next(s, e), id);
      ExecJoins(s, e, es);
      es := [e] + es;
    }
  }

  lemma {:induction false} ExecConcat(s: State, a: seq<Event>, b: seq<Event>)
    requires Exec(s, a).Some?
    ensures Exec(s, a + b) == Exec(Exec(s, a).value, b)
  {
    if b == [] {
      assert a + b == a;
    } else {
      var n := |b| - 1;
      assert (a + b)[..|a + b| - 1] == a + b[..n];
      ExecConcat(s, a, b[..n]);
    }
  }

  /** From every reachable state, a connected client with a session can be written everything appended so far that is
      meant for it, save what was trimmed before it got there, with nothing else happening. */
  lemma EveryClientCanCatchUp(s: State, maxLog: nat, id: string) returns (es: seq<Event>)
    requires Reachable(s, maxLog) && Served(s, id)
    ensures Exec(s, es).Some?
    ensures
      var t := Exec(s, es).value;
      && t.history == s.history && id in t.clients && t.clients[id].start == s.clients[id].start
      && forall it <- s.history | (it.target == "" || it.target == id) && t.clients[id].start < it.num
                                  && it.num !in t.clients[id].skipped
         :: it in t.clients[id].written
  {
    ReachableInv(s, maxLog);
    es := CanSleep(s, id);
    var before :| Exec(Init(maxLog), before) == Some(s);
    ExecConcat(Init(maxLog), before, es);
    hide Inv, Enabled, Next;
    QuietClientIsCaughtUp(Exec(s, es).value, maxLog, id);
  }
}
