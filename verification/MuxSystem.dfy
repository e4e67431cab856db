/** The replay log and the prompt serializer running together: the serializer's appends are the log's
    appends, a turn end looks its client up in the log's client table, and a client's read loop is the
    thread that submits prompts. The theorems say what each connected client finally reads. */
module MuxSystem {
  import opened Codec
  import L = ReplayLog
  import T = TurnSerializer
  import TT = TurnTheorems

  datatype State = State(log: L.State, turns: T.State)

  datatype Event =
    | Connect
    | Detach(id: string)
    | Stop
    | LogStep(l: L.Event)
    | TurnStep(t: T.Event)

  function Init(maxLog: nat): State {
    State(L.Init(maxLog), T.Init())
  }

  predicate IsRegistered(s: State, id: string) {
    id in s.log.clients && s.log.clients[id].registered
  }

  /** The read loop of `id` is between two messages. */
  predicate AtRead(s: State, id: string) {
    id in s.log.clients && s.log.clients[id].reading && !s.log.clients[id].needsWake && T.Is(s.turns, id, T.Listening)
  }

  predicate Enabled(s: State, e: Event) {
    match e
    case Connect => T.Enabled(s.turns, T.Join(L.ClientId(s.log.clientSeq + 1)))
    case Detach(id) => id != "" && AtRead(s, id)
    case Stop => L.Enabled(s.log, L.Stop)
    case LogStep(l) =>
      && L.Enabled(s.log, l)
      && !l.Connect? && !l.Detach? && !l.Stop? && !l.AppendItem?
      && (l.SetSession? ==> AtRead(s, l.id))
    case TurnStep(t) =>
      && T.Enabled(s.turns, t)
      && !t.Join? && !t.Leave? && !t.Stop?
      && (t.SubmitPrompt? ==> AtRead(s, t.c))
      && (t.AllocOther? && t.c != "" ==> AtRead(s, t.c))
      && (t.EndTurnStep? ==> (t.registered <==> IsRegistered(s, s.turns.z.inflightClient)))
  }

  /** What a serializer step appends to the log. */
  datatype Effect = Nothing | Append(target: string, frame: L.Frame)

  function StopOf(failed: bool): L.StopReason {
    if failed then L.Refusal else L.EndTurn
  }

  function EffectOf(t: T.State, e: T.Event): Effect
    requires T.Enabled(t, e)
  {
    match e
    case ReadNote => Append("", L.Update(t.outbox[0].body))
    case AppendResult =>
      Append(t.reader.client, L.Result(if t.reader.req.Some? then t.reader.req.value else "", StopOf(t.reader.failed)))
    case AppendRefusal(c) => Append(t.threads[c].p.client, L.Result(t.threads[c].p.req, L.Refusal))
    case _ => Nothing
  }

  function Next(s: State, e: Event): State
    requires Enabled(s, e)
  {
    match e
    case Connect =>
      State(L.Next(s.log, L.Connect), T.Next(s.turns, T.Join(L.ClientId(s.log.clientSeq + 1))))
    case Detach(id) => State(L.Next(s.log, L.Detach(id)), T.Next(s.turns, T.Leave(id)))
    case Stop => State(L.Next(s.log, L.Stop), T.Next(s.turns, T.Stop))
    case LogStep(l) => s.(log := L.Next(s.log, l))
    case TurnStep(t) =>
      var turns := T.Next(s.turns, t);
      match EffectOf(s.turns, t)
      case Nothing => s.(turns := turns)
      case Append(target, frame) => State(L.Next(s.log, L.AppendItem(target, frame)), turns)
  }

  function Exec(s: State, es: seq<Event>): Option<State> {
    if es == [] then Some(s)
    else
      match Exec(s, es[..|es| - 1])
      case None => None
      case Some(m) => if Enabled(m, es[|es| - 1]) then Some(Next(m, es[|es| - 1])) else None
  }

  // ------------------------------------------------------------------ the two views agree

  /** The log item is the one that the mark stands for. */
  predicate Stamped(tickets: seq<T.Prompt>, m: T.Mark, it: L.Item) {
    match m
    case UpdateOf(_, body) => it.target == "" && it.frame == L.Update(body)
    case ResultOf(_, ticket, failed) =>
      ticket < |tickets| && it.target == tickets[ticket].client
          && it.frame == L.Result(tickets[ticket].req, StopOf(failed))
    case RefusalOf(ticket) =>
      ticket < |tickets| && it.target == tickets[ticket].client && it.frame == L.Result(tickets[ticket].req, L.Refusal)
  }

  ghost predicate Agree(s: State) {
    && |s.turns.marks| == |s.log.history|
    && forall i | 0 <= i < |s.turns.marks| :: Stamped(s.turns.tickets, s.turns.marks[i], s.log.history[i])
  }

  /** A client asks only after it connected, so its answers come after its starting point. */
  ghost predicate Asked(s: State) {
    && (forall p <- s.turns.tickets :: p.client != "" && p.client in s.log.clients)
    && (forall i | 0 <= i < |s.log.history| && s.log.history[i].target != "" ::
          s.log.history[i].target in s.log.clients && s.log.clients[s.log.history[i].target].start <= i)
    && (forall c | c in s.turns.threads && c != "" :: c in s.log.clients)
  }

  ghost predicate Inv(s: State) {
    L.Inv(s.log) && TT.Inv(s.turns) && Agree(s) && Asked(s)
  }

  // What the parts' steps do to the fields that Agree and Asked read.

  lemma QuietTurnStep(t: T.State, e: T.Event)
    requires T.Enabled(t, e) && !e.Join? && !e.Leave? && EffectOf(t, e).Nothing?
    ensures T.Next(t, e).marks == t.marks && T.Next(t, e).threads.Keys == t.threads.Keys
    ensures T.Next(t, e).tickets == if e.SubmitPrompt? then t.tickets + [T.Prompt(e.c, e.req, e.text)] else t.tickets
  {
  }

  lemma AppendingTurnStep(t: T.State, e: T.Event)
    requires T.Structure(t) && T.Enabled(t, e) && EffectOf(t, e).Append?
    ensures T.Next(t, e).threads.Keys == t.threads.Keys && T.Next(t, e).tickets == t.tickets
    ensures exists m :: T.Next(t, e).marks == t.marks + [m]
                        && forall n :: Stamped(t.tickets, m, L.Item(n, EffectOf(t, e).frame, EffectOf(t, e).target))
    ensures EffectOf(t, e).target == "" || exists p <- t.tickets :: p.client == EffectOf(t, e).target
  {
    var t' := T.Next(t, e);
    match e {
      case ReadNote =>
        assert t'.marks == t.marks + [T.UpdateOf(t.outbox[0].turn, t.outbox[0].body)];
      case AppendResult =>
        var d := t.ended[|t.ended| - 1];
        assert t'.marks == t.marks + [T.ResultOf(d.turn, d.ticket, d.failed)];
        assert t.tickets[d.ticket] in t.tickets;
      case AppendRefusal(c) =>
        assert T.ThreadOk(t, c, t.threads[c]);
        assert t'.marks == t.marks + [T.RefusalOf(t.threads[c].ticket)];
        assert t.threads[c].p in t.tickets;
    }
  }

  lemma LogStepFrame(l: L.State, e: L.Event)
    requires L.Enabled(l, e) && !e.Connect? && !e.AppendItem?
    ensures L.Next(l, e).history == l.history && L.Next(l, e).clients.Keys == l.clients.Keys
    ensures forall id | id in l.clients :: L.Next(l, e).clients[id].start == l.clients[id].start
  {
  }

  lemma LogAppendFrame(l: L.State, target: string, frame: L.Frame)
    ensures var l' := L.Next(l, L.AppendItem(target, frame));
            && l'.history == l.history + [L.Item(l.log.last + 1, frame, target)] && l'.clients.Keys == l.clients.Keys
            && forall id | id in l.clients :: l'.clients[id].start == l.clients[id].start
  {
  }

  lemma StartsBehind(l: L.State, id: string)
    requires L.Inv(l) && id in l.clients
    ensures l.clients[id].start <= |l.history|
  {
    assert L.ClientOk(l.log, l.history, id, l.clients[id]);
  }

  /** No append: the log's items and marks stay, tickets may grow. */
  lemma QuietFrame(s: State, s': State)
    requires Agree(s) && Asked(s)
    requires s'.turns.marks == s.turns.marks && s'.log.history == s.log.history && s.turns.tickets <= s'.turns.tickets
    requires s.log.clients.Keys <= s'.log.clients.Keys
    requires forall id | id in s.log.clients :: s'.log.clients[id].start == s.log.clients[id].start
    requires forall p <- s'.turns.tickets :: p in s.turns.tickets || (p.client != "" && p.client in s'.log.clients)
    requires forall c | c in s'.turns.threads && c != "" :: c in s'.log.clients
    ensures Agree(s') && Asked(s')
  {
  }

  lemma AppendFrame(s: State, s': State, m: T.Mark, it: L.Item)
    requires Agree(s) && Asked(s) && s'.turns.marks == s.turns.marks + [m] && s'.log.history == s.log.history + [it]
    requires s'.turns.tickets == s.turns.tickets && Stamped(s.turns.tickets, m, it)
    requires s'.log.clients.Keys == s.log.clients.Keys && s'.turns.threads.Keys == s.turns.threads.Keys
    requires forall id | id in s.log.clients :: s'.log.clients[id].start == s.log.clients[id].start
    requires it.target == "" || (it.target in s.log.clients && s.log.clients[it.target].start <= |s.log.history|)
    ensures Agree(s') && Asked(s')
  {
  }

  lemma InvParts(s: State)
    requires Inv(s)
    ensures T.Structure(s.turns) && L.LogOk(s.log.log, s.log.history)
  {
  }

  lemma QuietKeepsInv(s: State, t: T.Event)
    requires Inv(s) && Enabled(s, TurnStep(t)) && EffectOf(s.turns, t).Nothing?
    ensures Inv(Next(s, TurnStep(t)))
  {
    hide L.Inv, TT.Inv;
    TT.StepKeepsInv(s.turns, t);
    QuietTurnStep(s.turns, t);
    QuietFrame(s, Next(s, TurnStep(t)));
  }

  lemma AppendKeepsInv(s: State, t: T.Event)
    requires Inv(s) && Enabled(s, TurnStep(t)) && EffectOf(s.turns, t).Append?
    ensures Inv(Next(s, TurnStep(t)))
  {
    hide L.Inv, TT.Inv, T.Structure;
    var a := EffectOf(s.turns, t);
    var s' := Next(s, TurnStep(t));
    TT.StepKeepsInv(s.turns, t);
    L.StepKeepsInv(s.log, L.AppendItem(a.target, a.frame));
    InvParts(s);
    AppendingTurnStep(s.turns, t);
    LogAppendFrame(s.log, a.target, a.frame);
    if a.target != "" {
      StartsBehind(s.log, a.target);
    }
    var m :| s'.turns.marks == s.turns.marks + [m]
        && forall n :: Stamped(s.turns.tickets, m, L.Item(n, a.frame, a.target));
    AppendFrame(s, s', m, L.Item(s.log.log.last + 1, a.frame, a.target));
  }

  lemma LogStepKeepsInv(s: State, l: L.Event)
    requires Inv(s) && Enabled(s, LogStep(l))
    ensures Inv(Next(s, LogStep(l)))
  {
    hide L.Inv, TT.Inv;
    L.StepKeepsInv(s.log, l);
    LogStepFrame(s.log, l);
    QuietFrame(s, Next(s, LogStep(l)));
  }

  lemma ConnectKeepsInv(s: State)
    requires Inv(s) && Enabled(s, Connect)
    ensures Inv(Next(s, Connect))
  {
    hide L.Inv, TT.Inv;
    L.FreshId(s.log);
    L.StepKeepsInv(s.log, L.Connect);
    TT.StepKeepsInv(s.turns, T.Join(L.ClientId(s.log.clientSeq + 1)));
    QuietFrame(s, Next(s, Connect));
  }

  lemma LeaveKeepsInv(s: State, e: Event)
    requires Inv(s) && Enabled(s, e) && (e.Detach? || e.Stop?)
    ensures Inv(Next(s, e))
  {
    hide L.Inv, TT.Inv;
    var l := if e.Detach? then L.Detach(e.id) else L.Stop;
    L.StepKeepsInv(s.log, l);
    LogStepFrame(s.log, l);
    TT.StepKeepsInv(s.turns, if e.Detach? then T.Leave(e.id) else T.Stop);
    QuietFrame(s, Next(s, e));
  }

  lemma StepKeepsInv(s: State, e: Event)
    requires Inv(s) && Enabled(s, e)
    ensures Inv(Next(s, e))
  {
    match e {
      case LogStep(l) => LogStepKeepsInv(s, l);
      case TurnStep(t) =>
        if EffectOf(s.turns, t).Nothing? {
          QuietKeepsInv(s, t);
        } else {
          AppendKeepsInv(s, t);
        }
      case Connect => ConnectKeepsInv(s);
      case Detach(_) => LeaveKeepsInv(s, e);
      case Stop => LeaveKeepsInv(s, e);
    }
  }

  lemma InitOk(maxLog: nat)
    ensures Inv(Init(maxLog))
  {
    TT.ExecKeepsInv([]);
    L.InitOk(maxLog);
  }

  lemma {:induction false} ExecKeepsInv(maxLog: nat, es: seq<Event>)
    requires Exec(Init(maxLog), es).Some?
    ensures Inv(Exec(Init(maxLog), es).value)
  {
    if es == [] {
      InitOk(maxLog);
    } else {
      ExecKeepsInv(maxLog, es[..|es| - 1]);
      StepKeepsInv(Exec(Init(maxLog), es[..|es| - 1]).value, es[|es| - 1]);
    }
  }

  // ------------------------------------------------------------------ theorems over whole runs

  /** Some sequence of events leads here. */
  ghost predicate Reachable(s: State) {
    exists maxLog, es :: Exec(Init(maxLog), es) == Some(s)
  }

  lemma ReachableInv(s: State)
    requires Reachable(s)
    ensures Inv(s)
  {
    var maxLog, es :| Exec(Init(maxLog), es) == Some(s);
    ExecKeepsInv(maxLog, es);
  }

  /** What a client's replay goroutine has written. */
  function WrittenTo(s: State, id: string): seq<L.Item>
    requires id in s.log.clients
  {
    s.log.clients[id].written
  }

  /** The mark of a log item. */
  function MarkOf(s: State, it: L.Item): T.Mark
    requires 0 < it.num <= |s.turns.marks|
  {
    s.turns.marks[it.num - 1]
  }

  ghost predicate MarkedFor(s: State, id: string, it: L.Item) {
    && 0 < it.num <= |s.turns.marks| && |s.turns.marks| == |s.log.history|
    && it == s.log.history[it.num - 1] && L.Matches(it, id) && Stamped(s.turns.tickets, MarkOf(s, it), it)
  }

  lemma StreamIsMarked(s: State, id: string, i: nat)
    requires L.Inv(s.log) && Agree(s) && id in s.log.clients && i < |WrittenTo(s, id)|
    ensures L.Increasing(WrittenTo(s, id)) && MarkedFor(s, id, WrittenTo(s, id)[i])
  {
    var c := s.log.clients[id];
    assert L.ClientOk(s.log.log, s.log.history, id, c);
    L.StreamOfClient(s.log.log, s.log.history, id, c);
    assert c.written[i] in c.written;
  }

  lemma WrittenIsMarked(s: State, id: string, i: nat)
    requires Reachable(s) && id in s.log.clients && i < |WrittenTo(s, id)|
    ensures L.Increasing(WrittenTo(s, id)) && MarkedFor(s, id, WrittenTo(s, id)[i])
  {
    hide Reachable, L.Inv, TT.Inv;
    ReachableInv(s);
    StreamIsMarked(s, id, i);
  }

  lemma MarksInOrder(s: State, i: nat, j: nat)
    requires Reachable(s) && i < j < |s.turns.marks|
    ensures TT.InTurnOrder(s.turns.marks[i], s.turns.marks[j])
  {
    ReachableInv(s);
    TT.InOrder(s.turns, i, j);
  }

  lemma MarksAnswerOnce(s: State, i: nat, j: nat, t: nat)
    requires Reachable(s) && i < j < |s.turns.marks| && TT.AnswersTicket(s.turns.marks[i], t)
    ensures !TT.AnswersTicket(s.turns.marks[j], t)
  {
    ReachableInv(s);
    TT.OneAnswer(s.turns, i, j, t);
  }

  lemma TicketsHaveClients(s: State, t: nat)
    requires Reachable(s) && t < |s.turns.tickets|
    ensures s.turns.tickets[t].client != "" && s.turns.tickets[t].client in s.log.clients
  {
    hide Reachable, L.Inv, TT.Inv;
    ReachableInv(s);
    assert s.turns.tickets[t] in s.turns.tickets;
  }

  /** Turn ordering, as a client reads it: in everything its replay goroutine writes, the result of a
      turn comes after all updates of that turn and of earlier ones, and before any update of a later
      turn, whatever other clients do between the end of a turn and its result. */
  lemma ClientReadsTurnsInOrder(s: State, id: string, i: nat, j: nat)
    requires Reachable(s) && id in s.log.clients && i < j < |WrittenTo(s, id)|
    ensures var a, b := WrittenTo(s, id)[i], WrittenTo(s, id)[j];
            && MarkedFor(s, id, a) && MarkedFor(s, id, b)
            && TT.InTurnOrder(MarkOf(s, a), MarkOf(s, b))
  {
    hide Reachable, Stamped, TT.InTurnOrder;
    WrittenIsMarked(s, id, i);
    WrittenIsMarked(s, id, j);
    MarksInOrder(s, WrittenTo(s, id)[i].num - 1, WrittenTo(s, id)[j].num - 1);
  }

  /** Exactly-once answers, safety: an answer goes to the client that asked and carries that client's
      own request id, verbatim ... */
  lemma AnswersAreOwn(s: State, id: string, i: nat, t: nat)
    requires Reachable(s) && id in s.log.clients && i < |WrittenTo(s, id)|
    ensures var it := WrittenTo(s, id)[i];
            && MarkedFor(s, id, it)
            && (TT.AnswersTicket(MarkOf(s, it), t) ==>
                  && t < |s.turns.tickets| && s.turns.tickets[t].client == id
                  && it.frame == L.Result(s.turns.tickets[t].req,
                                          if MarkOf(s, it).ResultOf? && !MarkOf(s, it).failed then L.EndTurn
                                          else L.Refusal))
  {
    hide Reachable;
    WrittenIsMarked(s, id, i);
    if TT.AnswersTicket(MarkOf(s, WrittenTo(s, id)[i]), t) {
      TicketsHaveClients(s, t);
    }
  }

  /** ... and no client reads two answers to one request. */
  lemma AnswersAreUnique(s: State, id: string, i: nat, j: nat, t: nat)
    requires Reachable(s) && id in s.log.clients && i < j < |WrittenTo(s, id)|
    ensures var a, b := WrittenTo(s, id)[i], WrittenTo(s, id)[j];
            && MarkedFor(s, id, a) && MarkedFor(s, id, b)
            && (TT.AnswersTicket(MarkOf(s, a), t) ==> !TT.AnswersTicket(MarkOf(s, b), t))
  {
    hide Reachable, Stamped, TT.AnswersTicket;
    WrittenIsMarked(s, id, i);
    WrittenIsMarked(s, id, j);
    if TT.AnswersTicket(MarkOf(s, WrittenTo(s, id)[i]), t) {
      MarksAnswerOnce(s, WrittenTo(s, id)[i].num - 1, WrittenTo(s, id)[j].num - 1, t);
    }
  }

  /** Client ids do not repeat: in every reachable state the guard of Connect excludes nothing. */
  lemma ConnectAlwaysPossible(s: State)
    requires Reachable(s)
    ensures Enabled(s, Connect)
  {
    hide Exec;
    ReachableInv(s);
    L.FreshId(s.log);
  }

  /** Asleep with nothing on its way: no token in its channel, no wake pending. */
  predicate Quiet(c: L.Client) {
    c.registered && c.conn.hasSession && c.phase.AtSelect? && !c.conn.notify && !c.needsWake
  }

  /** Exactly-once answers, delivery: when a turn has ended with its client registered, and its result
      has left the reader's hand, a client that is quiet has read that result; the only result it can
      miss is one that was trimmed before it caught up. */
  lemma AnswerReachesItsClient(s: State, e: T.End, id: string)
    requires Reachable(s) && e in s.turns.ended && e.registered && !s.turns.reader.Answering?
    requires e.ticket < |s.turns.tickets| && id == s.turns.tickets[e.ticket].client
    requires id in s.log.clients && Quiet(s.log.clients[id])
    ensures exists it <- s.log.history ::
              && it.target == id
              && it.frame == L.Result(s.turns.tickets[e.ticket].req, if e.failed then L.Refusal else L.EndTurn)
              && MarkedFor(s, id, it) && MarkOf(s, it) == T.ResultOf(e.turn, e.ticket, e.failed)
              && (it in WrittenTo(s, id) || it.num in s.log.clients[id].skipped)
  {
    hide Reachable, L.Inv;
    ReachableInv(s);
    var i := TT.EndHasResult(s.turns, e);
    ResultIsRead(s, e, id, i);
    assert s.log.history[i] in s.log.history;
  }

  lemma ResultIsRead(s: State, e: T.End, id: string, i: nat)
    requires L.Inv(s.log) && Agree(s) && Asked(s) && i < |s.turns.marks|
    requires s.turns.marks[i] == T.ResultOf(e.turn, e.ticket, e.failed)
    requires e.ticket < |s.turns.tickets| && id == s.turns.tickets[e.ticket].client
    requires id in s.log.clients && Quiet(s.log.clients[id])
    ensures var it := s.log.history[i];
            && it.target == id && it.frame == L.Result(s.turns.tickets[e.ticket].req, StopOf(e.failed))
            && MarkedFor(s, id, it) && MarkOf(s, it) == T.ResultOf(e.turn, e.ticket, e.failed)
            && (it in WrittenTo(s, id) || it.num in s.log.clients[id].skipped)
  {
    var it := s.log.history[i];
    assert Stamped(s.turns.tickets, s.turns.marks[i], it);
    assert s.turns.tickets[e.ticket] in s.turns.tickets && it.num == i + 1;
    L.QuietClient(s.log.log, s.log.history, id, s.log.clients[id]);
  }
}
