/** What the prompt serializer guarantees over whole runs: a ledger of every prompt request, the
    results that reach the log, and their order among the updates. */
module TurnTheorems {
  import opened Codec
  import opened TurnSerializer

  function EndedTickets(ended: seq<End>): (r: seq<nat>)
    ensures |r| == |ended| && forall i | 0 <= i < |r| :: r[i] == ended[i].ticket
  {
    seq(|ended|, i requires 0 <= i < |ended| => ended[i].ticket)
  }

  function LaunchedTicket(slot: Slot): seq<nat> {
    if slot.Free? || slot.Held? then [] else [slot.ticket]
  }

  function ReceivedTicket(slot: Slot): seq<nat> {
    if slot.Running? || slot.Answered? || slot.Closing? then [slot.ticket] else []
  }

  ghost predicate Distinct(a: seq<nat>) {
    forall i, j | 0 <= i < j < |a| :: a[i] != a[j]
  }

  ghost predicate IsRefusing(s: State, t: nat) {
    t < |s.tickets| && s.tickets[t].client in s.threads && s.threads[s.tickets[t].client] == Refusing(s.tickets[t], t)
  }

  /** The order in which prompts are accepted is the order in which they are launched and reach upstream. */
  ghost predicate Flow(s: State) {
    && s.accepted == EndedTickets(s.ended) + TicketOf(s.slot) + s.waiting
    && s.started == EndedTickets(s.ended) + LaunchedTicket(s.slot)
    && s.received == EndedTickets(s.ended) + ReceivedTicket(s.slot)
  }

  /** Every request is accepted, refused, or about to be refused; never two of these, never twice. */
  ghost predicate Partition(s: State) {
    && Distinct(s.accepted) && Distinct(s.refused)
    && (forall t <- s.accepted :: t < |s.tickets| && t !in s.refused && !IsRefusing(s, t))
    && (forall t <- s.refused :: t < |s.tickets| && !IsRefusing(s, t))
    && (forall t: nat | t < |s.tickets| :: t in s.accepted || t in s.refused || IsRefusing(s, t))
  }

  lemma SubmitKeepsFlow(s: State, c: string, p: Prompt)
    requires Structure(s) && Flow(s)
    ensures Flow(SubmitTo(s, c, p))
  {
  }

  lemma LaunchKeepsFlow(s: State, owner: string, p: Prompt)
    requires Flow(s) && s.slot.Held?
    ensures Flow(LaunchFor(s, owner, p))
  {
  }

  lemma EndTurnKeepsFlow(s: State, registered: bool)
    requires Structure(s) && Flow(s) && s.reader.Ending?
    ensures Flow(EndTurnOf(s, registered))
  {
    var s' := EndTurnOf(s, registered);
    assert EndedTickets(s'.ended) == EndedTickets(s.ended) + [s.slot.ticket];
    assert s.accepted == EndedTickets(s'.ended) + s.waiting;
    assert TicketOf(s'.slot) + s'.waiting == s.waiting;
  }

  /** Nothing of the ledger changes, nor the ticket in progress. */
  lemma FlowFrame(s: State, s': State)
    requires Flow(s) && s'.accepted == s.accepted && s'.started == s.started && s'.received == s.received
    requires s'.ended == s.ended && s'.waiting == s.waiting && TicketOf(s'.slot) == TicketOf(s.slot)
    requires LaunchedTicket(s'.slot) == LaunchedTicket(s.slot) && ReceivedTicket(s'.slot) == ReceivedTicket(s.slot)
    ensures Flow(s')
  {
  }

  lemma OthersKeepFlow(s: State, e: Event)
    requires Structure(s) && Flow(s) && Enabled(s, e)
    requires !e.SubmitPrompt? && !e.LaunchPrompt? && !e.LaunchNext? && !e.EndTurnStep? && !e.UpTake?
    ensures Flow(Next(s, e))
  {
    if e.Push? {
      assert ThreadOk(s, e.c, s.threads[e.c]);
    }
    hide Flow;
    FlowFrame(s, Next(s, e));
  }

  lemma TakeKeepsFlow(s: State)
    requires Structure(s) && Flow(s) && s.pipe != []
    ensures Flow(TakeLine(s))
  {
  }

  lemma StepKeepsFlow(s: State, e: Event)
    requires Structure(s) && Flow(s) && Enabled(s, e)
    ensures Flow(Next(s, e))
  {
    match e {
      case SubmitPrompt(c, req, text) => SubmitKeepsFlow(s, c, Prompt(c, req, text));
      case LaunchPrompt(c) =>
        assert ThreadOk(s, c, s.threads[c]);
        LaunchKeepsFlow(s, c, s.threads[c].p);
      case LaunchNext => LaunchKeepsFlow(s, "", s.reader.p);
      case EndTurnStep(registered) => EndTurnKeepsFlow(s, registered);
      case UpTake => TakeKeepsFlow(s);
      case _ => OthersKeepFlow(s, e);
    }
  }

  /** Requests neither arrive nor change status. */
  lemma PartitionFrame(s: State, s': State)
    requires Partition(s) && s'.accepted == s.accepted && s'.refused == s.refused && s'.tickets == s.tickets
    requires forall t: nat | t < |s.tickets| :: IsRefusing(s', t) <==> IsRefusing(s, t)
    ensures Partition(s')
  {
  }

  lemma DistinctGrows(a: seq<nat>, n: nat)
    requires Distinct(a) && n !in a
    ensures Distinct(a + [n])
  {
    assert forall i | 0 <= i < |a| :: a[i] in a;
  }

  lemma SubmitKeepsPartition(s: State, c: string, p: Prompt)
    requires Partition(s) && Is(s, c, Listening) && p.client == c
    ensures Partition(SubmitTo(s, c, p))
  {
    var s' := SubmitTo(s, c, p);
    var n := |s.tickets|;
    forall t: nat | t < n ensures IsRefusing(s', t) <==> IsRefusing(s, t) { }
    DistinctGrows(s.accepted, n);
    assert n !in s.refused;
    if s'.accepted == s.accepted {
      assert IsRefusing(s', n);
    } else {
      assert s'.accepted == s.accepted + [n] && !IsRefusing(s', n);
    }
  }

  lemma RefusalKeepsPartition(s: State, c: string)
    requires Structure(s) && Partition(s) && Enabled(s, AppendRefusal(c))
    ensures Partition(Next(s, AppendRefusal(c)))
  {
    var s' := Next(s, AppendRefusal(c));
    var t0 := s.threads[c].ticket;
    assert ThreadOk(s, c, s.threads[c]);
    assert IsRefusing(s, t0);
    forall t: nat | t < |s.tickets| ensures IsRefusing(s', t) <==> IsRefusing(s, t) && t != t0 { }
    forall t: nat | t < |s.tickets| ensures t in s'.accepted || t in s'.refused || IsRefusing(s', t) {
      assert t in s.accepted || t in s.refused || IsRefusing(s, t);
    }
  }

  lemma StepKeepsPartition(s: State, e: Event)
    requires Structure(s) && Partition(s) && Enabled(s, e)
    ensures Partition(Next(s, e))
  {
    match e {
      case SubmitPrompt(c, req, text) => SubmitKeepsPartition(s, c, Prompt(c, req, text));
      case AppendRefusal(c) => RefusalKeepsPartition(s, c);
      case Join(_) => ThreadsKeepPartition(s, e);
      case Leave(_) => ThreadsKeepPartition(s, e);
      case LaunchPrompt(_) => ThreadsKeepPartition(s, e);
      case Push(_, _) => ThreadsKeepPartition(s, e);
      case AllocOther(_) => ThreadsKeepPartition(s, e);
      case PushOther(_, _) => ThreadsKeepPartition(s, e);
      case _ => OthersKeepPartition(s, e);
    }
  }

  /** The events of a client's thread that is not refusing a prompt. */
  lemma ThreadsKeepPartition(s: State, e: Event)
    requires Partition(s) && Enabled(s, e)
    requires e.Join? || e.Leave? || e.LaunchPrompt? || e.Push? || e.AllocOther? || e.PushOther?
    ensures Partition(Next(s, e))
  {
    PartitionFrame(s, Next(s, e));
  }

  lemma OthersKeepPartition(s: State, e: Event)
    requires Partition(s) && Enabled(s, e)
    requires !e.SubmitPrompt? && !e.AppendRefusal?
    requires !(e.Join? || e.Leave? || e.LaunchPrompt? || e.Push? || e.AllocOther? || e.PushOther?)
    ensures Partition(Next(s, e))
  {
    assert Next(s, e).threads == s.threads;
    PartitionFrame(s, Next(s, e));
  }

  // ------------------------------------------------------------------ results in the log

  /** The results due: one for each ended turn whose client was still registered. */
  function Answers(ended: seq<End>): seq<Mark> {
    if ended == [] then []
    else
      var e := ended[|ended| - 1];
      Answers(ended[..|ended| - 1]) + if e.registered then [ResultOf(e.turn, e.ticket, e.failed)] else []
  }

  function Results(marks: seq<Mark>): seq<Mark> {
    if marks == [] then []
    else
      var m := marks[|marks| - 1];
      Results(marks[..|marks| - 1]) + if m.ResultOf? then [m] else []
  }

  function Refusals(marks: seq<Mark>): seq<nat> {
    if marks == [] then []
    else
      var m := marks[|marks| - 1];
      Refusals(marks[..|marks| - 1]) + if m.RefusalOf? then [m.ticket] else []
  }

  function DueResult(s: State): seq<Mark> {
    if s.reader.Answering? then LastResult(s) else []
  }

  /** The log holds exactly the results due, in the order in which turns ended, except the one the
      reader is about to append; and exactly the refusals made. */
  ghost predicate ResultsOk(s: State) {
    && Results(s.marks) + DueResult(s) == Answers(s.ended)
    && Refusals(s.marks) == s.refused
  }

  lemma SnocMark(marks: seq<Mark>, m: Mark)
    ensures Results(marks + [m]) == Results(marks) + if m.ResultOf? then [m] else []
    ensures Refusals(marks + [m]) == Refusals(marks) + if m.RefusalOf? then [m.ticket] else []
  {
    assert (marks + [m])[..|marks|] == marks;
  }

  lemma EndTurnKeepsResults(s: State, registered: bool)
    requires Structure(s) && ResultsOk(s) && s.reader.Ending?
    ensures ResultsOk(EndTurnOf(s, registered))
  {
    var s' := EndTurnOf(s, registered);
    assert s'.ended[..|s.ended|] == s.ended;
  }

  lemma ResultsFrame(s: State, s': State)
    requires ResultsOk(s) && s'.marks == s.marks && s'.ended == s.ended && s'.refused == s.refused
    requires s'.reader.Answering? <==> s.reader.Answering?
    ensures ResultsOk(s')
  {
  }

  lemma ClientsKeepResults(s: State, e: Event)
    requires ResultsOk(s) && Enabled(s, e)
    requires e.Join? || e.Leave? || e.Stop? || e.SubmitPrompt? || e.LaunchPrompt? || e.Push? || e.AllocOther?
             || e.PushOther? || e.Forget?
    ensures ResultsOk(Next(s, e))
  {
    hide ResultsOk;
    ResultsFrame(s, Next(s, e));
  }

  lemma LinesKeepResults(s: State, e: Event)
    requires ResultsOk(s) && Enabled(s, e)
    requires e.UpTake? || e.UpNote? || e.UpReply?
    ensures ResultsOk(Next(s, e))
  {
    hide ResultsOk;
    ResultsFrame(s, Next(s, e));
  }

  lemma ReaderKeepsResults(s: State, e: Event)
    requires ResultsOk(s) && Enabled(s, e) && (e.LaunchNext? || e.PushNext?)
    ensures ResultsOk(Next(s, e))
  {
    ResultsFrame(s, Next(s, e));
  }

  lemma ReadReplyKeepsResults(s: State)
    requires ResultsOk(s) && Enabled(s, ReadReply)
    ensures ResultsOk(ReadReplyFrom(s))
  {
    ResultsFrame(s, ReadReplyFrom(s));
  }

  lemma AppendResultKeepsResults(s: State)
    requires Structure(s) && ResultsOk(s) && s.reader.Answering?
    ensures ResultsOk(Next(s, AppendResult))
  {
    assert s.ended != [];
    var s' := s.(reader := After(s.reader.next), marks := s.marks + LastResult(s));
    assert Next(s, AppendResult) == s' && !s'.reader.Answering?;
    hide Structure, Next, ResultsOk;
    ResultAppended(s, s', LastResult(s)[0]);
  }

  lemma ResultAppended(s: State, s': State, m: Mark)
    requires ResultsOk(s) && s.reader.Answering? && LastResult(s) == [m] && m.ResultOf?
    requires s'.marks == s.marks + [m] && !s'.reader.Answering? && s'.ended == s.ended && s'.refused == s.refused
    ensures ResultsOk(s')
  {
    hide Results, Refusals, Answers, LastResult;
    SnocMark(s.marks, m);
  }

  lemma UpdateKeepsResults(s: State, e: Event)
    requires Structure(s) && ResultsOk(s) && Enabled(s, e) && (e.AppendRefusal? || e.ReadNote?)
    ensures ResultsOk(Next(s, e))
  {
    SnocMark(s.marks, if e.ReadNote? then UpdateOf(s.outbox[0].turn, s.outbox[0].body)
        else RefusalOf(s.threads[e.c].ticket));
  }

  lemma StepKeepsResults(s: State, e: Event)
    requires Structure(s) && ResultsOk(s) && Enabled(s, e)
    ensures ResultsOk(Next(s, e))
  {
    match e {
      case AppendRefusal(c) => UpdateKeepsResults(s, e);
      case ReadNote => UpdateKeepsResults(s, e);
      case AppendResult => AppendResultKeepsResults(s);
      case EndTurnStep(registered) => EndTurnKeepsResults(s, registered);
      case UpTake => LinesKeepResults(s, e);
      case UpNote(_, _) => LinesKeepResults(s, e);
      case UpReply(_, _) => LinesKeepResults(s, e);
      case ReadReply => ReadReplyKeepsResults(s);
      case LaunchNext => ReaderKeepsResults(s, e);
      case PushNext(_) => ReaderKeepsResults(s, e);
      case _ => ClientsKeepResults(s, e);
    }
  }

  // ------------------------------------------------------------------ turn order

  /** The place of an item in the order of turns: the updates of turn k, then its result, then those
      of later turns. 0 is outside that order (refusals, and updates outside any turn). */
  function MarkKey(m: Mark): nat {
    match m
    case UpdateOf(turn, _) => 2 * turn
    case ResultOf(turn, _, _) => 2 * turn + 1
    case RefusalOf(_) => 0
  }

  function MarkKeys(marks: seq<Mark>): (r: seq<nat>)
    ensures |r| == |marks| && forall i | 0 <= i < |r| :: r[i] == MarkKey(marks[i])
  {
    seq(|marks|, i requires 0 <= i < |marks| => MarkKey(marks[i]))
  }

  /** May stand before: strictly less, or an equal even key (two updates of one turn). */
  predicate Before(a: nat, b: nat) {
    a == 0 || b == 0 || a < b || (a == b && a % 2 == 0)
  }

  ghost predicate Ordered(keys: seq<nat>) {
    forall i, j | 0 <= i < j < |keys| :: Before(keys[i], keys[j])
  }

  function MsgKey(turns: set<nat>, m: Msg): nat {
    match m
    case Note(turn, _) => 2 * turn
    case Reply(id, _) => if id in turns then 2 * id + 1 else 0
  }

  function MsgKeys(turns: set<nat>, outbox: seq<Msg>): (r: seq<nat>)
    ensures |r| == |outbox| && forall i | 0 <= i < |r| :: r[i] == MsgKey(turns, outbox[i])
  {
    seq(|outbox|, i requires 0 <= i < |outbox| => MsgKey(turns, outbox[i]))
  }

  /** The result the upstream reader has in hand. */
  function ReaderKeys(s: State): seq<nat> {
    if s.reader.Ending? && s.slot.Closing? then [2 * s.slot.turn + 1]
    else MarkKeys(DueResult(s))
  }

  /** What is in the log, in the reader's hand, and on its way from upstream. */
  function Trail(s: State): seq<nat> {
    MarkKeys(s.marks) + ReaderKeys(s) + MsgKeys(s.turns, s.outbox)
  }

  function Limit(s: State): nat {
    match s.slot
    case Free => 2 * s.z.nextId + 1
    case Held(_, _) => 2 * s.z.nextId + 1
    case Launched(_, turn, _) => if turn == 0 then 0 else 2 * turn - 1
    case Piped(turn, _) => if turn == 0 then 0 else 2 * turn - 1
    case Lost(turn, _) => if turn == 0 then 0 else 2 * turn - 1
    case Running(turn, _) => 2 * turn
    case Answered(turn, _, _) => 2 * turn + 1
    case Closing(turn, _, _) => 2 * turn + 1
  }

  ghost predicate Ranked(keys: seq<nat>, limit: nat) {
    Ordered(keys) && forall k <- keys :: k <= limit
  }

  ghost predicate OrderOk(s: State) {
    Ranked(Trail(s), Limit(s))
  }

  lemma RankedGrows(keys: seq<nat>, limit: nat, k: nat, limit': nat)
    requires Ranked(keys, limit) && limit <= limit' && k <= limit'
    requires forall x: nat | x <= limit :: Before(x, k)
    ensures Ranked(keys + [k], limit')
  {
    assert forall i | 0 <= i < |keys| :: keys[i] in keys;
  }

  lemma RankedWithout(a: seq<nat>, b: seq<nat>, c: seq<nat>, limit: nat)
    requires Ranked(a + b + c, limit)
    ensures Ranked(a + c, limit)
  {
    var t, u := a + b + c, a + c;
    forall i, j | 0 <= i < j < |u| ensures Before(u[i], u[j]) {
      var i', j' := if i < |a| then i else i + |b|, if j < |a| then j else j + |b|;
      assert u[i] == t[i'] && u[j] == t[j'];
    }
    forall k <- u ensures k in t { }
  }

  lemma RankedWithZero(a: seq<nat>, c: seq<nat>, limit: nat)
    requires Ranked(a + c, limit)
    ensures Ranked(a + [0] + c, limit)
  {
    var t, u := a + c, a + [0] + c;
    forall i, j | 0 <= i < j < |u| ensures Before(u[i], u[j]) {
      if i != |a| && j != |a| {
        var i', j' := if i < |a| then i else i - 1, if j < |a| then j else j - 1;
        assert u[i] == t[i'] && u[j] == t[j'];
      }
    }
    forall k <- u ensures k == 0 || k in t { }
  }

  lemma RankedWidens(keys: seq<nat>, limit: nat, limit': nat)
    requires Ranked(keys, limit) && limit <= limit'
    ensures Ranked(keys, limit')
  {
  }

  lemma EmitKeepsOrder(s: State, s': State, m: Msg)
    requires OrderOk(s) && s'.outbox == s.outbox + [m] && s'.marks == s.marks && s'.turns == s.turns
    requires ReaderKeys(s') == ReaderKeys(s) && Limit(s) <= Limit(s')
    requires MsgKey(s.turns, m) <= Limit(s') && forall k: nat | k <= Limit(s) :: Before(k, MsgKey(s.turns, m))
    ensures OrderOk(s')
  {
    assert MsgKeys(s'.turns, s'.outbox) == MsgKeys(s.turns, s.outbox) + [MsgKey(s.turns, m)];
    assert Trail(s') == Trail(s) + [MsgKey(s.turns, m)];
    RankedGrows(Trail(s), Limit(s), MsgKey(s.turns, m), Limit(s'));
  }

  lemma UpstreamKeepsOrder(s: State, e: Event)
    requires Structure(s) && OrderOk(s) && Enabled(s, e) && (e.UpNote? || e.UpReply?)
    ensures OrderOk(Next(s, e))
  {
    var s' := Next(s, e);
    EmitKeepsOrder(s, s', s'.outbox[|s.outbox|]);
  }

  lemma MarkKeysSnoc(marks: seq<Mark>, m: Mark)
    ensures MarkKeys(marks + [m]) == MarkKeys(marks) + [MarkKey(m)]
  {
  }

  lemma ReadNoteKeepsOrder(s: State, s': State)
    requires OrderOk(s) && s.reader.Reading? && s.outbox != [] && s.outbox[0].Note?
    requires s' == s.(outbox := s.outbox[1..], marks := s.marks + [UpdateOf(s.outbox[0].turn, s.outbox[0].body)])
    ensures OrderOk(s')
  {
    var k, tail := MsgKey(s.turns, s.outbox[0]), MsgKeys(s.turns, s'.outbox);
    MarkKeysSnoc(s.marks, UpdateOf(s.outbox[0].turn, s.outbox[0].body));
    MsgKeysHead(s.turns, s.outbox);
    hide MarkKeys, MsgKeys, MsgKey, Ranked;
    Regroup(MarkKeys(s.marks), k, tail);
    Regroup(MarkKeys(s.marks) + [k], k, tail);
    assert Trail(s') == Trail(s);
  }

  /** A reply read either is the turn's own, and moves into the reader's hand, or is none of ours. */
  lemma ReplyRead(s: State)
    requires Structure(s) && Enabled(s, ReadReply)
    ensures var s' := ReadReplyFrom(s);
            if s'.reader.Ending? then
              s.slot.Answered? && s'.slot.Closing? && s'.slot.turn == s.slot.turn
              && MsgKey(s.turns, s.outbox[0]) == 2 * s.slot.turn + 1
            else s' == s.(outbox := s.outbox[1..])
  {
  }

  lemma MsgKeysHead(turns: set<nat>, outbox: seq<Msg>)
    requires outbox != []
    ensures MsgKeys(turns, outbox) == [MsgKey(turns, outbox[0])] + MsgKeys(turns, outbox[1..])
  {
  }

  lemma Regroup(a: seq<nat>, k: nat, c: seq<nat>)
    ensures a + [] + ([k] + c) == a + [k] + c
    ensures a + [] + c == a + c
  {
  }

  lemma DropHeadKeepsOrder(s: State, s': State)
    requires OrderOk(s) && s.reader.Reading? && s.outbox != [] && s' == s.(outbox := s.outbox[1..])
    ensures OrderOk(s')
  {
    var k, tail := MsgKey(s.turns, s.outbox[0]), MsgKeys(s.turns, s'.outbox);
    MsgKeysHead(s.turns, s.outbox);
    Regroup(MarkKeys(s.marks), k, tail);
    RankedWithout(MarkKeys(s.marks), [k], tail, Limit(s));
  }

  lemma TakeHeadKeepsOrder(s: State, s': State)
    requires OrderOk(s) && s.reader.Reading? && s.outbox != [] && s.slot.Answered?
    requires MsgKey(s.turns, s.outbox[0]) == 2 * s.slot.turn + 1
    requires s'.marks == s.marks && s'.turns == s.turns && s'.outbox == s.outbox[1..]
    requires s'.reader.Ending? && s'.slot.Closing? && s'.slot.turn == s.slot.turn
    ensures OrderOk(s')
  {
    MsgKeysHead(s.turns, s.outbox);
    Regroup(MarkKeys(s.marks), 2 * s.slot.turn + 1, MsgKeys(s.turns, s'.outbox));
  }

  lemma ReadReplyKeepsOrder(s: State)
    requires Structure(s) && OrderOk(s) && Enabled(s, ReadReply)
    ensures OrderOk(ReadReplyFrom(s))
  {
    var s' := ReadReplyFrom(s);
    ReplyRead(s);
    if s'.reader.Ending? {
      TakeHeadKeepsOrder(s, s');
    } else {
      DropHeadKeepsOrder(s, s');
    }
  }

  lemma EndTurnKeepsOrder(s: State, registered: bool)
    requires Structure(s) && OrderOk(s) && s.reader.Ending?
    ensures OrderOk(EndTurnOf(s, registered))
  {
    var s' := EndTurnOf(s, registered);
    assert Limit(s) <= Limit(s');
    if registered {
      assert ReaderKeys(s') == ReaderKeys(s);
      QuietKeepsOrder(s, s');
    } else {
      assert Trail(s') == MarkKeys(s.marks) + MsgKeys(s.turns, s.outbox);
      RankedWithout(MarkKeys(s.marks), ReaderKeys(s), MsgKeys(s.turns, s.outbox), Limit(s));
      RankedWidens(Trail(s'), Limit(s), Limit(s'));
    }
  }

  lemma LaunchKeepsOrder(s: State, s': State, owner: string, p: Prompt)
    requires Structure(s) && OrderOk(s) && s.slot.Held?
    requires s' == LaunchFor(s, owner, p).(threads := s'.threads, reader := s'.reader)
    requires ReaderKeys(s') == ReaderKeys(s)
    ensures OrderOk(s')
  {
    assert MsgKeys(s'.turns, s.outbox) == MsgKeys(s.turns, s.outbox);
    QuietKeepsOrder(s, s');
  }

  lemma SubmitKeepsOrder(s: State, c: string, p: Prompt)
    requires Structure(s) && OrderOk(s)
    ensures OrderOk(SubmitTo(s, c, p))
  {
    QuietKeepsOrder(s, SubmitTo(s, c, p));
  }

  lemma AppendResultKeepsOrder(s: State)
    requires Structure(s) && OrderOk(s) && s.reader.Answering?
    ensures OrderOk(Next(s, AppendResult))
  {
    var s' := Next(s, AppendResult);
    assert MarkKeys(s'.marks) == MarkKeys(s.marks) + MarkKeys(LastResult(s));
    assert ReaderKeys(s') == [];
    assert Trail(s') == Trail(s);
  }

  lemma RefusalKeepsOrder(s: State, s': State, t: nat)
    requires OrderOk(s) && s'.marks == s.marks + [RefusalOf(t)] && s'.outbox == s.outbox && s'.turns == s.turns
    requires ReaderKeys(s') == ReaderKeys(s) && Limit(s') == Limit(s)
    ensures OrderOk(s')
  {
    var rest := ReaderKeys(s) + MsgKeys(s.turns, s.outbox);
    assert Trail(s) == MarkKeys(s.marks) + rest;
    assert MarkKeys(s'.marks) == MarkKeys(s.marks) + [0];
    assert Trail(s') == MarkKeys(s.marks) + [0] + rest;
    RankedWithZero(MarkKeys(s.marks), rest, Limit(s));
  }

  lemma QuietKeepsOrder(s: State, s': State)
    requires OrderOk(s) && s'.marks == s.marks && s'.outbox == s.outbox
             && MsgKeys(s'.turns, s.outbox) == MsgKeys(s.turns, s.outbox)
    requires ReaderKeys(s') == ReaderKeys(s) && Limit(s) <= Limit(s')
    ensures OrderOk(s')
  {
    assert Trail(s') == Trail(s);
  }

  lemma ClientsKeepOrder(s: State, e: Event)
    requires Structure(s) && OrderOk(s) && Enabled(s, e)
    requires e.Join? || e.Leave? || e.Stop? || e.AllocOther? || e.PushOther? || e.Forget?
    ensures OrderOk(Next(s, e))
  {
    QuietKeepsOrder(s, Next(s, e));
  }

  lemma LinesKeepOrder(s: State, e: Event)
    requires Structure(s) && OrderOk(s) && Enabled(s, e)
    requires e.Push? || e.UpTake? || e.PushNext?
    ensures OrderOk(Next(s, e))
  {
    hide OrderOk, MsgKeys;
    QuietKeepsOrder(s, Next(s, e));
  }

  lemma ReaderKeepsOrder(s: State, e: Event)
    requires Structure(s) && OrderOk(s) && Enabled(s, e)
    requires e.ReadNote? || e.ReadReply? || e.EndTurnStep? || e.AppendResult? || e.LaunchNext? || e.PushNext?
    ensures OrderOk(Next(s, e))
  {
    assert e.LaunchNext? ==> s.slot.Held?;
    hide OrderOk, Structure;
    match e {
      case ReadNote => ReadNoteKeepsOrder(s, Next(s, e));
      case ReadReply => ReadReplyKeepsOrder(s);
      case EndTurnStep(registered) => EndTurnKeepsOrder(s, registered);
      case AppendResult => AppendResultKeepsOrder(s);
      case LaunchNext => LaunchKeepsOrder(s, Next(s, e), "", s.reader.p);
      case PushNext(_) => LinesKeepOrder(s, e);
    }
  }

  lemma StepKeepsOrder(s: State, e: Event)
    requires Structure(s) && OrderOk(s) && Enabled(s, e)
    ensures OrderOk(Next(s, e))
  {
    assert e.LaunchPrompt? ==> ThreadOk(s, e.c, s.threads[e.c]);
    hide OrderOk, Structure;
    match e {
      case SubmitPrompt(c, req, text) => SubmitKeepsOrder(s, c, Prompt(c, req, text));
      case LaunchPrompt(c) =>
        LaunchKeepsOrder(s, Next(s, e), c, s.threads[c].p);
      case AppendRefusal(c) => RefusalKeepsOrder(s, Next(s, e), s.threads[c].ticket);
      case Push(_, _) => LinesKeepOrder(s, e);
      case UpTake => LinesKeepOrder(s, e);
      case UpNote(_, _) => UpstreamKeepsOrder(s, e);
      case UpReply(_, _) => UpstreamKeepsOrder(s, e);
      case Join(_) => ClientsKeepOrder(s, e);
      case Leave(_) => ClientsKeepOrder(s, e);
      case Stop => ClientsKeepOrder(s, e);
      case AllocOther(_) => ClientsKeepOrder(s, e);
      case PushOther(_, _) => ClientsKeepOrder(s, e);
      case Forget(_) => ClientsKeepOrder(s, e);
      case _ => ReaderKeepsOrder(s, e);
    }
  }

  // ------------------------------------------------------------------ theorems over whole runs

  ghost predicate Inv(s: State) {
    Structure(s) && Flow(s) && Partition(s) && ResultsOk(s) && OrderOk(s)
  }

  lemma StepKeepsInv(s: State, e: Event)
    requires Inv(s) && Enabled(s, e)
    ensures Inv(Next(s, e))
  {
    StepKeepsStructure(s, e);
    StepKeepsFlow(s, e);
    StepKeepsPartition(s, e);
    StepKeepsResults(s, e);
    StepKeepsOrder(s, e);
  }

  lemma {:induction false} ExecKeepsInv(es: seq<Event>)
    requires Exec(Init(), es).Some?
    ensures Inv(Exec(Init(), es).value)
  {
    if es == [] {
      InitStructure();
      assert Trail(Init()) == [];
    } else {
      ExecKeepsInv(es[..|es| - 1]);
      StepKeepsInv(Exec(Init(), es[..|es| - 1]).value, es[|es| - 1]);
    }
  }

  /** Some sequence of events leads here. */
  ghost predicate Reachable(s: State) {
    exists es :: Exec(Init(), es) == Some(s)
  }

  lemma ReachableInv(s: State)
    requires Reachable(s)
    ensures Inv(s)
  {
    var es :| Exec(Init(), es) == Some(s);
    ExecKeepsInv(es);
  }

  /** Serialization, in every interleaving: a free session has an empty queue and at most 50 wait; at
      most one prompt is unanswered upstream, and it is the in-flight one; prompts are launched, and
      received upstream, in the order accepted, none skipped and at most one ahead of those
      received; and the one line on its way carries the in-flight id and its client's text. */
  lemma PromptsAreSerialized(s: State)
    requires Reachable(s)
    ensures (!s.z.busy ==> s.z.queue == []) && |s.z.queue| <= 50
    ensures |s.open| <= 1 && forall id <- s.open :: id == s.z.inflightId
    ensures s.received <= s.started <= s.accepted && |s.started| <= |s.received| + 1
    ensures |s.ended| <= |s.received| && |s.accepted| == |s.ended| + (if s.z.busy then 1 else 0) + |s.z.queue|
    ensures forall i, j | 0 <= i < j < |s.pipe| && s.pipe[i].PromptLine? :: !s.pipe[j].PromptLine?
    ensures forall i | 0 <= i < |s.pipe| && s.pipe[i].PromptLine? ::
              s.pipe[i].id == s.z.inflightId && |s.started| > 0
              && var t := s.started[|s.started| - 1]; t < |s.tickets| && s.pipe[i].text == s.tickets[t].text
  {
    ReachableInv(s);
  }

  /** A prompt starts at once exactly if no accepted one is unfinished, and is refused exactly if one is in
      progress and fifty wait; else it joins the queue's end. */
  lemma PromptIsRefusedIff(s: State, c: string, req: RawId, text: string)
    requires Reachable(s) && Enabled(s, SubmitPrompt(c, req, text))
    ensures
      var s', p := Next(s, SubmitPrompt(c, req, text)), Prompt(c, req, text);
      && (s'.threads[c].Claimed? <==> |s.accepted| == |s.ended|)
      && (s'.threads[c].Refusing? <==> |s.accepted| == |s.ended| + 51)
      && (s'.z.queue == if |s.ended| < |s.accepted| < |s.ended| + 51 then s.z.queue + [p] else s.z.queue)
      && s'.tickets == s.tickets + [p]
      && s'.accepted == if s'.threads[c].Refusing? then s.accepted else s.accepted + [|s.tickets|]
  {
    PromptsAreSerialized(s);
  }

  /** A reply to anything but the prompt in flight (a handshake, a mode switch) never ends a turn,
      and the reply to the prompt in flight always does. */
  lemma OnlyThePromptEndsATurn(s: State)
    requires Reachable(s) && Enabled(s, ReadReply)
    ensures Next(s, ReadReply).reader.Ending? <==> s.outbox[0].id in s.turns
    ensures s.outbox[0].id in s.turns ==> s.outbox[0].id == s.z.inflightId
  {
    ReachableInv(s);
  }

  /** Conservation: each request is exactly one of accepted, refused, or about to be refused; an
      accepted one is exactly one of ended, in progress, or queued; and none appears twice. */
  lemma EveryRequestHasOneFate(s: State, t: nat)
    requires Reachable(s) && t < |s.tickets|
    ensures t in s.accepted || t in s.refused || IsRefusing(s, t)
    ensures !(t in s.accepted && t in s.refused) && !((t in s.accepted || t in s.refused) && IsRefusing(s, t))
    ensures t in s.accepted <==> t in EndedTickets(s.ended) || t in TicketOf(s.slot) || t in s.waiting
    ensures Distinct(EndedTickets(s.ended) + TicketOf(s.slot) + s.waiting) && Distinct(s.refused)
  {
    ReachableInv(s);
  }

  /** Exactly the results due are in the log, each once: those of the ended turns whose client was
      registered when the turn ended, in the order in which the turns ended, less the one the reader
      still has in hand; and one refusal for each refused request. */
  lemma ResultsAreExact(s: State)
    requires Reachable(s)
    ensures Results(s.marks) + DueResult(s) == Answers(s.ended) && |DueResult(s)| <= 1
    ensures Refusals(s.marks) == s.refused
    ensures Distinct(EndedTickets(s.ended)) && Distinct(s.refused)
            && forall t <- s.refused :: t !in EndedTickets(s.ended)
  {
    ReachableInv(s);
    var e := EndedTickets(s.ended);
    assert forall i | 0 <= i < |e| :: e[i] == s.accepted[i];
  }

  /** What the keys say about two items of the log, the first before the second. */
  ghost predicate InTurnOrder(a: Mark, b: Mark) {
    && (a.ResultOf? && b.UpdateOf? && b.turn != 0 ==> a.turn < b.turn)
    && (a.UpdateOf? && a.turn != 0 && b.ResultOf? ==> a.turn <= b.turn)
    && (a.UpdateOf? && b.UpdateOf? && a.turn != 0 && b.turn != 0 ==> a.turn <= b.turn)
    && (a.ResultOf? && b.ResultOf? ==> a.turn < b.turn)
  }

  lemma KeysTell(a: Mark, b: Mark)
    requires Before(MarkKey(a), MarkKey(b))
    ensures InTurnOrder(a, b)
  {
  }

  lemma InOrder(s: State, i: nat, j: nat)
    requires OrderOk(s) && i < j < |s.marks|
    ensures InTurnOrder(s.marks[i], s.marks[j])
  {
    var k := Trail(s);
    assert k[i] == MarkKey(s.marks[i]) && k[j] == MarkKey(s.marks[j]);
    KeysTell(s.marks[i], s.marks[j]);
  }

  /** Turn order: in the log, the result of turn k comes after every update of turns up to k, before
      every update of a later turn, and once. */
  lemma TurnsDoNotOverlap(s: State, i: nat, j: nat)
    requires Reachable(s) && i < j < |s.marks|
    ensures InTurnOrder(s.marks[i], s.marks[j])
  {
    ReachableInv(s);
    InOrder(s, i, j);
  }

  // ------------------------------------------------------------------ one answer per request

  ghost predicate AnswersTicket(m: Mark, t: nat) {
    (m.ResultOf? || m.RefusalOf?) && m.ticket == t
  }

  lemma {:induction false} ResultsMember(marks: seq<Mark>, m: Mark)
    ensures m in Results(marks) <==> m in marks && m.ResultOf?
  {
    if marks != [] {
      ResultsMember(marks[..|marks| - 1], m);
      assert marks == marks[..|marks| - 1] + [marks[|marks| - 1]];
    }
  }

  lemma {:induction false} RefusalsMember(marks: seq<Mark>, i: nat)
    requires i < |marks| && marks[i].RefusalOf?
    ensures marks[i].ticket in Refusals(marks)
  {
    if i < |marks| - 1 {
      RefusalsMember(marks[..|marks| - 1], i);
    }
  }

  lemma {:induction false} RefusalsOnce(marks: seq<Mark>, i: nat, j: nat)
    requires i < j < |marks| && marks[i].RefusalOf? && marks[j].RefusalOf? && Distinct(Refusals(marks))
    ensures marks[i].ticket != marks[j].ticket
  {
    var p := marks[..|marks| - 1];
    var r := Refusals(marks);
    assert Distinct(Refusals(p)) by {
      assert forall k | 0 <= k < |Refusals(p)| :: r[k] == Refusals(p)[k];
    }
    if j < |p| {
      RefusalsOnce(p, i, j);
    } else {
      RefusalsMember(p, i);
      var k :| 0 <= k < |Refusals(p)| && Refusals(p)[k] == marks[i].ticket;
      assert r[k] == marks[i].ticket && r[|r| - 1] == marks[j].ticket;
    }
  }

  lemma {:induction false} AnswersMember(ended: seq<End>, m: Mark)
    ensures m in Answers(ended) <==> exists e <- ended :: e.registered && m == ResultOf(e.turn, e.ticket, e.failed)
  {
    if ended != [] {
      var p, l := ended[..|ended| - 1], ended[|ended| - 1];
      AnswersMember(p, m);
      assert ended == p + [l];
      assert l in ended;
      assert forall e :: e in ended <==> e in p || e == l;
    }
  }

  /** A result in the log is that of an ended turn whose client was registered. */
  lemma ResultHasEnd(s: State, m: Mark) returns (i: nat)
    requires ResultsOk(s) && m in s.marks && m.ResultOf?
    ensures i < |s.ended| && s.ended[i].registered
            && m == ResultOf(s.ended[i].turn, s.ended[i].ticket, s.ended[i].failed)
  {
    ResultsMember(s.marks, m);
    AnswersMember(s.ended, m);
    assert m in Answers(s.ended);
    var e :| e in s.ended && e.registered && m == ResultOf(e.turn, e.ticket, e.failed);
    i :| 0 <= i < |s.ended| && s.ended[i] == e;
  }

  lemma EndedOnce(s: State, i: nat, j: nat)
    requires Flow(s) && Partition(s) && i < |s.ended| && j < |s.ended| && s.ended[i].ticket == s.ended[j].ticket
    ensures i == j
    ensures s.ended[i].ticket in s.accepted
  {
    assert s.accepted[i] == s.ended[i].ticket && s.accepted[j] == s.ended[j].ticket;
  }

  lemma OneAnswer(s: State, i: nat, j: nat, t: nat)
    requires Flow(s) && Partition(s) && ResultsOk(s) && OrderOk(s)
    requires i < j < |s.marks| && AnswersTicket(s.marks[i], t)
    ensures !AnswersTicket(s.marks[j], t)
  {
    var a, b := s.marks[i], s.marks[j];
    if AnswersTicket(b, t) {
      if a.RefusalOf? && b.RefusalOf? {
        RefusalsOnce(s.marks, i, j);
      } else if a.ResultOf? && b.ResultOf? {
        var x := ResultHasEnd(s, a);
        var y := ResultHasEnd(s, b);
        EndedOnce(s, x, y);
        InOrder(s, i, j);
      } else {
        var x := ResultHasEnd(s, if a.ResultOf? then a else b);
        EndedOnce(s, x, x);
        RefusalsMember(s.marks, if a.ResultOf? then j else i);
      }
    }
  }

  /** Every ended turn whose client was registered has its result in the log, unless the reader holds it. */
  lemma EndHasResult(s: State, e: End) returns (i: nat)
    requires ResultsOk(s) && e in s.ended && e.registered && !s.reader.Answering?
    ensures i < |s.marks| && s.marks[i] == ResultOf(e.turn, e.ticket, e.failed)
  {
    var m := ResultOf(e.turn, e.ticket, e.failed);
    AnswersMember(s.ended, m);
    ResultsMember(s.marks, m);
    assert Results(s.marks) + [] == Results(s.marks);
    i :| 0 <= i < |s.marks| && s.marks[i] == m;
  }
}
