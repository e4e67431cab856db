/** The prompt serializer: N client read loops and the upstream reader share one busy flag, one
    queue and one in-flight slot on the single upstream session.

    Every event is one critical section, one channel operation or one upstream action, so that all
    interleavings are covered: a client may take the free slot between the moment a turn end clears
    `busy` and the moment its result reaches the log, and a reply is classified under one lock and
    acted on under another. */
module TurnSerializer {
  import opened Codec

  const MaxQueued: nat := 50

  /** A prompt with the client and request it belongs to. */
  datatype Prompt = Prompt(client: string, req: RawId, text: string)

  /** The fields of the multiplexer that the serializer uses, all guarded by its mutex. */
  datatype Serializer = Serializer(
    busy: bool, queue: seq<Prompt>,
    inflightId: nat, inflightClient: string, inflightReq: Option<RawId>, inflightHasClient: bool,
    nextId: nat, waiters: set<nat>)

  datatype Verdict = SendNow | Enqueued | Refused

  /** fromClientPrompt: take the free slot, else queue, else refuse. */
  function Submit(z: Serializer, p: Prompt): (Serializer, Verdict) {
    if !z.busy then (z.(busy := true), SendNow)
    else if |z.queue| < MaxQueued then (z.(queue := z.queue + [p]), Enqueued)
    else (z, Refused)
  }

  /** sendPrompt: allocate the upstream id and record whom the turn belongs to. */
  function Launch(z: Serializer, p: Prompt): Serializer {
    z.(nextId := z.nextId + 1, inflightId := z.nextId + 1,
       inflightClient := p.client, inflightReq := Some(p.req), inflightHasClient := true)
  }

  /** call and forwardSetMode: an upstream id for any other request; call also waits for it. */
  function Allocate(z: Serializer, waits: bool): Serializer {
    z.(nextId := z.nextId + 1, waiters := if waits then z.waiters + {z.nextId + 1} else z.waiters)
  }

  datatype Class = ForWaiter | EndsTurn | Ignored

  /** readLoop: what a reply with this id is. */
  function Classify(z: Serializer, id: nat): Class {
    if id in z.waiters then ForWaiter
    else if z.inflightId != 0 && id == z.inflightId then EndsTurn
    else Ignored
  }

  /** handleTurnEnd: clear the slot, and take the next queued prompt if there is one. */
  function EndTurn(z: Serializer): (Serializer, Option<Prompt>) {
    var clear := z.(busy := false, inflightId := 0, inflightClient := "", inflightReq := None,
        inflightHasClient := false);
    if z.queue == [] then (clear, None)
    else (clear.(busy := true, queue := z.queue[1..]), Some(z.queue[0]))
  }

  // ------------------------------------------------------------------ the goroutines around it

  /** A client's read loop (key "" is the goroutine that runs Start). A ticket is the position of a
      prompt request in the order in which the mutex saw the requests. */
  datatype Thread =
    | Listening
    | Claimed(p: Prompt, ticket: nat)     // set busy, has not launched yet
    | Sending(id: nat, text: string)      // launched, has not written the line yet
    | Refusing(p: Prompt, ticket: nat)    // over the cap, has not appended the refusal yet
    | SendingOther(id: nat)

  /** The upstream reader. */
  datatype Reader =
    | Reading
    | Ending(failed: bool)                // about to clear the slot
    | Answering(client: string, req: Option<RawId>, failed: bool, next: Option<Prompt>)   // about to append the result
    | Draining(p: Prompt)                 // about to launch the next prompt
    | Pushing(id: nat, text: string)      // about to write its line

  datatype Line = PromptLine(id: nat, text: string) | OtherLine(id: nat)

  /** What upstream emits: a session/update (turn 0: outside any turn) or a reply. */
  datatype Msg = Note(turn: nat, body: string) | Reply(id: nat, failed: bool)

  /** What an appended log item stands for. */
  datatype Mark =
    | UpdateOf(turn: nat, body: string)
    | ResultOf(turn: nat, ticket: nat, failed: bool)
    | RefusalOf(ticket: nat)

  datatype End = End(turn: nat, ticket: nat, failed: bool, registered: bool)

  /** Where the one turn in progress is; owner "" is the upstream reader. */
  datatype Slot =
    | Free
    | Held(owner: string, ticket: nat)
    | Launched(owner: string, turn: nat, ticket: nat)
    | Piped(turn: nat, ticket: nat)
    | Running(turn: nat, ticket: nat)
    | Answered(turn: nat, ticket: nat, failed: bool)
    | Closing(turn: nat, ticket: nat, failed: bool)
    | Lost(turn: nat, ticket: nat)      // its line was dropped after Stop

  /** `open` and `others` are the requests upstream has read and not answered. The last two lines are
      history. */
  datatype State = State(
    z: Serializer, stopped: bool, threads: map<string, Thread>, reader: Reader,
    pipe: seq<Line>, open: set<nat>, others: set<nat>, outbox: seq<Msg>,
    slot: Slot, tickets: seq<Prompt>, waiting: seq<nat>, accepted: seq<nat>, started: seq<nat>, received: seq<nat>,
    refused: seq<nat>, ended: seq<End>, turns: set<nat>, marks: seq<Mark>)

  function Init(): State {
    State(Serializer(false, [], 0, "", None, false, 0, {}), false, map["" := Listening], Reading,
          [], {}, {}, [], Free, [], [], [], [], [], [], [], {}, [])
  }

  datatype Event =
    | Join(c: string)
    | Leave(c: string)
    | Stop
    | SubmitPrompt(c: string, req: RawId, text: string)
    | LaunchPrompt(c: string)
    | Push(c: string, dropped: bool)
    | AppendRefusal(c: string)
    | AllocOther(c: string)
    | PushOther(c: string, dropped: bool)
    | Forget(id: nat)
    | UpTake
    | UpNote(turn: nat, body: string)
    | UpReply(id: nat, failed: bool)
    | ReadNote
    | ReadReply
    | EndTurnStep(registered: bool)
    | AppendResult
    | LaunchNext
    | PushNext(dropped: bool)

  predicate Is(s: State, c: string, t: Thread) {
    c in s.threads && s.threads[c] == t
  }

  /** The assumption on upstream is in UpNote and UpReply: it replies once to a request it has read,
      and emits a turn's updates between reading the prompt and replying to it. */
  predicate Enabled(s: State, e: Event) {
    match e
    case Join(c) => c != "" && c !in s.threads
    case Leave(c) => c != "" && Is(s, c, Listening)
    case Stop => true
    case SubmitPrompt(c, _, _) => c != "" && Is(s, c, Listening)
    case LaunchPrompt(c) => c in s.threads && s.threads[c].Claimed?
    case Push(c, dropped) => c in s.threads && s.threads[c].Sending? && (dropped ==> s.stopped)
    case AppendRefusal(c) => c in s.threads && s.threads[c].Refusing?
    case AllocOther(c) => Is(s, c, Listening)
    case PushOther(c, dropped) => c in s.threads && s.threads[c].SendingOther? && (dropped ==> s.stopped)
    case Forget(id) => id in s.z.waiters
    case UpTake => s.pipe != []
    case UpNote(turn, _) => turn == 0 || turn in s.open
    case UpReply(id, _) => id in s.open || id in s.others
    case ReadNote => s.reader.Reading? && s.outbox != [] && s.outbox[0].Note?
    case ReadReply => s.reader.Reading? && s.outbox != [] && s.outbox[0].Reply?
    case EndTurnStep(_) => s.reader.Ending?
    case AppendResult => s.reader.Answering?
    case LaunchNext => s.reader.Draining?
    case PushNext(dropped) => s.reader.Pushing? && (dropped ==> s.stopped)
  }

  function After(next: Option<Prompt>): Reader {
    match next
    case None => Reading
    case Some(p) => Draining(p)
  }

  function SubmitTo(s: State, c: string, p: Prompt): State {
    var (z, verdict) := Submit(s.z, p);
    var t := |s.tickets|;
    var s1 := s.(z := z, tickets := s.tickets + [p]);
    match verdict
    case SendNow => s1.(threads := s.threads[c := Claimed(p, t)], slot := Held(c, t), accepted := s.accepted + [t])
    case Enqueued => s1.(waiting := s.waiting + [t], accepted := s.accepted + [t])
    case Refused => s1.(threads := s.threads[c := Refusing(p, t)])
  }

  /** sendPrompt's locked part, by `owner`, for the turn whose slot it holds. */
  function LaunchFor(s: State, owner: string, p: Prompt): State {
    var z := Launch(s.z, p);
    var s1 := s.(z := z, turns := s.turns + {z.nextId});
    if s.slot.Held? then s1.(slot := Launched(owner, z.nextId, s.slot.ticket), started := s.started + [s.slot.ticket])
    else s1
  }

  /** sendLine of a prompt: after Stop the line may be dropped instead. */
  function PushPrompt(s: State, id: nat, text: string, dropped: bool): State {
    s.(pipe := if dropped then s.pipe else s.pipe + [PromptLine(id, text)],
       slot := if !s.slot.Launched? then s.slot
               else if dropped then Lost(s.slot.turn, s.slot.ticket) else Piped(s.slot.turn, s.slot.ticket))
  }

  function TakeLine(s: State): State
    requires s.pipe != []
  {
    var s1 := s.(pipe := s.pipe[1..]);
    match s.pipe[0]
    case OtherLine(id) => s1.(others := s.others + {id})
    case PromptLine(id, _) =>
      var s2 := s1.(open := s.open + {id});
      if s.slot.Piped? then s2.(slot := Running(s.slot.turn, s.slot.ticket), received := s.received + [s.slot.ticket])
      else s2
  }

  function ReplyFrom(s: State, id: nat, failed: bool): State {
    s.(open := s.open - {id}, others := s.others - {id}, outbox := s.outbox + [Reply(id, failed)],
       slot := if s.slot.Running? && s.slot.turn == id then Answered(id, s.slot.ticket, failed) else s.slot)
  }

  function ReadReplyFrom(s: State): State
    requires s.outbox != [] && s.outbox[0].Reply?
  {
    var s1 := s.(outbox := s.outbox[1..]);
    var failed := s.outbox[0].failed;
    if !Classify(s.z, s.outbox[0].id).EndsTurn? then s1
    else s1.(reader := Ending(failed),
             slot := if s.slot.Answered? then Closing(s.slot.turn, s.slot.ticket, failed) else s.slot)
  }

  /** `registered` is whether the ended turn's client is in the client table at that moment. */
  function EndTurnOf(s: State, registered: bool): State
    requires s.reader.Ending?
  {
    var (z, next) := EndTurn(s.z);
    var answer := s.z.inflightHasClient && registered;
    s.(z := z,
       reader := if answer then Answering(s.z.inflightClient, s.z.inflightReq, s.reader.failed, next) else After(next),
       ended := if s.slot.Closing? then s.ended + [End(s.slot.turn, s.slot.ticket, s.slot.failed, answer)] else s.ended,
       slot := if s.waiting == [] then Free else Held("", s.waiting[0]),
       waiting := if s.waiting == [] then [] else s.waiting[1..])
  }

  function LastResult(s: State): seq<Mark> {
    if s.ended == [] then []
    else var e := s.ended[|s.ended| - 1]; [ResultOf(e.turn, e.ticket, e.failed)]
  }

  function Next(s: State, e: Event): State
    requires Enabled(s, e)
  {
    match e
    case Join(c) => s.(threads := s.threads[c := Listening])
    case Leave(c) => s.(threads := s.threads - {c})
    case Stop => s.(stopped := true)
    case SubmitPrompt(c, req, text) => SubmitTo(s, c, Prompt(c, req, text))
    case LaunchPrompt(c) =>
      LaunchFor(s, c, s.threads[c].p).(threads := s.threads[c := Sending(s.z.nextId + 1, s.threads[c].p.text)])
    case Push(c, dropped) =>
      PushPrompt(s, s.threads[c].id, s.threads[c].text, dropped).(threads := s.threads[c := Listening])
    case AppendRefusal(c) =>
      s.(threads := s.threads[c := Listening], refused := s.refused + [s.threads[c].ticket],
         marks := s.marks + [RefusalOf(s.threads[c].ticket)])
    case AllocOther(c) =>
      s.(z := Allocate(s.z, c == ""), threads := s.threads[c := SendingOther(s.z.nextId + 1)])
    case PushOther(c, dropped) =>
      s.(threads := s.threads[c := Listening],
         pipe := if dropped then s.pipe else s.pipe + [OtherLine(s.threads[c].id)])
    case Forget(id) => s.(z := s.z.(waiters := s.z.waiters - {id}))
    case UpTake => TakeLine(s)
    case UpNote(turn, body) => s.(outbox := s.outbox + [Note(turn, body)])
    case UpReply(id, failed) => ReplyFrom(s, id, failed)
    case ReadNote => s.(outbox := s.outbox[1..], marks := s.marks + [UpdateOf(s.outbox[0].turn, s.outbox[0].body)])
    case ReadReply => ReadReplyFrom(s)
    case EndTurnStep(registered) => EndTurnOf(s, registered)
    case AppendResult => s.(reader := After(s.reader.next), marks := s.marks + LastResult(s))
    case LaunchNext => LaunchFor(s, "", s.reader.p).(reader := Pushing(s.z.nextId + 1, s.reader.p.text))
    case PushNext(dropped) => PushPrompt(s, s.reader.id, s.reader.text, dropped).(reader := Reading)
  }

  function Exec(s: State, es: seq<Event>): Option<State> {
    if es == [] then Some(s)
    else
      match Exec(s, es[..|es| - 1])
      case None => None
      case Some(m) => if Enabled(m, es[|es| - 1]) then Some(Next(m, es[|es| - 1])) else None
  }

  // ------------------------------------------------------------------ one slot, one owner

  function TurnOf(slot: Slot): nat {
    if slot.Free? || slot.Held? then 0 else slot.turn
  }

  function TicketOf(slot: Slot): seq<nat> {
    if slot.Free? then [] else [slot.ticket]
  }

  /** Exactly one goroutine, line or reply carries the turn in progress; `busy` says there is one. */
  ghost predicate SlotOk(s: State) {
    && (s.z.busy <==> !s.slot.Free?)
    && s.z.inflightId == TurnOf(s.slot)
    && (!s.slot.Free? ==> s.slot.ticket < |s.tickets|)
    && (!s.slot.Free? && !s.slot.Held? ==>
          var p := s.tickets[s.slot.ticket];
          s.slot.turn > 0 && s.slot.turn in s.turns
          && s.z.inflightClient == p.client && s.z.inflightReq == Some(p.req) && s.z.inflightHasClient)
    && s.open == (if s.slot.Running? then {s.slot.turn} else {})
  }

  ghost predicate ThreadOk(s: State, c: string, t: Thread) {
    match t
    case Listening => true
    case Claimed(p, ticket) => c != "" && s.slot == Held(c, ticket) && IsTicket(s, ticket, p) && p.client == c
    case Sending(id, text) =>
      c != "" && s.slot.Launched? && s.slot.owner == c && s.slot.turn == id
      && s.slot.ticket < |s.tickets| && s.tickets[s.slot.ticket].text == text
    case Refusing(p, ticket) => IsTicket(s, ticket, p) && p.client == c
    case SendingOther(id) => id !in s.turns && id <= s.z.nextId
  }

  ghost predicate ThreadsOk(s: State) {
    && (forall c | c in s.threads :: ThreadOk(s, c, s.threads[c]))
    && ((s.slot.Held? || s.slot.Launched?) && s.slot.owner != "" ==>
          s.slot.owner in s.threads && (s.threads[s.slot.owner].Claimed? || s.threads[s.slot.owner].Sending?))
  }

  ghost predicate IsTicket(s: State, ticket: nat, p: Prompt) {
    ticket < |s.tickets| && s.tickets[ticket] == p
  }

  /** The reader holds nothing of the slot. */
  ghost predicate HandsFree(s: State) {
    (s.slot.Held? || s.slot.Launched? ==> s.slot.owner != "") && !s.slot.Closing?
  }

  ghost predicate HoldsNext(s: State, next: Option<Prompt>) {
    match next
    case None => HandsFree(s)
    case Some(p) => s.slot.Held? && s.slot.owner == "" && IsTicket(s, s.slot.ticket, p)
  }

  /** What the upstream reader holds of the slot. */
  ghost predicate ReaderOk(s: State) {
    match s.reader
    case Reading => HandsFree(s)
    case Ending(failed) => s.slot.Closing? && s.slot.failed == failed
    case Answering(client, req, failed, next) =>
      && s.ended != []
      && (var e := s.ended[|s.ended| - 1];
          e.registered && e.failed == failed && e.ticket < |s.tickets|
          && s.tickets[e.ticket].client == client && req == Some(s.tickets[e.ticket].req))
      && HoldsNext(s, next)
    case Draining(p) => HoldsNext(s, Some(p))
    case Pushing(id, text) =>
      s.slot.Launched? && s.slot.owner == "" && s.slot.turn == id
      && s.slot.ticket < |s.tickets| && s.tickets[s.slot.ticket].text == text
  }

  ghost predicate PipeOk(s: State) {
    && (forall i | 0 <= i < |s.pipe| && s.pipe[i].PromptLine? ::
          s.slot.Piped? && s.slot.turn == s.pipe[i].id && s.slot.ticket < |s.tickets|
          && s.pipe[i].text == s.tickets[s.slot.ticket].text)
    && (forall i, j | 0 <= i < j < |s.pipe| && s.pipe[i].PromptLine? :: !s.pipe[j].PromptLine?)
    && (forall i | 0 <= i < |s.pipe| && s.pipe[i].OtherLine? :: s.pipe[i].id !in s.turns && s.pipe[i].id <= s.z.nextId)
  }

  ghost predicate OutboxOk(s: State) {
    && (forall i | 0 <= i < |s.outbox| && s.outbox[i].Reply? && s.outbox[i].id in s.turns ::
          s.slot.Answered? && s.slot.turn == s.outbox[i].id && s.slot.failed == s.outbox[i].failed)
    && (forall i, j | 0 <= i < j < |s.outbox| && s.outbox[i].Reply? && s.outbox[j].Reply?
          && s.outbox[i].id in s.turns ::
          s.outbox[j].id !in s.turns)
    && (forall i | 0 <= i < |s.outbox| :: (if s.outbox[i].Note? then s.outbox[i].turn else s.outbox[i].id) <=
          s.z.nextId)
  }

  /** Ids are handed out once: nothing else ever has the id of a turn. */
  ghost predicate IdsOk(s: State) {
    && (forall n <- s.turns :: 0 < n <= s.z.nextId)
    && s.others !! s.turns && (forall n <- s.others :: n <= s.z.nextId)
    && s.z.waiters !! s.turns && (forall n <- s.z.waiters :: n <= s.z.nextId)
  }

  /** The queue is exactly the waiting tickets, within its cap, and empty when the slot is free. */
  ghost predicate QueueOk(s: State) {
    && |s.z.queue| == |s.waiting| <= MaxQueued
    && (forall i | 0 <= i < |s.waiting| :: IsTicket(s, s.waiting[i], s.z.queue[i]))
    && (s.slot.Free? ==> s.z.queue == [])
  }

  /** Who holds the slot. */
  ghost predicate Holders(s: State) {
    SlotOk(s) && ThreadsOk(s) && ReaderOk(s) && QueueOk(s)
  }

  /** What is on the way to and from upstream. */
  ghost predicate Wires(s: State) {
    PipeOk(s) && OutboxOk(s) && IdsOk(s)
  }

  ghost predicate Structure(s: State) {
    Holders(s) && Wires(s)
  }

  lemma InitStructure()
    ensures Structure(Init())
  {
  }

  // One lemma per kind of event.

  lemma TicketsGrow(s: State, p: Prompt)
    requires Structure(s)
    ensures Structure(s.(tickets := s.tickets + [p]))
  {
    var s' := s.(tickets := s.tickets + [p]);
    forall c | c in s'.threads ensures ThreadOk(s', c, s'.threads[c]) {
      assert ThreadOk(s, c, s.threads[c]);
    }
  }

  lemma ThreadsFrame(s: State, s': State, c: string)
    requires ThreadsOk(s) && c in s'.threads && s'.threads == s.threads[c := s'.threads[c]] && s'.tickets == s.tickets
    requires s'.turns == s.turns && s'.z.nextId == s.z.nextId && ThreadOk(s', c, s'.threads[c])
    requires s'.slot == s.slot || ((s.slot.Held? || s.slot.Launched? ==> s.slot.owner == c))
    requires (s'.slot.Held? || s'.slot.Launched?) && s'.slot.owner != "" ==>
               s'.slot.owner in s'.threads && (s'.threads[s'.slot.owner].Claimed? || s'.threads[s'.slot.owner].Sending?)
    ensures ThreadsOk(s')
  {
    forall o | o in s'.threads ensures ThreadOk(s', o, s'.threads[o]) {
      if o != c {
        assert ThreadOk(s, o, s.threads[o]);
      }
    }
  }

  lemma EnqueueKeeps(s: State, p: Prompt, t: nat)
    requires Structure(s) && s.z.busy && |s.z.queue| < MaxQueued && IsTicket(s, t, p)
    ensures Structure(s.(z := s.z.(queue := s.z.queue + [p]), waiting := s.waiting + [t], accepted := s.accepted + [t]))
  {
    var s' := s.(z := s.z.(queue := s.z.queue + [p]), waiting := s.waiting + [t], accepted := s.accepted + [t]);
    forall o | o in s'.threads ensures ThreadOk(s', o, s'.threads[o]) {
      assert ThreadOk(s, o, s.threads[o]);
    }
  }

  lemma SubmitKeeps(s: State, c: string, p: Prompt)
    requires Structure(s) && c != "" && Is(s, c, Listening) && p.client == c
    ensures Structure(SubmitTo(s, c, p))
  {
    TicketsGrow(s, p);
    var s1 := s.(tickets := s.tickets + [p]);
    var s' := SubmitTo(s, c, p);
    if !s.z.busy {
      ThreadsFrame(s1, s', c);
    } else if |s.z.queue| < MaxQueued {
      EnqueueKeeps(s1, p, |s.tickets|);
    } else {
      ThreadsFrame(s1, s', c);
    }
  }

  lemma TakeKeeps(s: State)
    requires Structure(s) && s.pipe != []
    ensures Structure(TakeLine(s))
  {
    var s1 := s.(pipe := s.pipe[1..]);
    assert PipeOk(s1) by {
      assert forall i | 0 <= i < |s1.pipe| :: s1.pipe[i] == s.pipe[i + 1];
    }
    if s.pipe[0].PromptLine? {
      assert forall i | 0 <= i < |s1.pipe| :: s1.pipe[i] == s.pipe[i + 1] && s1.pipe[i].OtherLine?;
    }
    TakeKeepsThreads(s);
  }

  lemma TakeKeepsThreads(s: State)
    requires Structure(s) && s.pipe != []
    ensures ThreadsOk(TakeLine(s))
  {
    var s' := TakeLine(s);
    forall o | o in s'.threads ensures ThreadOk(s', o, s'.threads[o]) {
      assert ThreadOk(s, o, s.threads[o]);
    }
  }

  lemma MembershipKeepsHolders(s: State, e: Event)
    requires Structure(s) && Enabled(s, e) && (e.Join? || e.Leave? || e.Stop? || e.Forget?)
    ensures Holders(Next(s, e))
  {
  }

  lemma MembershipKeepsWires(s: State, e: Event)
    requires Structure(s) && Enabled(s, e) && (e.Join? || e.Leave? || e.Stop? || e.Forget?)
    ensures Wires(Next(s, e))
  {
  }

  lemma ClientKeepsHolders(s: State, e: Event)
    requires Structure(s) && Enabled(s, e) && (e.AppendRefusal? || e.PushOther?)
    ensures Holders(Next(s, e))
  {
  }

  lemma ClientKeepsWires(s: State, e: Event)
    requires Structure(s) && Enabled(s, e) && (e.AppendRefusal? || e.PushOther?)
    ensures Wires(Next(s, e))
  {
  }

  lemma AllocKeepsHolders(s: State, e: Event)
    requires Structure(s) && Enabled(s, e) && (e.AllocOther?)
    ensures Holders(Next(s, e))
  {
  }

  lemma AllocKeepsWires(s: State, e: Event)
    requires Structure(s) && Enabled(s, e) && (e.AllocOther?)
    ensures Wires(Next(s, e))
  {
  }

  lemma LaunchKeepsHolders(s: State, e: Event)
    requires Structure(s) && Enabled(s, e) && (e.LaunchPrompt? || e.LaunchNext?)
    ensures Holders(Next(s, e))
  {
  }

  lemma LaunchKeepsWires(s: State, e: Event)
    requires Structure(s) && Enabled(s, e) && (e.LaunchPrompt? || e.LaunchNext?)
    ensures Wires(Next(s, e))
  {
  }

  lemma PushKeepsHolders(s: State, e: Event)
    requires Structure(s) && Enabled(s, e) && (e.Push? || e.PushNext?)
    ensures Holders(Next(s, e))
  {
  }

  lemma PushKeepsWires(s: State, e: Event)
    requires Structure(s) && Enabled(s, e) && (e.Push? || e.PushNext?)
    ensures Wires(Next(s, e))
  {
  }

  lemma UpstreamKeepsHolders(s: State, e: Event)
    requires Structure(s) && Enabled(s, e) && (e.UpNote? || e.UpReply?)
    ensures Holders(Next(s, e))
  {
  }

  lemma UpstreamKeepsWires(s: State, e: Event)
    requires Structure(s) && Enabled(s, e) && (e.UpNote? || e.UpReply?)
    ensures Wires(Next(s, e))
  {
  }

  lemma NoteKeepsHolders(s: State, e: Event)
    requires Structure(s) && Enabled(s, e) && (e.ReadNote?)
    ensures Holders(Next(s, e))
  {
  }

  lemma NoteKeepsWires(s: State, e: Event)
    requires Structure(s) && Enabled(s, e) && (e.ReadNote?)
    ensures Wires(Next(s, e))
  {
  }

  lemma ReplyKeepsHolders(s: State, e: Event)
    requires Structure(s) && Enabled(s, e) && (e.ReadReply?)
    ensures Holders(Next(s, e))
  {
  }

  lemma ReplyKeepsWires(s: State, e: Event)
    requires Structure(s) && Enabled(s, e) && (e.ReadReply?)
    ensures Wires(Next(s, e))
  {
  }

  lemma EndTurnKeepsHolders(s: State, e: Event)
    requires Structure(s) && Enabled(s, e) && (e.EndTurnStep?)
    ensures Holders(Next(s, e))
  {
  }

  lemma EndTurnKeepsWires(s: State, e: Event)
    requires Structure(s) && Enabled(s, e) && (e.EndTurnStep?)
    ensures Wires(Next(s, e))
  {
  }

  lemma ResultKeepsHolders(s: State, e: Event)
    requires Structure(s) && Enabled(s, e) && (e.AppendResult?)
    ensures Holders(Next(s, e))
  {
  }

  lemma ResultKeepsWires(s: State, e: Event)
    requires Structure(s) && Enabled(s, e) && (e.AppendResult?)
    ensures Wires(Next(s, e))
  {
  }

  /** Every event keeps the structure, in every state. */
  lemma StepKeepsStructure(s: State, e: Event)
    requires Structure(s) && Enabled(s, e)
    ensures Structure(Next(s, e))
  {
    match e {
      case SubmitPrompt(c, req, text) => SubmitKeeps(s, c, Prompt(c, req, text));
      case UpTake => TakeKeeps(s);
      case Join(_) => MembershipKeepsHolders(s, e); MembershipKeepsWires(s, e);
      case Leave(_) => MembershipKeepsHolders(s, e); MembershipKeepsWires(s, e);
      case Stop => MembershipKeepsHolders(s, e); MembershipKeepsWires(s, e);
      case Forget(_) => MembershipKeepsHolders(s, e); MembershipKeepsWires(s, e);
      case AppendRefusal(_) => ClientKeepsHolders(s, e); ClientKeepsWires(s, e);
      case PushOther(_, _) => ClientKeepsHolders(s, e); ClientKeepsWires(s, e);
      case AllocOther(_) => AllocKeepsHolders(s, e); AllocKeepsWires(s, e);
      case LaunchPrompt(_) => LaunchKeepsHolders(s, e); LaunchKeepsWires(s, e);
      case LaunchNext => LaunchKeepsHolders(s, e); LaunchKeepsWires(s, e);
      case Push(_, _) => PushKeepsHolders(s, e); PushKeepsWires(s, e);
      case PushNext(_) => PushKeepsHolders(s, e); PushKeepsWires(s, e);
      case UpNote(_, _) => UpstreamKeepsHolders(s, e); UpstreamKeepsWires(s, e);
      case UpReply(_, _) => UpstreamKeepsHolders(s, e); UpstreamKeepsWires(s, e);
      case ReadNote => NoteKeepsHolders(s, e); NoteKeepsWires(s, e);
      case ReadReply => ReplyKeepsHolders(s, e); ReplyKeepsWires(s, e);
      case EndTurnStep(_) => EndTurnKeepsHolders(s, e); EndTurnKeepsWires(s, e);
      case AppendResult => ResultKeepsHolders(s, e); ResultKeepsWires(s, e);
    }
  }
}
