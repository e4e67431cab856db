/** No prompt gets stuck: what carries the turn in progress is there, and can always be moved on. */
module TurnProgress {
  import opened Codec
  import opened TurnSerializer
  import opened TurnTheorems

  predicate LineAt(s: State, i: nat) {
    i < |s.pipe| && s.pipe[i].PromptLine? && s.slot.Piped? && s.pipe[i].id == s.slot.turn
  }

  predicate ReplyAt(s: State, i: nat) {
    i < |s.outbox| && s.outbox[i].Reply? && s.slot.Answered? && s.outbox[i].id == s.slot.turn
  }

  /** The line of a prompt that was sent is in the pipe, the reply of one that was answered in upstream's output, and
      nothing is lost before Stop. */
  ghost predicate Carried(s: State) {
    && (s.slot.Piped? ==> exists i: nat :: LineAt(s, i))
    && (s.slot.Answered? ==> exists i: nat :: ReplyAt(s, i))
    && (s.slot.Lost? ==> s.stopped)
  }

  // ------------------------------------------------------------------ it stays so

  /** Nothing is taken out of pipe or output, and the slot is as it was or waits for nothing there. */
  lemma CarriedFrame(s: State, s': State)
    requires Carried(s) && s.pipe <= s'.pipe && s.outbox <= s'.outbox && (s.stopped ==> s'.stopped)
    requires s'.slot == s.slot || !(s'.slot.Piped? || s'.slot.Answered? || s'.slot.Lost?)
    ensures Carried(s')
  {
    if i: nat :| LineAt(s, i) {
      assert s'.slot == s.slot ==> LineAt(s', i);
    }
    if i: nat :| ReplyAt(s, i) {
      assert s'.slot == s.slot ==> ReplyAt(s', i);
    }
  }

  lemma PushKeepsCarried(s: State, s': State, id: nat, text: string, dropped: bool)
    requires Carried(s) && s.slot.Launched? && s.slot.turn == id && (dropped ==> s.stopped)
    requires s'.slot == PushPrompt(s, id, text, dropped).slot && s'.pipe == PushPrompt(s, id, text, dropped).pipe
    requires s'.stopped == s.stopped
    ensures Carried(s')
  {
    assert !dropped ==> LineAt(s', |s.pipe|);
  }

  lemma TakeKeepsCarried(s: State)
    requires Structure(s) && Carried(s) && s.pipe != []
    ensures Carried(TakeLine(s))
  {
    var s' := TakeLine(s);
    if s.pipe[0].OtherLine? && s.slot.Piped? {
      var i: nat :| LineAt(s, i);
      assert LineAt(s', i - 1);
    }
    if s.slot.Answered? {
      var i: nat :| ReplyAt(s, i);
      assert ReplyAt(s', i);
    }
  }

  lemma ReplyKeepsCarried(s: State, id: nat, failed: bool)
    requires Carried(s)
    ensures Carried(ReplyFrom(s, id, failed))
  {
    var s' := ReplyFrom(s, id, failed);
    if s.slot.Running? && s.slot.turn == id {
      assert ReplyAt(s', |s.outbox|);
    } else {
      CarriedFrame(s, s');
    }
  }

  /** Reading the output's head, when it is not the reply awaited. */
  lemma ReadKeepsCarried(s: State, s': State)
    requires Carried(s) && s.outbox != [] && !ReplyAt(s, 0)
    requires s'.outbox == s.outbox[1..] && s'.pipe == s.pipe && s'.slot == s.slot && s'.stopped == s.stopped
    ensures Carried(s')
  {
    if i: nat :| LineAt(s, i) {
      assert LineAt(s', i);
    }
    if i: nat :| ReplyAt(s, i) {
      assert ReplyAt(s', i - 1);
    }
  }

  lemma ReadReplyKeepsCarried(s: State)
    requires Structure(s) && Carried(s) && Enabled(s, ReadReply)
    ensures Carried(ReadReplyFrom(s))
  {
    var s' := ReadReplyFrom(s);
    if ReplyAt(s, 0) {
      assert s'.slot.Closing?;
    } else if s'.slot == s.slot {
      ReadKeepsCarried(s, s');
    }
  }

  lemma StepKeepsCarried(s: State, e: Event)
    requires Structure(s) && Carried(s) && Enabled(s, e)
    ensures Carried(Next(s, e))
  {
    match e
    case Push(c, dropped) =>
      assert ThreadOk(s, c, s.threads[c]);
      PushKeepsCarried(s, Next(s, e), s.threads[c].id, s.threads[c].text, dropped);
    case PushNext(dropped) => PushKeepsCarried(s, Next(s, e), s.reader.id, s.reader.text, dropped);
    case UpTake => TakeKeepsCarried(s);
    case UpReply(id, failed) => ReplyKeepsCarried(s, id, failed);
    case ReadNote => ReadKeepsCarried(s, Next(s, e));
    case ReadReply => ReadReplyKeepsCarried(s);
    case _ => OthersKeepCarried(s, e);
  }

  lemma OthersKeepCarried(s: State, e: Event)
    requires Structure(s) && Carried(s) && Enabled(s, e)
    requires !e.Push? && !e.PushNext? && !e.UpTake? && !e.UpReply? && !e.ReadNote? && !e.ReadReply?
    ensures Carried(Next(s, e))
  {
    hide Carried;
    CarriedFrame(s, Next(s, e));
  }

  lemma {:induction false} RunsAreCarried(es: seq<Event>)
    requires Exec(Init(), es).Some?
    ensures Carried(Exec(Init(), es).value)
  {
    if es != [] {
      RunsAreCarried(es[..|es| - 1]);
      ExecKeepsInv(es[..|es| - 1]);
      hide Carried, Structure;
      StepKeepsCarried(Exec(Init(), es[..|es| - 1]).value, es[|es| - 1]);
    }
  }

  // ------------------------------------------------------------------ it can be moved on

  /** How far the turn in progress is from its end. */
  function Stage(slot: Slot): nat {
    match slot
    case Held(_, _) => 6
    case Launched(_, _, _) => 5
    case Piped(_, _) => 4
    case Running(_, _) => 3
    case Answered(_, _, _) => 2
    case Closing(_, _, _) => 1
    case _ => 0
  }

  /** What is before it in the pipe or in the output, and the last result if it has not been appended. */
  function Ahead(s: State): nat {
    (if s.slot.Piped? then |s.pipe| else if s.slot.Answered? then |s.outbox| else 0)
    + if s.reader.Answering? then 1 else 0
  }

  /** `t` is nearer than `s` to having nothing left to do, for the same prompts. */
  predicate Nearer(s: State, t: State) {
    && t.accepted == s.accepted && !t.stopped
    && (|t.waiting| < |s.waiting|
        || (|t.waiting| == |s.waiting|
            && (Stage(t.slot) < Stage(s.slot) || (Stage(t.slot) == Stage(s.slot) && Ahead(t) < Ahead(s)))))
  }

  /** Some step is always possible that brings the turn in progress nearer to its end. */
  lemma MovesOn(s: State) returns (e: Event)
    requires Structure(s) && Carried(s) && !s.stopped && !s.slot.Free?
    ensures Enabled(s, e) && Nearer(s, Next(s, e))
  {
    if s.slot.Held? || s.slot.Launched? {
      e := OwnerMovesOn(s);
    } else if s.slot.Answered? {
      e := ReaderMovesOn(s);
    } else {
      e := LineMovesOn(s);
    }
    hide *;
  }

  lemma OwnerMovesOn(s: State) returns (e: Event)
    requires Structure(s) && !s.stopped && (s.slot.Held? || s.slot.Launched?)
    ensures Enabled(s, e) && Nearer(s, Next(s, e))
  {
    var owner := s.slot.owner;
    if owner != "" {
      e := if s.slot.Held? then LaunchPrompt(owner) else Push(owner, false);
      assert ThreadOk(s, owner, s.threads[owner]);
    } else if s.slot.Held? {
      e := if s.reader.Answering? then AppendResult else LaunchNext;
    } else {
      e := PushNext(false);
    }
  }

  lemma ReaderMovesOn(s: State) returns (e: Event)
    requires Structure(s) && Carried(s) && !s.stopped && s.slot.Answered?
    ensures Enabled(s, e) && Nearer(s, Next(s, e))
  {
    var i: nat :| ReplyAt(s, i);
    e := if s.reader.Answering? then AppendResult else if s.outbox[0].Note? then ReadNote else ReadReply;
  }

  lemma LineMovesOn(s: State) returns (e: Event)
    requires Structure(s) && Carried(s) && !s.stopped
    requires s.slot.Piped? || s.slot.Running? || s.slot.Closing? || s.slot.Lost?
    ensures Enabled(s, e) && Nearer(s, Next(s, e))
  {
    if s.slot.Piped? {
      e := UpTake;
      var i: nat :| LineAt(s, i);
    } else if s.slot.Running? {
      e := UpReply(s.slot.turn, false);
    } else {
      e := EndTurnStep(true);
    }
  }

  lemma {:induction false} ExecJoins(s: State, e: Event, es: seq<Event>)
    requires Enabled(s, e)
    ensures Exec(s, [e] + es) == Exec(Next(s, e), es)
  {
    if es == [] {
      assert [e] + es == [e] && [e][..0] == [];
    } else {
      var all, n := [e] + es, |es| - 1;
      assert all[..|all| - 1] == [e] + es[..n] && all[|all| - 1] == es[n];
      ExecJoins(s, e, es[..n]);
    }
  }

  lemma {:induction false} AllCanEnd(s: State) returns (es: seq<Event>)
    requires Structure(s) && Carried(s) && !s.stopped
    ensures Exec(s, es).Some? && Exec(s, es).value.slot.Free? && Exec(s, es).value.accepted == s.accepted
    decreases |s.waiting|, Stage(s.slot), Ahead(s)
  {
    if s.slot.Free? {
      es := [];
    } else {
      var e := MovesOn(s);
      StepKeepsStructure(s, e);
      StepKeepsCarried(s, e);
      hide Structure, Carried, Enabled, Next, Stage, Ahead;
      es := AllCanEnd(Next(s, e));
      ExecJoins(s, e, es);
      es := [e] + es;
    }
  }

  lemma {:induction false} ExecConcat(s: State, a: seq<Event>, b: seq<Event>)
    requires Exec(s, a).Some?
    ensures Exec(s, a + b) == Exec(Exec(s, a).value, b)
  {
    if b == [] {
      assert a + b == a;
    } else {
      var n := |b| - 1;
      assert (a + b)[..|a + b| - 1] == a + b[..n];
      ExecConcat(s, a, b[..n]);
    }
  }

  /** Until Stop no prompt is stuck: from every reachable state, some run from there ends every turn that was accepted,
      in the order of acceptance. */
  lemma EveryPromptCanEnd(s: State) returns (es: seq<Event>)
    requires Reachable(s) && !s.stopped
    ensures Exec(s, es).Some?
    ensures
      var t := Exec(s, es).value;
      t.slot.Free? && !t.z.busy && EndedTickets(t.ended) == t.accepted == s.accepted
  {
    var before :| Exec(Init(), before) == Some(s);
    RunsAreCarried(before);
    ReachableInv(s);
    hide Carried;
    es := AllCanEnd(s);
    ExecConcat(Init(), before, es);
    ExecKeepsInv(before + es);
    hide Partition, ResultsOk, OrderOk;
  }
}
