/** What every interleaving of a transport keeps, whichever gate it has. */
module TransportProofs {
  import opened Basics
  import opened Protocol
  import opened Transport

  /** Writer tokens: posted calls of `do_write`, the running one, writes in flight. */
  function Tokens(s: State): nat {
    s.posted + |s.flight| + (if s.handler == Idle then 0 else 1)
  }

  predicate Unsent(s: State) {
    s.flight != [] && !s.flight[0].sent
  }

  /** The frame taken from the queue that has not reached `async_write` yet. */
  function InHand(s: State): seq<Frame> {
    if s.handler == Popped then [s.pending] else []
  }

  ghost predicate WriterInv(s: State) {
    && Tokens(s) <= 1
    && (Tokens(s) == 1 || s.queue != [] ==> s.writing)
    && (s.writing && Tokens(s) == 0 ==> s.failed || Shut(s))
    && (s.failed ==> s.writing && Tokens(s) == 0)
    && (s.kind == ServerSide && !s.live ==> !s.connected && !s.writing && s.passed == map[])
    && s.log.accepted == s.log.started + InHand(s) + s.queue
    && (s.flight != [] ==>
          s.flight[0].given == s.pending && s.log.started != [] && s.log.started[|s.log.started| - 1] == s.pending)
    && s.log.wire <= s.log.started
    && |s.log.started| <= |s.log.wire| + (if Unsent(s) || s.failed then 1 else 0)
    && (Unsent(s) ==> |s.log.started| == |s.log.wire| + 1)
  }

  ghost predicate ReaderInv(s: State) {
    s.rd.buf == [] && s.rd.delivered == DispatchAll(s.rd.received)
  }

  ghost predicate Inv(s: State) {
    WriterInv(s) && ReaderInv(s)
  }

  /** Only the two halves of `send` add frames, and the wire only grows. */
  lemma OtherActionsSendNothing(s: State, a: Action)
    requires !a.SendGate? && !a.SendLocked?
    ensures Step(s, a).passed == s.passed && Step(s, a).log.accepted == s.log.accepted
    ensures s.log.wire <= Step(s, a).log.wire
  {
    if Possible(s, a) {
      match a
      case RunPosted =>
      case Lock =>
      case StartWrite =>
      case PutOnWire(_) =>
      case CompleteOk(_) =>
      case CompleteErr(_) =>
      case Close =>
      case Open =>
      case ReadOk(_) =>
      case ReadErr =>
    }
  }

  /** Only reads touch the reader. */
  lemma OtherActionsReadNothing(s: State, a: Action)
    requires !a.ReadOk?
    ensures Step(s, a).rd.buf == s.rd.buf && Step(s, a).rd.received == s.rd.received
  {
    if Possible(s, a) {
      match a
      case SendGate(_, _) =>
      case SendLocked(_) =>
      case RunPosted =>
      case Lock =>
      case StartWrite =>
      case PutOnWire(_) =>
      case CompleteOk(_) =>
      case CompleteErr(_) =>
      case Close =>
      case Open =>
      case ReadErr =>
    }
  }

  /** Sending and closing put nothing on the wire. */
  lemma CallsKeepWire(s: State, a: Action)
    requires a.SendGate? || a.SendLocked? || a.Close?
    ensures Step(s, a).log.wire == s.log.wire
  {
  }

  lemma StepFrame(s: State, a: Action)
    ensures var e := Step(s, a);
            && e.kind == s.kind && (s.live ==> e.live)
            && (e.rd.reading ==> s.rd.reading || e.live)
  {
    if Possible(s, a) {
      match a
      case SendGate(_, _) =>
      case SendLocked(_) =>
      case RunPosted =>
      case Lock =>
      case StartWrite =>
      case PutOnWire(_) =>
      case CompleteOk(_) =>
      case CompleteErr(_) =>
      case Close =>
      case Open =>
      case ReadOk(_) =>
      case ReadErr =>
    }
  }

  lemma InitInv(kind: Kind)
    ensures Inv(Init(kind))
  {
  }

  lemma DoWriteStepInv(s: State, a: Action)
    requires WriterInv(s) && Possible(s, a)
    requires a.RunPosted? || a.Lock? || a.StartWrite?
    ensures WriterInv(Step(s, a))
  {
  }

  lemma StreamStepInv(s: State, a: Action)
    requires WriterInv(s) && Possible(s, a)
    requires a.PutOnWire? || a.CompleteOk? || a.CompleteErr?
    ensures WriterInv(Step(s, a))
  {
  }

  lemma SendStepInv(s: State, a: Action)
    requires WriterInv(s) && Possible(s, a)
    requires a.SendGate? || a.SendLocked?
    ensures WriterInv(Step(s, a))
  {
    match a
    case SendGate(_, _) =>
    case SendLocked(_) =>
  }

  lemma LifeStepInv(s: State, a: Action)
    requires WriterInv(s) && Possible(s, a)
    requires a.Close? || a.Open? || a.ReadErr?
    ensures WriterInv(Step(s, a))
  {
  }

  lemma ReadStepWriterInv(s: State, bytes: Bytes)
    requires WriterInv(s) && Possible(s, ReadOk(bytes))
    ensures WriterInv(Step(s, ReadOk(bytes)))
  {
  }

  lemma ReadStepInv(s: State, bytes: Bytes)
    requires ReaderInv(s) && Possible(s, ReadOk(bytes))
    ensures ReaderInv(Step(s, ReadOk(bytes)))
  {
    var received := s.rd.received + [bytes];
    assert s.rd.buf + bytes == bytes;
    assert received[..|received| - 1] == s.rd.received;
  }

  lemma WriterStep(s: State, a: Action)
    requires WriterInv(s)
    ensures WriterInv(Step(s, a))
  {
    if Possible(s, a) {
      match a
      case RunPosted => DoWriteStepInv(s, a);
      case Lock => DoWriteStepInv(s, a);
      case StartWrite => DoWriteStepInv(s, a);
      case PutOnWire(_) => StreamStepInv(s, a);
      case CompleteOk(_) => StreamStepInv(s, a);
      case CompleteErr(_) => StreamStepInv(s, a);
      case SendGate(_, _) => SendStepInv(s, a);
      case SendLocked(_) => SendStepInv(s, a);
      case ReadOk(bytes) => ReadStepWriterInv(s, bytes);
      case _ => LifeStepInv(s, a);
    }
  }

  lemma ReaderStep(s: State, a: Action)
    requires ReaderInv(s)
    ensures ReaderInv(Step(s, a))
  {
    if a.ReadOk? && Possible(s, a) {
      ReadStepInv(s, a.bytes);
    }
  }

  lemma StepInv(s: State, a: Action)
    requires Inv(s)
    ensures Inv(Step(s, a))
  {
    WriterStep(s, a);
    ReaderStep(s, a);
  }

  /** The invariant holds after every interleaving. */
  lemma {:induction false} RunInv(s: State, acts: seq<Action>)
    requires Inv(s)
    ensures Inv(Run(s, acts))
  {
    if acts != [] {
      RunInv(s, acts[..|acts| - 1]);
      StepInv(Run(s, acts[..|acts| - 1]), acts[|acts| - 1]);
    }
  }

  // ---- Safety ----

  /** Single writer and no lost wakeup. */
  lemma SingleWriterNoLostWakeup(kind: Kind, acts: seq<Action>)
    ensures var s := Run(Init(kind), acts);
            && Tokens(s) <= 1
            && (s.queue != [] ==> s.writing)
            && (s.queue != [] && GateOpen(s) && !s.failed ==> Tokens(s) == 1)
            && (!s.writing ==> s.queue == [] && Tokens(s) == 0)
  {
    InitInv(kind);
    RunInv(Init(kind), acts);
  }

  /** While a write is outstanding its buffer holds the frame it was started with. */
  lemma BufferIsStable(kind: Kind, acts: seq<Action>)
    ensures var s := Run(Init(kind), acts);
            |s.flight| <= 1 && (s.flight != [] ==> s.flight[0].given == s.pending)
  {
    InitInv(kind);
    RunInv(Init(kind), acts);
  }

  /** Conservation: every accepted frame is on the wire, or the one being written, or
      the one in hand, or queued, in this order; only a failed write loses its frame. */
  lemma Ledger(kind: Kind, acts: seq<Action>)
    ensures var s := Run(Init(kind), acts);
            && s.log.wire <= s.log.accepted
            && s.log.accepted == s.log.started + InHand(s) + s.queue
            && (!s.failed ==> s.log.started == s.log.wire + (if Unsent(s) then [s.pending] else []))
            && (s.failed ==> |s.log.wire| <= |s.log.started| <= |s.log.wire| + 1)
  {
    InitInv(kind);
    RunInv(Init(kind), acts);
    if !Run(Init(kind), acts).failed {
      StartedOf(Run(Init(kind), acts));
    }
  }

  lemma StartedOf(s: State)
    requires WriterInv(s) && !s.failed
    ensures s.log.started == s.log.wire + (if Unsent(s) then [s.pending] else [])
  {
  }

  // ---- Freeze ----

  /** How many more writes may still start after the gate has closed. */
  function Leeway(s: State): nat {
    if s.handler == Idle then 0 else 1
  }

  lemma ShutWriterStep(s: State, a: Action)
    requires WriterInv(s) && Shut(s) && Possible(s, a)
    requires a.RunPosted? || a.Lock? || a.StartWrite? || a.CompleteOk?
    ensures Shut(Step(s, a))
    ensures |Step(s, a).log.started| + Leeway(Step(s, a)) <= |s.log.started| + Leeway(s)
    ensures s.log.started <= Step(s, a).log.started
  {
  }

  lemma ShutOtherStep(s: State, a: Action)
    requires Shut(s) && Possible(s, a)
    requires !a.RunPosted? && !a.Lock? && !a.StartWrite? && !a.CompleteOk?
    ensures Shut(Step(s, a)) && Step(s, a).handler == s.handler && Step(s, a).log.started == s.log.started
  {
    match a
    case SendGate(_, _) =>
    case SendLocked(_) =>
    case PutOnWire(_) =>
    case CompleteErr(_) =>
    case Close =>
    case Open =>
    case ReadOk(_) =>
    case ReadErr =>
  }

  lemma ShutStep(s: State, a: Action)
    requires WriterInv(s) && Shut(s)
    ensures Shut(Step(s, a))
    ensures |Step(s, a).log.started| + Leeway(Step(s, a)) <= |s.log.started| + Leeway(s)
    ensures s.log.started <= Step(s, a).log.started
  {
    if Possible(s, a) {
      if a.RunPosted? || a.Lock? || a.StartWrite? || a.CompleteOk? {
        ShutWriterStep(s, a);
      } else {
        ShutOtherStep(s, a);
      }
    }
  }

  /** Once the gate is closed no write starts, except the one whose gate test had
      already passed; in particular none at all when the strand itself closed it. */
  lemma {:induction false} FreezeAfterClose(s: State, acts: seq<Action>)
    requires Inv(s) && Shut(s)
    ensures Shut(Run(s, acts)) && s.log.started <= Run(s, acts).log.started
    ensures |Run(s, acts).log.started| + Leeway(Run(s, acts)) <= |s.log.started| + Leeway(s)
    ensures s.handler == Idle ==> Run(s, acts).log.started == s.log.started
  {
    if acts != [] {
      FreezeAfterClose(s, acts[..|acts| - 1]);
      RunInv(s, acts[..|acts| - 1]);
      ShutStep(Run(s, acts[..|acts| - 1]), acts[|acts| - 1]);
    }
  }

  /** What closes the gate: `close` on either kind of transport, a failed read or write on a
      server session. A failed read leaves the client's gate open. */
  lemma CloseShuts(s: State)
    requires s.kind == ServerSide ==> s.live && s.handler == Idle
    ensures var e := Step(s, Close); Shut(e) && e.handler == s.handler && e.log == s.log && e.passed == s.passed
  {
  }

  lemma ReadErrorShuts(s: State)
    requires s.live && s.rd.reading && s.handler == Idle
    ensures var e := Step(s, ReadErr);
            && !e.connected && !e.rd.reading && (Shut(e) <==> s.kind == ServerSide || s.closing)
            && e.handler == Idle && e.log == s.log && e.passed == s.passed
  {
  }

  lemma WriteErrorShuts(s: State, op: nat)
    requires s.live && op < |s.flight| && s.handler == Idle
    ensures var e := Step(s, CompleteErr(op));
            && e.failed && (s.kind == ServerSide || !s.closing ==> !e.connected)
            && (Shut(e) <==> s.kind == ServerSide || s.closing)
  {
  }

  lemma ShutAcceptsStep(s: State, a: Action)
    requires Shut(s)
    ensures var e := Step(s, a);
            |e.log.accepted| + |e.passed| <= |s.log.accepted| + |s.passed| && |e.passed| <= |s.passed|
  {
    if a.SendLocked? && a.thread in s.passed {
      assert |s.passed.Keys - {a.thread}| == |s.passed.Keys| - 1;
      assert (s.passed - {a.thread}).Keys == s.passed.Keys - {a.thread};
    } else if !a.SendGate? && !a.SendLocked? {
      OtherActionsSendNothing(s, a);
    }
  }

  /** Once the gate is closed no call of `send` adds a frame but those already past it. */
  lemma {:induction false} ShutAcceptsNothing(s: State, acts: seq<Action>)
    requires Inv(s) && Shut(s)
    ensures var e := Run(s, acts);
            |e.log.accepted| + |e.passed| <= |s.log.accepted| + |s.passed| && |e.passed| <= |s.passed|
  {
    if acts != [] {
      ShutAcceptsNothing(s, acts[..|acts| - 1]);
      FreezeAfterClose(s, acts[..|acts| - 1]);
      ShutAcceptsStep(Run(s, acts[..|acts| - 1]), acts[|acts| - 1]);
    }
  }

  /** Hence a call of `close` is final: on a server session no write starts after it, on a
      client at most one whose gate test had passed, and no later `send` is accepted. */
  lemma CloseIsFinal(s: State, acts: seq<Action>)
    requires Inv(s) && (s.kind == ServerSide ==> s.live && s.handler == Idle)
    ensures var e := Run(Step(s, Close), acts);
            && |e.log.started| <= |s.log.started| + (if s.handler == Idle then 0 else 1)
            && |e.log.accepted| <= |s.log.accepted| + |s.passed|
  {
    CloseShuts(s);
    StepInv(s, Close);
    FreezeAfterClose(Step(s, Close), acts);
    ShutAcceptsNothing(Step(s, Close), acts);
  }

  /** So is a failed read on a server session. */
  lemma ReadErrorIsFinal(s: State, acts: seq<Action>)
    requires Inv(s) && s.kind == ServerSide && s.live && s.rd.reading && s.handler == Idle
    ensures var e := Run(Step(s, ReadErr), acts);
            e.log.started == s.log.started && |e.log.accepted| <= |s.log.accepted| + |s.passed|
  {
    ReadErrorShuts(s);
    StepInv(s, ReadErr);
    FreezeAfterClose(Step(s, ReadErr), acts);
    ShutAcceptsNothing(Step(s, ReadErr), acts);
  }

  lemma FailedStep(s: State, a: Action)
    requires WriterInv(s) && s.failed
    ensures var e := Step(s, a); WriterInv(e) && e.failed && e.log.started == s.log.started && e.log.wire == s.log.wire
  {
  }

  /** After a write error no write ever starts again: `writing_` stays set and nobody
      is left to clear it, whatever the gate says. */
  lemma {:induction false} FreezeAfterError(s: State, acts: seq<Action>)
    requires WriterInv(s) && s.failed
    ensures var e := Run(s, acts);
            && WriterInv(e) && e.failed && e.writing && Tokens(e) == 0
            && e.log.started == s.log.started && e.log.wire == s.log.wire
  {
    if acts != [] {
      FreezeAfterError(s, acts[..|acts| - 1]);
      FailedStep(Run(s, acts[..|acts| - 1]), acts[|acts| - 1]);
    }
  }

  // ---- Progress ----

  predicate IsWriter(a: Action) {
    a.RunPosted? || a.Lock? || a.StartWrite? || a.PutOnWire? || a.CompleteOk?
  }

  /** The exact number of writer steps until the queue is drained. */
  function Remaining(s: State): nat {
    4 * |s.queue|
    + (match s.handler case Idle => 0 case Checked => 1 case Popped => 4)
    + 2 * s.posted
    + (if s.flight == [] then 0 else if s.flight[0].sent then 2 else 3)
  }

  predicate Drained(s: State) {
    s.queue == [] && !s.writing && s.log.wire == s.log.accepted && Tokens(s) == 0
  }

  /** The flag alone shows it: when nobody is writing, everything accepted has been sent. */
  lemma NotWritingIsDrained(s: State)
    requires WriterInv(s)
    ensures !s.writing <==> Drained(s)
  {
  }

  ghost predicate Live(s: State) {
    WriterInv(s) && GateOpen(s) && !s.failed
  }

  /** In an open transport every writer step that is possible brings the end nearer by
      exactly one, and as long as anything remains there is such a step. */
  lemma WriterStepProgress(s: State, a: Action)
    requires Live(s) && IsWriter(a) && Possible(s, a)
    ensures Live(Step(s, a)) && Remaining(Step(s, a)) == Remaining(s) - 1
    ensures Step(s, a).log.accepted == s.log.accepted
  {
    WriterStep(s, a);
    assert |s.flight| <= 1;
  }

  function NextWriter(s: State): Action {
    if s.handler == Checked then Lock
    else if s.handler == Popped then StartWrite
    else if s.posted > 0 then RunPosted
    else if Unsent(s) then PutOnWire(0)
    else CompleteOk(0)
  }

  lemma NoWriterLeft(s: State)
    requires Live(s)
    ensures Possible(s, NextWriter(s)) <==> Remaining(s) > 0
    ensures Remaining(s) == 0 <==> Drained(s)
  {
  }

  /** What may go on beside the writer without closing the gate or adding a frame. */
  predicate IsBystander(a: Action) {
    a.ReadOk? || a.SendGate? || a.Open?
  }

  lemma BystanderStep(s: State, a: Action)
    requires Live(s) && IsBystander(a)
    ensures Live(Step(s, a)) && Remaining(Step(s, a)) == Remaining(s)
    ensures Step(s, a).log.accepted == s.log.accepted
  {
    WriterStep(s, a);
  }

  /** What one action contributes to draining. */
  function Contribution(s: State, a: Action): nat {
    if IsWriter(a) && Possible(s, a) then 1 else 0
  }

  lemma ProgressStep(s: State, a: Action)
    requires Live(s) && (IsWriter(a) || IsBystander(a))
    ensures Live(Step(s, a)) && Remaining(Step(s, a)) == Remaining(s) - Contribution(s, a)
    ensures Step(s, a).log.accepted == s.log.accepted
  {
    if IsBystander(a) {
      BystanderStep(s, a);
    } else if Possible(s, a) {
      WriterStepProgress(s, a);
    }
  }

  /** The number of writer steps of a run that were possible when their turn came. */
  function Effective(s: State, acts: seq<Action>): nat {
    if acts == [] then 0
    else
      var before, last := acts[..|acts| - 1], acts[|acts| - 1];
      Effective(s, before) + Contribution(Run(s, before), last)
  }

  /** Whatever the schedule, incoming messages included, an open transport to which no
      frame is added takes exactly `Remaining` effective writer steps to drain; it is
      drained when no writer step is possible any more, and then everything accepted is on
      the wire. */
  lemma {:induction false} DrainProgress(s: State, acts: seq<Action>)
    requires Live(s) && forall i :: 0 <= i < |acts| ==> IsWriter(acts[i]) || IsBystander(acts[i])
    ensures var e := Run(s, acts);
            && Live(e) && e.log.accepted == s.log.accepted
            && Remaining(e) == Remaining(s) - Effective(s, acts)
            && (Effective(s, acts) == Remaining(s) <==> Drained(e))
            && (Drained(e) <==> !Possible(e, NextWriter(e)))
  {
    if acts != [] {
      var before, last := acts[..|acts| - 1], acts[|acts| - 1];
      DrainProgress(s, before);
      ProgressStep(Run(s, before), last);
    }
    NoWriterLeft(Run(s, acts));
  }

  lemma {:induction false} WritersKeepRest(s: State, acts: seq<Action>)
    requires forall i :: 0 <= i < |acts| ==> IsWriter(acts[i])
    ensures Run(s, acts).rd == s.rd && Run(s, acts).connected == s.connected && Run(s, acts).kind == s.kind
    ensures Run(s, acts).closing == s.closing && Run(s, acts).passed == s.passed
  {
    if acts != [] {
      WritersKeepRest(s, acts[..|acts| - 1]);
      WriterKeepsRest(Run(s, acts[..|acts| - 1]), acts[|acts| - 1]);
    }
  }

  lemma WriterKeepsRest(s: State, a: Action)
    requires IsWriter(a)
    ensures Step(s, a).rd == s.rd && Step(s, a).connected == s.connected && Step(s, a).kind == s.kind
    ensures Step(s, a).closing == s.closing && Step(s, a).passed == s.passed
  {
    if Possible(s, a) {
      match a
      case RunPosted =>
      case Lock =>
      case StartWrite =>
      case PutOnWire(_) =>
      case CompleteOk(_) =>
    }
  }

  /** A schedule that drains the transport exists from every such state. */
  lemma {:induction false} DrainSchedule(s: State) returns (acts: seq<Action>)
    requires Live(s)
    ensures |acts| == Remaining(s) && (forall i :: 0 <= i < |acts| ==> IsWriter(acts[i]))
    ensures Drained(Run(s, acts))
    decreases Remaining(s)
  {
    acts := [];
    while Remaining(Run(s, acts)) > 0
      invariant Live(Run(s, acts)) && |acts| + Remaining(Run(s, acts)) == Remaining(s)
      invariant forall i :: 0 <= i < |acts| ==> IsWriter(acts[i])
      decreases Remaining(Run(s, acts))
    {
      var e := Run(s, acts);
      var a := NextWriter(e);
      NoWriterLeft(e);
      WriterStepProgress(e, a);
      assert (acts + [a])[..|acts|] == acts;
      acts := acts + [a];
    }
    NoWriterLeft(Run(s, acts));
  }
}
