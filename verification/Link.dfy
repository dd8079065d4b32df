/** One direction of a connection, end to end: any number of threads send messages
    through one transport, the WebSocket layer carries them in order, the peer's
    transport reads and dispatches them. */
module Link {
  import opened Protocol
  import T = Transport
  import P = TransportProofs

  datatype Link = Link(
    near: T.State,
    far: T.State,
    sending: map<nat, Message>,    // messages of the calls of `send` past the gate
    sent: seq<Message>)            // messages accepted, in mutex order

  function Init(near: T.Kind, far: T.Kind): Link {
    Link(T.Init(near), T.Init(far), map[], [])
  }

  datatype Action =
    | Send(thread: nat, message: Message)    // build the packet, pass the gate
    | Commit(thread: nat)                    // the critical section of that call
    | Near(act: T.Action)                    // anything else in the sending transport
    | Far(act: T.Action)                     // anything in the receiving one but a read
    | Deliver                                // the peer reads the next message

  function Step(l: Link, a: Action): Link {
    match a
    case Send(t, m) =>
      if t in l.near.passed || !T.GateOpen(l.near) then l
      else l.(near := T.Step(l.near, T.SendGate(t, Encode(m))), sending := l.sending[t := m])
    case Commit(t) =>
      if t !in l.sending then l
      else l.(near := T.Step(l.near, T.SendLocked(t)), sending := l.sending - {t}, sent := l.sent + [l.sending[t]])
    case Near(act) =>
      if act.SendGate? || act.SendLocked? then l else l.(near := T.Step(l.near, act))
    case Far(act) =>
      if act.ReadOk? then l else l.(far := T.Step(l.far, act))
    case Deliver =>
      if |l.far.rd.received| >= |l.near.log.wire| then l
      else l.(far := T.Step(l.far, T.ReadOk(l.near.log.wire[|l.far.rd.received|])))
  }

  function Run(l: Link, acts: seq<Action>): Link {
    if acts == [] then l else Step(Run(l, acts[..|acts| - 1]), acts[|acts| - 1])
  }

  ghost predicate Inv(l: Link) {
    && P.Inv(l.near)
    && P.Inv(l.far)
    && l.sending.Keys == l.near.passed.Keys
    && (forall t :: t in l.sending ==> l.near.passed[t] == Encode(l.sending[t]))
    && l.near.log.accepted == EncodeAll(l.sent)
    && l.far.rd.received <= l.near.log.wire
  }

  lemma OnlyReadsReceive(s: T.State, a: T.Action)
    ensures !a.ReadOk? ==> T.Step(s, a).rd.received == s.rd.received
    ensures a.ReadOk? ==>
              T.Step(s, a).rd.received == if T.Possible(s, a) then s.rd.received + [a.bytes] else s.rd.received
  {
  }

  lemma KindsStay(l: Link, a: Action)
    ensures Step(l, a).near.kind == l.near.kind
  {
    match a
    case Send(t, m) => P.StepFrame(l.near, T.SendGate(t, Encode(m)));
    case Commit(t) => P.StepFrame(l.near, T.SendLocked(t));
    case Near(act) => P.StepFrame(l.near, act);
    case Far(_) =>
    case Deliver =>
  }

  lemma SendingStepInv(l: Link, a: Action)
    requires Inv(l) && (a.Send? || a.Commit?)
    ensures Inv(Step(l, a))
  {
    if a.Send? {
      P.StepInv(l.near, T.SendGate(a.thread, Encode(a.message)));
    } else if a.thread in l.sending {
      P.StepInv(l.near, T.SendLocked(a.thread));
      assert EncodeAll(l.sent + [l.sending[a.thread]]) == EncodeAll(l.sent) + [Encode(l.sending[a.thread])];
    }
  }

  lemma DeliverStepInv(l: Link)
    requires Inv(l)
    ensures Inv(Step(l, Deliver))
  {
    if |l.far.rd.received| < |l.near.log.wire| {
      var act := T.ReadOk(l.near.log.wire[|l.far.rd.received|]);
      P.StepInv(l.far, act);
      OnlyReadsReceive(l.far, act);
    }
  }

  lemma StepInv(l: Link, a: Action)
    requires Inv(l)
    ensures Inv(Step(l, a))
  {
    match a
    case Send(_, _) => SendingStepInv(l, a);
    case Commit(_) => SendingStepInv(l, a);
    case Near(act) =>
      P.StepInv(l.near, act);
      if !act.SendGate? && !act.SendLocked? {
        P.OtherActionsSendNothing(l.near, act);
      }
    case Far(act) =>
      P.StepInv(l.far, act);
      OnlyReadsReceive(l.far, act);
    case Deliver => DeliverStepInv(l);
  }

  lemma {:induction false} RunInv(l: Link, acts: seq<Action>)
    requires Inv(l)
    ensures Inv(Run(l, acts))
  {
    if acts != [] {
      RunInv(l, acts[..|acts| - 1]);
      StepInv(Run(l, acts[..|acts| - 1]), acts[|acts| - 1]);
    }
  }

  /** End-to-end refinement, for every interleaving of threads, writes and reads: what
      the peer's packet callback has seen is a prefix of what was accepted, and all of it
      once nobody is writing and the peer has read the wire. */
  lemma EndToEnd(near: T.Kind, far: T.Kind, acts: seq<Action>)
    ensures var l := Run(Init(near, far), acts);
            && l.far.rd.delivered <= l.sent
            && |l.far.rd.delivered| == |l.far.rd.received|
            && (!l.near.writing && |l.far.rd.received| == |l.near.log.wire| ==> l.far.rd.delivered == l.sent)
  {
    P.InitInv(near);
    P.InitInv(far);
    RunInv(Init(near, far), acts);
    var l := Run(Init(near, far), acts);
    DeliveredIsPrefix(l);
    P.NotWritingIsDrained(l.near);
  }

  lemma DeliveredIsPrefix(l: Link)
    requires Inv(l)
    ensures l.far.rd.delivered == l.sent[..|l.far.rd.received|] && |l.far.rd.received| <= |l.near.log.wire| <= |l.sent|
  {
    var n := |l.far.rd.received|;
    assert l.near.log.wire <= l.near.log.accepted;
    assert l.far.rd.received == EncodeAll(l.sent)[..n] == EncodeAll(l.sent[..n]);
    DispatchAllOfEncodeAll(l.sent[..n]);
  }

  // ---- Every schedule delivers ----

  /** No frame is added, and the sender's gate stays open. The peer may do anything. */
  predicate AddsNothing(a: Action) {
    match a
    case Send(_, _) => true
    case Commit(_) => false
    case Near(act) => P.IsWriter(act) || P.IsBystander(act)
    case Far(_) => true
    case Deliver => true
  }

  /** Writer steps still to come, and messages the peer has not read. */
  function Outstanding(l: Link): int {
    P.Remaining(l.near) + |l.sent| - |l.far.rd.received|
  }

  predicate CanDeliver(l: Link) {
    |l.far.rd.received| < |l.near.log.wire| && l.far.rd.reading && l.far.handler == T.Idle
  }

  function Contribution(l: Link, a: Action): nat {
    match a
    case Near(act) => P.Contribution(l.near, act)
    case Deliver => if CanDeliver(l) then 1 else 0
    case _ => 0
  }

  /** The number of writer steps and deliveries that were possible when their turn came. */
  function Effective(l: Link, acts: seq<Action>): nat {
    if acts == [] then 0
    else Effective(l, acts[..|acts| - 1]) + Contribution(Run(l, acts[..|acts| - 1]), acts[|acts| - 1])
  }

  lemma NearProgress(l: Link, act: T.Action)
    requires Inv(l) && P.Live(l.near) && (P.IsWriter(act) || P.IsBystander(act))
    ensures var e := Step(l, Near(act));
            && P.Live(e.near) && e.sent == l.sent && e.far == l.far
            && P.Remaining(e.near) == P.Remaining(l.near) - P.Contribution(l.near, act)
  {
    if !act.SendGate? {
      P.ProgressStep(l.near, act);
    }
  }

  lemma DeliverProgress(l: Link)
    ensures var e := Step(l, Deliver);
            && e.near == l.near && e.sent == l.sent
            && |e.far.rd.received| == |l.far.rd.received| + Contribution(l, Deliver)
  {
    if |l.far.rd.received| < |l.near.log.wire| {
      OnlyReadsReceive(l.far, T.ReadOk(l.near.log.wire[|l.far.rd.received|]));
    }
  }

  lemma ProgressStep(l: Link, a: Action)
    requires Inv(l) && P.Live(l.near) && AddsNothing(a)
    ensures var e := Step(l, a);
            P.Live(e.near) && e.sent == l.sent && Outstanding(e) == Outstanding(l) - Contribution(l, a)
  {
    match a
    case Send(t, m) => P.BystanderStep(l.near, T.SendGate(t, Encode(m)));
    case Near(act) => NearProgress(l, act);
    case Far(act) => OnlyReadsReceive(l.far, act);
    case Deliver => DeliverProgress(l);
  }

  /** Whatever the schedule, as long as no frame is added and the sender's gate stays open,
      every effective writer step and delivery brings the end nearer by exactly one; at the
      end, and not before, nothing is in flight and the peer has seen everything. */
  lemma {:induction false} DeliveryProgress(l: Link, acts: seq<Action>)
    requires Inv(l) && P.Live(l.near) && forall i :: 0 <= i < |acts| ==> AddsNothing(acts[i])
    ensures var e := Run(l, acts);
            && Inv(e) && P.Live(e.near) && e.sent == l.sent
            && Outstanding(e) == Outstanding(l) - Effective(l, acts)
            && Outstanding(e) >= 0
            && (Effective(l, acts) == Outstanding(l) <==> !e.near.writing && e.far.rd.delivered == e.sent)
  {
    if acts != [] {
      var before, last := acts[..|acts| - 1], acts[|acts| - 1];
      DeliveryProgress(l, before);
      ProgressStep(Run(l, before), last);
      StepInv(Run(l, before), last);
    }
    EndIsDelivered(Run(l, acts));
  }

  lemma EndIsDelivered(l: Link)
    requires Inv(l) && P.Live(l.near)
    ensures 0 <= Outstanding(l)
    ensures Outstanding(l) == 0 <==> !l.near.writing && l.far.rd.delivered == l.sent
  {
    DeliveredIsPrefix(l);
    P.NoWriterLeft(l.near);
    P.NotWritingIsDrained(l.near);
  }

  ghost predicate Reads(far: T.State) {
    far.rd.reading && T.MayRead(far)
  }

  lemma LockStep(far: T.State)
    ensures var e := T.Step(far, T.Lock); e.handler != T.Checked && e.rd == far.rd && T.MayRead(e) == T.MayRead(far)
  {
    if far.handler == T.Checked {
      LockedStep(far);
    }
  }

  lemma LockedStep(far: T.State)
    requires far.handler == T.Checked
    ensures T.Step(far, T.Lock) == T.Take(far)
  {
  }

  lemma StartStep(far: T.State)
    requires far.handler != T.Checked
    ensures var e := T.Step(far, T.StartWrite); e.handler == T.Idle && e.rd == far.rd && T.MayRead(e) == T.MayRead(far)
  {
  }

  /** The peer's strand finishes the writer call it may be in. */
  lemma FreeStrand(l: Link)
    requires Inv(l) && P.Live(l.near) && Reads(l.far)
    ensures var e := Run(l, [Far(T.Lock), Far(T.StartWrite)]);
            && Inv(e) && e.near == l.near && e.sent == l.sent && Reads(e.far) && e.far.handler == T.Idle
  {
    var acts := [Far(T.Lock), Far(T.StartWrite)];
    RunInv(l, acts);
    LockStep(l.far);
    StartStep(T.Step(l.far, T.Lock));
    assert acts[..1] == [Far(T.Lock)];
    assert Run(l, acts[..1]) == Step(Run(l, []), Far(T.Lock));
    assert Run(l, acts).far == T.Step(T.Step(l.far, T.Lock), T.StartWrite);
  }

  /** While the gate is open a call of `send` by a thread that is not in one is accepted. */
  lemma SendIsAccepted(l: Link, thread: nat, m: Message)
    requires Inv(l) && T.GateOpen(l.near) && thread !in l.near.passed
    ensures var e := Run(l, [Send(thread, m), Commit(thread)]);
            && e.sent == l.sent + [m] && e.near == T.SendCall(l.near, Encode(m))
            && e.sending == l.sending && e.far == l.far
  {
    var acts := [Send(thread, m), Commit(thread)];
    assert acts[..1] == [Send(thread, m)] && acts[..1][..0] == [];
    assert Run(l, acts[..1]) == Step(l, Send(thread, m));
    assert l.sending[thread := m] - {thread} == l.sending;
    T.SendCallIsARun(l.near, thread, Encode(m));
  }

  /** Nothing is stuck: from every state with an open, healthy sender and a peer that is
      reading, whatever its own writer is doing, a finite continuation delivers everything
      accepted so far. */
  lemma EventuallyDelivered(l: Link) returns (acts: seq<Action>)
    requires Inv(l) && P.Live(l.near) && Reads(l.far)
    ensures Run(l, acts).far.rd.delivered == l.sent == Run(l, acts).sent
  {
    FreeStrand(l);
    acts := [Far(T.Lock), Far(T.StartWrite)];
    var writes := P.DrainSchedule(l.near);
    NearRun(l, acts, writes);
    acts := acts + NearAll(writes);
    RunInv(l, acts);
    while |Run(l, acts).far.rd.received| < |Run(l, acts).near.log.wire|
      invariant Inv(Run(l, acts)) && P.Drained(Run(l, acts).near) && Run(l, acts).sent == l.sent
      invariant Reads(Run(l, acts).far) && Run(l, acts).far.handler == T.Idle
      decreases |Run(l, acts).near.log.wire| - |Run(l, acts).far.rd.received|
    {
      var e := Run(l, acts);
      StepInv(e, Deliver);
      DeliverStep(e);
      assert (acts + [Deliver])[..|acts|] == acts;
      acts := acts + [Deliver];
    }
    DeliveredIsPrefix(Run(l, acts));
    assert EncodeAll(l.sent) == Run(l, acts).near.log.accepted;
  }

  lemma DeliverStep(l: Link)
    requires |l.far.rd.received| < |l.near.log.wire|
    requires Reads(l.far) && l.far.handler == T.Idle
    ensures var e := Step(l, Deliver);
            && e.near == l.near && e.sent == l.sent && |e.far.rd.received| == |l.far.rd.received| + 1
            && Reads(e.far) && e.far.handler == T.Idle
  {
  }

  function NearAll(writes: seq<T.Action>): seq<Action> {
    seq(|writes|, i requires 0 <= i < |writes| => Near(writes[i]))
  }

  lemma NearStep(l: Link, act: T.Action)
    requires P.IsWriter(act)
    ensures Step(l, Near(act)) == l.(near := T.Step(l.near, act))
  {
  }

  lemma LastStep(l: Link, acts: seq<Action>, a: Action)
    ensures Run(l, acts + [a]) == Step(Run(l, acts), a)
  {
    assert (acts + [a])[..|acts|] == acts;
  }

  lemma LastWrite(s: T.State, writes: seq<T.Action>, act: T.Action)
    ensures T.Run(s, writes + [act]) == T.Step(T.Run(s, writes), act)
  {
    assert (writes + [act])[..|writes|] == writes;
  }

  lemma NearAllOfMore(acts: seq<Action>, writes: seq<T.Action>, act: T.Action)
    ensures acts + NearAll(writes) + [Near(act)] == acts + NearAll(writes + [act])
  {
    assert NearAll(writes) + [Near(act)] == NearAll(writes + [act]);
  }

  /** One more writer step on the near side. */
  lemma NearRunStep(l: Link, acts: seq<Action>, writes: seq<T.Action>, act: T.Action)
    requires P.IsWriter(act)
    requires Run(l, acts + NearAll(writes)) == Run(l, acts).(near := T.Run(Run(l, acts).near, writes))
    ensures Run(l, acts + NearAll(writes + [act])) ==
              Run(l, acts).(near := T.Run(Run(l, acts).near, writes + [act]))
  {
    NearAllOfMore(acts, writes, act);
    LastStep(l, acts + NearAll(writes), Near(act));
    NearStep(Run(l, acts + NearAll(writes)), act);
    LastWrite(Run(l, acts).near, writes, act);
  }

  lemma {:induction false} NearRun(l: Link, acts: seq<Action>, writes: seq<T.Action>)
    requires forall i :: 0 <= i < |writes| ==> P.IsWriter(writes[i])
    ensures Run(l, acts + NearAll(writes)) == Run(l, acts).(near := T.Run(Run(l, acts).near, writes))
  {
    if writes == [] {
      assert acts + NearAll(writes) == acts;
    } else {
      var before, last := writes[..|writes| - 1], writes[|writes| - 1];
      NearRun(l, acts, before);
      NearRunStep(l, acts, before, last);
      assert before + [last] == writes;
    }
  }

  /** An open, healthy sender can put all that was accepted on the wire while the peer waits. */
  lemma WriteAll(l: Link, acts: seq<Action>) returns (writes: seq<T.Action>)
    requires Inv(l) && P.Live(Run(l, acts).near)
    ensures var (s, e) := (Run(l, acts), Run(l, acts + NearAll(writes)));
            && e == s.(near := e.near) && e.near.log.wire == EncodeAll(s.sent)
            && e.near.closing == s.near.closing && !e.near.failed && e.near.passed == s.near.passed
  {
    writes := P.DrainSchedule(Run(l, acts).near);
    NearRun(l, acts, writes);
    P.WritersKeepRest(Run(l, acts).near, writes);
    P.DrainProgress(Run(l, acts).near, writes);
    WireOfDrained(l, acts + NearAll(writes));
  }

  lemma WireOfDrained(l: Link, acts: seq<Action>)
    requires Inv(l) && P.Drained(Run(l, acts).near)
    ensures Run(l, acts).near.log.wire == EncodeAll(Run(l, acts).sent)
  {
    RunInv(l, acts);
  }

  lemma CallIsLive(l: Link, m: Message)
    requires Inv(l) && l.near.kind == T.ClientSide && !l.near.closing && !l.near.failed && l.near.passed == map[]
    ensures var e := Run(l, [Send(0, m), Commit(0)]);
            P.Live(e.near) && e.sent == l.sent + [m] && !e.near.closing && e.near.passed == map[]
  {
    SendIsAccepted(l, 0, m);
    RunInv(l, [Send(0, m), Commit(0)]);
  }

  /** It accepts a message and can put it on the wire, with all that came before. */
  lemma SendAndWrite(l: Link, m: Message) returns (acts: seq<Action>)
    requires Inv(l) && l.near.kind == T.ClientSide && !l.near.closing && !l.near.failed && l.near.passed == map[]
    ensures forall i :: 0 <= i < |acts| ==> !acts[i].Far? && !acts[i].Deliver?
    ensures var e := Run(l, acts);
            && e.sent == l.sent + [m] && e.near.log.wire == EncodeAll(e.sent)
            && !e.near.closing && !e.near.failed && e.near.passed == map[]
  {
    var call := [Send(0, m), Commit(0)];
    CallIsLive(l, m);
    var writes := WriteAll(l, call);
    acts := call + NearAll(writes);
  }
}
