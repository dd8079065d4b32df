/** Every run of a client with its transports and timers: the connect chain of
    src/transport/ws_transport.cpp together with `on_connected`, `on_error`,
    `schedule_reconnect` and `stop` of src/client/client.cpp. */
module Lifecycle {
  import opened Basics
  import opened Client

  /** How far a transport has come; `Dead` is a failed connect chain. */
  datatype Stage = Resolving | TcpConnecting | TlsHandshaking | WsHandshaking | Up | Dead

  datatype Conn = Conn(stage: Stage, closing: bool)

  datatype State = State(
    core: Core,
    conns: seq<Conn>,         // every transport ever made; the last one is ws_
    timers: nat,              // pending reconnect timers
    resuming: nat,            // runs of on_error past its exchange of connected_
    retired: nat,             // connection attempts that ended without a successor
    delays: seq<nat>,         // the delay of every timer started
    doubled: bool)            // on_connected has run while already connected

  function Init(): State {
    State(Core(true, false, 0, None), [Conn(Resolving, false)], 0, 0, 0, [], false)
  }

  datatype Action =
    | Advance(i: nat)         // a stage of the connect chain succeeds
    | Fail(i: nat)            // a stage of the connect chain fails
    | Error(i: nat)           // a read or write error of a transport that was up
    | Resume                  // the rest of on_error
    | Timer(error: bool)      // a reconnect timer fires
    | Stop                    // stop(), from any thread

  predicate Handshaking(c: Conn) {
    c.stage != Up && c.stage != Dead
  }

  function NextStage(stage: Stage): Stage {
    match stage
    case Resolving => TcpConnecting
    case TcpConnecting => TlsHandshaking
    case TlsHandshaking => WsHandshaking
    case _ => Up
  }

  /** The callback of `fail`: nothing for a closing transport or a client that is not
      connected, otherwise the first half of `on_error`. */
  function Report(s: State, c: Conn): State {
    if c.closing || !s.core.connected then s
    else s.(core := Disconnected(s.core), resuming := s.resuming + 1)
  }

  function Step(s: State, a: Action): State {
    match a
    case Advance(i) =>
      if i >= |s.conns| || !Handshaking(s.conns[i]) then s
      else
        var stage := NextStage(s.conns[i].stage);
        var moved := s.(conns := s.conns[i := s.conns[i].(stage := stage)]);
        if stage == Up then moved.(doubled := s.doubled || s.core.connected, core := Connected(s.core)) else moved
    case Fail(i) =>
      if i >= |s.conns| || !Handshaking(s.conns[i]) then s
      else Report(s, s.conns[i]).(conns := s.conns[i := s.conns[i].(stage := Dead)], retired := s.retired + 1)
    case Error(i) =>
      if i >= |s.conns| || s.conns[i].stage != Up then s else Report(s, s.conns[i])
    case Resume =>
      if s.resuming == 0 then s
      else if !s.core.running then s.(resuming := s.resuming - 1, retired := s.retired + 1)
      else
        var core := Scheduled(s.core);
        s.(resuming := s.resuming - 1, core := core, timers := s.timers + 1, delays := s.delays + [Delay(core.attempt)])
    case Timer(error) =>
      if s.timers == 0 then s
      else if error || !s.core.running then s.(timers := s.timers - 1, retired := s.retired + 1)
      else s.(timers := s.timers - 1, conns := s.conns + [Conn(Resolving, false)])
    case Stop =>
      if !s.core.running || s.conns == [] then s
      else
        var last := |s.conns| - 1;
        s.(core := Stopped(s.core), conns := s.conns[last := s.conns[last].(closing := true)])
  }

  function Run(acts: seq<Action>): State {
    if acts == [] then Init() else Step(Run(acts[..|acts| - 1]), acts[|acts| - 1])
  }

  /** Without interruption the two halves of `on_error` are the whole call. */
  lemma HalvesOfOnError(s: State, i: nat)
    requires i < |s.conns| && s.conns[i] == Conn(Up, false) && s.resuming == 0
    ensures var e := Step(Step(s, Error(i)), Resume);
            e.core == ErrorCall(s.core) && e.timers == s.timers + (if s.core.connected && s.core.running then 1 else 0)
  {
  }

  // ---- Token conservation ----

  function HandshakingCount(conns: seq<Conn>): nat {
    if conns == [] then 0
    else HandshakingCount(conns[..|conns| - 1]) + (if Handshaking(conns[|conns| - 1]) then 1 else 0)
  }

  /** The one connection attempt: it is in a handshake, or up and in use, or being torn
      down, or waiting for a timer, or over for good. */
  function Tokens(s: State): nat {
    (if s.core.connected then 1 else 0) + s.timers + s.resuming + HandshakingCount(s.conns) + s.retired
  }

  predicate Inv(s: State) {
    && Tokens(s) == 1
    && s.conns != []
    && s.core.attempt <= 1
    && (s.core.connected || s.resuming > 0 ==> s.core.attempt == 0)
    && (forall k :: 0 <= k < |s.delays| ==> s.delays[k] == 1)
    && !s.doubled
  }

  lemma {:induction false} CountUpdate(conns: seq<Conn>, i: nat, c: Conn)
    requires i < |conns|
    ensures HandshakingCount(conns[i := c])
         == HandshakingCount(conns) - (if Handshaking(conns[i]) then 1 else 0) + (if Handshaking(c) then 1 else 0)
    ensures Handshaking(conns[i]) ==> HandshakingCount(conns) > 0
  {
    var n := |conns| - 1;
    if i == n {
      assert conns[i := c][..n] == conns[..n];
    } else {
      assert conns[i := c][..n] == conns[..n][i := c];
      CountUpdate(conns[..n], i, c);
    }
  }

  lemma CountAppend(conns: seq<Conn>, c: Conn)
    ensures HandshakingCount(conns + [c]) == HandshakingCount(conns) + (if Handshaking(c) then 1 else 0)
  {
  }

  lemma StageStepInv(s: State, i: nat)
    requires Inv(s)
    ensures Inv(Step(s, Advance(i))) && Inv(Step(s, Fail(i)))
  {
    if i < |s.conns| {
      CountUpdate(s.conns, i, s.conns[i].(stage := NextStage(s.conns[i].stage)));
      CountUpdate(s.conns, i, s.conns[i].(stage := Dead));
    }
  }

  lemma StepInv(s: State, a: Action)
    requires Inv(s)
    ensures Inv(Step(s, a))
  {
    match a
    case Advance(i) => StageStepInv(s, i);
    case Fail(i) => StageStepInv(s, i);
    case Error(_) =>
    case Resume => assert Delay(1) == 1;
    case Timer(_) => CountAppend(s.conns, Conn(Resolving, false));
    case Stop => CountUpdate(s.conns, |s.conns| - 1, s.conns[|s.conns| - 1].(closing := true));
  }

  lemma {:induction false} RunInv(acts: seq<Action>)
    ensures Inv(Run(acts))
  {
    if acts != [] {
      RunInv(acts[..|acts| - 1]);
      StepInv(Run(acts[..|acts| - 1]), acts[|acts| - 1]);
    } else {
      CountAppend([], Conn(Resolving, false));
      assert [] + [Conn(Resolving, false)] == [Conn(Resolving, false)];
    }
  }

  /** In every run, late errors of superseded transports and stop included, there is
      exactly one connection attempt. Hence `on_connected` never runs twice without an
      error between, the attempt counter never exceeds one, and the exponential backoff
      never gets beyond its first delay, one second. */
  lemma TokenConservation(acts: seq<Action>)
    ensures var s := Run(acts);
            && Tokens(s) == 1
            && (HandshakingCount(s.conns) > 0 ==> !s.core.connected && s.timers == 0)
            && !s.doubled
            && s.core.attempt <= 1
            && forall k :: 0 <= k < |s.delays| ==> s.delays[k] == 1
  {
    RunInv(acts);
  }

  lemma Then(before: seq<Action>, a: Action) returns (acts: seq<Action>)
    ensures acts == before + [a] && Run(acts) == Step(Run(before), a)
  {
    acts := before + [a];
    assert acts[..|before|] == before;
  }

  lemma FirstConnects() returns (acts: seq<Action>)
    ensures Run(acts) == Init().(core := Connected(Init().core), conns := [Conn(Up, false)])
  {
    acts := Then([], Advance(0));
    assert Run(acts) == Init().(conns := [Conn(TcpConnecting, false)]);
    acts := Then(acts, Advance(0));
    assert Run(acts) == Init().(conns := [Conn(TlsHandshaking, false)]);
    acts := Then(acts, Advance(0));
    assert Run(acts) == Init().(conns := [Conn(WsHandshaking, false)]);
    acts := Then(acts, Advance(0));
  }

  /** The delay is reached: a connection that was up fails, and one second later the client
      is at work on the next. */
  lemma ReconnectHappens() returns (acts: seq<Action>)
    ensures var s := Run(acts);
            s.delays == [1] && |s.conns| == 2 && Handshaking(s.conns[1]) && s.core.running
  {
    acts := FirstConnects();
    acts := Then(acts, Error(0));
    assert Run(acts).resuming == 1 && Run(acts).delays == [] && Run(acts).core == Core(true, false, 0, None);
    acts := Then(acts, Resume);
    assert Delay(1) == 1;
    acts := Then(acts, Timer(false));
  }

  /** A failed reconnect is final: once the attempt has ended without a successor, no
      continuation ever connects, starts a timer or makes a transport again. */
  lemma {:induction false} RetiredIsForever(acts: seq<Action>, n: nat)
    requires n <= |acts| && Run(acts[..n]).retired > 0
    ensures var (s, e) := (Run(acts[..n]), Run(acts));
            e.retired == 1 && !e.core.connected && e.timers == 0 && |e.conns| == |s.conns| && e.delays == s.delays
  {
    RunInv(acts[..n]);
    if n == |acts| {
      assert acts[..n] == acts;
    } else {
      assert acts[..|acts| - 1][..n] == acts[..n];
      RetiredIsForever(acts[..|acts| - 1], n);
      RunInv(acts[..|acts| - 1]);
      RunInv(acts);
      RetiredStep(Run(acts[..|acts| - 1]), acts[|acts| - 1]);
    }
  }

  lemma RetiredStep(s: State, a: Action)
    requires Inv(s) && s.retired > 0
    ensures var e := Step(s, a);
            e.retired == 1 && !e.core.connected && e.timers == 0 && |e.conns| == |s.conns| && e.delays == s.delays
  {
    StepInv(s, a);
    if a.Advance? && a.i < |s.conns| {
      CountUpdate(s.conns, a.i, s.conns[a.i]);
    }
    if a.Fail? && a.i < |s.conns| {
      CountUpdate(s.conns, a.i, s.conns[a.i]);
    }
  }

  /** In particular a connect chain that fails, whether the first or a reconnect, is never
      retried. */
  lemma FailedChainIsFinal(acts: seq<Action>, i: nat, more: seq<Action>)
    requires i < |Run(acts).conns| && Handshaking(Run(acts).conns[i])
    ensures var e := Run(acts + [Fail(i)] + more);
            !e.core.connected && e.timers == 0 && |e.conns| == |Run(acts).conns|
  {
    var failed := acts + [Fail(i)];
    assert failed[..|acts|] == acts;
    assert (failed + more)[..|failed|] == failed;
    RetiredIsForever(failed + more, |failed|);
  }

  // ---- Stopping ----

  /** Only the current transport is ever closed, and only by stopping. */
  ghost predicate ClosedInv(s: State) {
    && s.conns != []
    && (s.core.running ==> forall i :: 0 <= i < |s.conns| ==> !s.conns[i].closing)
    && (!s.core.running ==> s.conns[|s.conns| - 1].closing)
  }

  lemma ClosedStep(s: State, a: Action)
    requires ClosedInv(s)
    ensures ClosedInv(Step(s, a))
    ensures !s.core.running ==>
              !Step(s, a).core.running && |Step(s, a).conns| == |s.conns| && Step(s, a).delays == s.delays
  {
    match a
    case Advance(_) =>
    case Fail(_) =>
    case Error(_) =>
    case Resume =>
    case Timer(_) =>
    case Stop =>
  }

  lemma {:induction false} ClosedRun(acts: seq<Action>)
    ensures ClosedInv(Run(acts))
  {
    if acts != [] {
      ClosedRun(acts[..|acts| - 1]);
      ClosedStep(Run(acts[..|acts| - 1]), acts[|acts| - 1]);
    }
  }

  /** A stopped client stays stopped: its transport is closed, no timer is started and no
      further transport is made, whatever was pending. */
  lemma {:induction false} StopIsFinal(acts: seq<Action>, n: nat)
    requires n <= |acts| && !Run(acts[..n]).core.running
    ensures var (s, e) := (Run(acts[..n]), Run(acts));
            && !e.core.running && |e.conns| == |s.conns| > 0 && e.delays == s.delays
            && e.conns[|e.conns| - 1].closing
  {
    ClosedRun(acts);
    if n == |acts| {
      assert acts[..n] == acts;
    } else {
      assert acts[..|acts| - 1][..n] == acts[..n];
      StopIsFinal(acts[..|acts| - 1], n);
      ClosedRun(acts[..|acts| - 1]);
      ClosedStep(Run(acts[..|acts| - 1]), acts[|acts| - 1]);
    }
  }

  /** And its transport reports no error any more, nor does one that never came up report a
      failed read or write. */
  lemma ClosedIsSilent(s: State, i: nat)
    ensures i < |s.conns| && s.conns[i].stage != Up ==> Step(s, Error(i)) == s
    ensures i < |s.conns| && s.conns[i].closing ==> Step(s, Error(i)) == s
    ensures i < |s.conns| && s.conns[i].closing ==>
              Step(s, Fail(i)).core == s.core && Step(s, Fail(i)).resuming == s.resuming
  {
  }

  /** The backoff formula itself, for every counter value. */
  lemma DelayBound(attempt: u32)
    ensures 1 <= Delay(attempt) <= 32
    ensures Delay(1) == 1 && (1 <= attempt <= 5 ==> Delay(attempt + 1) == 2 * Delay(attempt))
    ensures attempt == 0 || attempt >= 6 ==> Delay(attempt) == 32
  {
    assert PowerOfTwo(5) == 32 && PowerOfTwo(4) == 16 && PowerOfTwo(3) == 8;
    assert PowerOfTwo(2) == 4 && PowerOfTwo(1) == 2;
  }
}
