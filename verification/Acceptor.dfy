/** The accept loop of src/server/server.cpp and its two wrapping counters.

    `on_accept` takes a session id, then an address offset, and only then re-arms the
    acceptor. The model lets any number of accepts and handlers be outstanding and
    shows that there is always exactly one, so the two counters never drift apart. */
module Acceptor {
  import opened Basics
  import opened Address

  /** A running `on_accept`: just entered, holding an id, holding an id and an offset. */
  datatype Handler = Entered | HasSid(sid: u32) | HasBoth(sid: u32, offset: u32)

  datatype State = State(
    armed: nat,                       // outstanding `async_accept` operations
    running: seq<Handler>,
    nextSid: u32,                     // next_session_id_
    nextOffset: u32,                  // next_client_ip_offset_
    issued: seq<(u32, u32)>)          // ids and offsets handed to connections

  function Init(): State {
    State(1, [], 1, 2, [])
  }

  datatype Action =
    | Incoming              // an accept completes
    | Refused               // an accept completes with an error and is re-armed at once
    | FetchSid(i: nat)      // next_session_id_.fetch_add(1)
    | FetchOffset(i: nat)   // next_client_ip_offset_.fetch_add(1)
    | Rearm(i: nat)         // handshake launched, then do_accept()

  function Step(s: State, a: Action): State {
    match a
    case Incoming => if s.armed == 0 then s else s.(armed := s.armed - 1, running := s.running + [Entered])
    case Refused => s
    case FetchSid(i) =>
      if i < |s.running| && s.running[i].Entered?
      then s.(running := s.running[i := HasSid(s.nextSid)], nextSid := Add32(s.nextSid, 1)) else s
    case FetchOffset(i) =>
      if i < |s.running| && s.running[i].HasSid?
      then s.(running := s.running[i := HasBoth(s.running[i].sid, s.nextOffset)],
              nextOffset := Add32(s.nextOffset, 1)) else s
    case Rearm(i) =>
      if i < |s.running| && s.running[i].HasBoth?
      then s.(running := s.running[..i] + s.running[i + 1..], armed := s.armed + 1,
              issued := s.issued + [(s.running[i].sid, s.running[i].offset)]) else s
  }

  function Run(acts: seq<Action>): State {
    if acts == [] then Init() else Step(Run(acts[..|acts| - 1]), acts[|acts| - 1])
  }

  /** What the n-th accepted connection gets. */
  function SidOf(n: nat): u32 {
    (n + 1) % TWO_32
  }

  function OffsetOf(n: nat): u32 {
    Add32(SidOf(n), 1)
  }

  ghost predicate Inv(s: State) {
    var n := |s.issued|;
    && s.armed + |s.running| == 1
    && (forall j :: 0 <= j < n ==> s.issued[j] == (SidOf(j), OffsetOf(j)))
    && (if s.running == [] || s.running[0].Entered? then s.nextSid == SidOf(n) && s.nextOffset == OffsetOf(n)
        else s.nextSid == SidOf(n + 1) && s.running[0].sid == SidOf(n)
             && (if s.running[0].HasSid? then s.nextOffset == OffsetOf(n)
                 else s.nextOffset == OffsetOf(n + 1) && s.running[0].offset == OffsetOf(n)))
  }

  lemma SidAdvances(n: nat)
    ensures Add32(SidOf(n), 1) == SidOf(n + 1)
    ensures Add32(OffsetOf(n), 1) == OffsetOf(n + 1)
  {
  }

  lemma {:induction false} RunInv(acts: seq<Action>)
    ensures Inv(Run(acts))
  {
    if acts != [] {
      var s, a := Run(acts[..|acts| - 1]), acts[|acts| - 1];
      RunInv(acts[..|acts| - 1]);
      SidAdvances(|s.issued|);
      match a
      case Incoming =>
      case Refused =>
      case FetchSid(_) =>
      case FetchOffset(_) =>
      case Rearm(_) =>
    }
  }

  lemma Then(before: seq<Action>, a: Action)
    ensures Run(before + [a]) == Step(Run(before), a)
  {
    assert (before + [a])[..|before|] == before;
  }

  /** Any number of connections do get their pair. */
  lemma {:induction false} Connections(n: nat) returns (acts: seq<Action>)
    ensures Run(acts).armed == 1 && Run(acts).running == [] && |Run(acts).issued| == n
  {
    acts := [];
    if n > 0 {
      acts := Connections(n - 1);
      Then(acts, Incoming);
      Then(acts + [Incoming], FetchSid(0));
      Then(acts + [Incoming] + [FetchSid(0)], FetchOffset(0));
      Then(acts + [Incoming] + [FetchSid(0)] + [FetchOffset(0)], Rearm(0));
      acts := acts + [Incoming] + [FetchSid(0)] + [FetchOffset(0)] + [Rearm(0)];
    }
  }

  /** On every run the counters move in step: the n-th connection gets id n + 1 and
      offset id + 1, both modulo 2^32. */
  lemma IssuedPairs(acts: seq<Action>, n: nat)
    requires n < |Run(acts).issued|
    ensures var (sid, offset) := Run(acts).issued[n];
            sid == (n + 1) % TWO_32 && offset == (sid + 1) % TWO_32
  {
    RunInv(acts);
    Wrap32IsModulo(SidOf(n), 1);
  }

  /** Two connections share an id, and an address, exactly when the counters have
      wrapped a whole number of times between them. */
  lemma AddressReuse(subnet: string, i: nat, j: nat)
    ensures SidOf(i) == SidOf(j) <==> (i - j) % TWO_32 == 0
    ensures VirtualAddress(subnet, SidOf(i)) == VirtualAddress(subnet, SidOf(j)) <==> SidOf(i) == SidOf(j)
    ensures i < j < i + TWO_32 ==> VirtualAddress(subnet, SidOf(i)) != VirtualAddress(subnet, SidOf(j))
  {
    if VirtualAddress(subnet, SidOf(i)) == VirtualAddress(subnet, SidOf(j)) {
      VirtualAddressInjective(subnet, SidOf(i), SidOf(j));
    }
    SameResidue(i + 1, j + 1);
  }

  lemma SameResidue(a: nat, b: nat)
    ensures a % TWO_32 == b % TWO_32 <==> (a - b) % TWO_32 == 0
  {
  }
}
