/** Packets that are part of others, in the same order. */
module Order {
  import opened Basics
  import opened Protocol

  predicate InOrder(a: seq<Payload>, b: seq<Payload>)
    decreases |b|
  {
    a == [] ||
    (b != [] &&
      (InOrder(a, b[..|b| - 1]) || (a[|a| - 1] == b[|b| - 1] && InOrder(a[..|a| - 1], b[..|b| - 1]))))
  }

  lemma InOrderAppend(a: seq<Payload>, b: seq<Payload>, p: Payload)
    requires InOrder(a, b)
    ensures InOrder(a, b + [p]) && InOrder(a + [p], b + [p])
  {
    assert (b + [p])[..|b|] == b && (a + [p])[..|a|] == a;
  }

  lemma {:induction false} InOrderDrop(a: seq<Payload>, p: Payload, b: seq<Payload>)
    requires InOrder(a + [p], b)
    ensures InOrder(a, b)
    decreases |b|
  {
    var c := b[..|b| - 1];
    assert (a + [p])[..|a|] == a;
    if InOrder(a + [p], c) {
      InOrderDrop(a, p, c);
    }
    InOrderAppend(a, c, b[|b| - 1]);
    assert b == c + [b[|b| - 1]];
  }

  lemma {:induction false} InOrderTransitive(a: seq<Payload>, b: seq<Payload>, c: seq<Payload>)
    requires InOrder(a, b) && InOrder(b, c)
    ensures InOrder(a, c)
    decreases |c|
  {
    if a != [] {
      var (b', c') := (b[..|b| - 1], c[..|c| - 1]);
      assert c == c' + [c[|c| - 1]];
      if InOrder(b, c') {
        InOrderTransitive(a, b, c');
        InOrderAppend(a, c', c[|c| - 1]);
      } else if InOrder(a, b') {
        InOrderTransitive(a, b', c');
        InOrderAppend(a, c', c[|c| - 1]);
      } else {
        InOrderTransitive(a[..|a| - 1], b', c');
        InOrderAppend(a[..|a| - 1], c', c[|c| - 1]);
        assert a == a[..|a| - 1] + [c[|c| - 1]];
      }
    }
  }

  lemma {:induction false} InOrderPrefix(a: seq<Payload>, rest: seq<Payload>)
    ensures InOrder(a, a + rest)
    decreases |a| + |rest|
  {
    if rest != [] {
      InOrderPrefix(a, rest[..|rest| - 1]);
      InOrderAppend(a, a + rest[..|rest| - 1], rest[|rest| - 1]);
      assert a + rest == a + rest[..|rest| - 1] + [rest[|rest| - 1]];
    } else if a != [] {
      InOrderPrefix(a[..|a| - 1], []);
      assert a[..|a| - 1] + [] == (a + [])[..|a| - 1];
    }
  }

  lemma {:induction false} InOrderSize(a: seq<Payload>, b: seq<Payload>)
    requires InOrder(a, b)
    ensures |a| <= |b| && (|a| == |b| ==> a == b)
    ensures forall p :: p in a ==> p in b
    decreases |b|
  {
    if a != [] {
      var c := b[..|b| - 1];
      if InOrder(a, c) {
        InOrderSize(a, c);
      } else {
        InOrderSize(a[..|a| - 1], c);
        assert a == a[..|a| - 1] + [b[|b| - 1]];
      }
      assert b == c + [b[|b| - 1]];
    }
  }

  // ---- The IP packets among messages ----

  lemma {:induction false} IpPayloadsConcat(a: seq<Message>, b: seq<Message>)
    ensures IpPayloads(a + b) == IpPayloads(a) + IpPayloads(b)
  {
    if b == [] {
      assert a + b == a;
    } else {
      var c := b[..|b| - 1];
      assert (a + b)[..|a + b| - 1] == a + c;
      IpPayloadsConcat(a, c);
    }
  }

  lemma {:induction false} PayloadOf(ms: seq<Message>, p: Payload) returns (i: nat)
    requires p in IpPayloads(ms)
    ensures i < |ms| && ms[i] == Message(IP_PACKET, p)
  {
    i := |ms| - 1;
    if ms[i] != Message(IP_PACKET, p) {
      i := PayloadOf(ms[..|ms| - 1], p);
    }
  }

  /** The first `n` messages and the rest, when something is pending behind them. */
  lemma Parts(sent: seq<Message>, n: nat, pending: seq<Payload>, routed: seq<Payload>, written: seq<Payload>)
    requires n <= |sent| && InOrder(IpPayloads(sent) + pending, routed) && InOrder(written, IpPayloads(sent[..n]))
    ensures InOrder(written, routed)
    ensures |IpPayloads(sent)| == |IpPayloads(sent[..n])| + |IpPayloads(sent[n..])|
  {
    var got, rest := IpPayloads(sent[..n]), IpPayloads(sent[n..]);
    assert sent[..n] + sent[n..] == sent;
    IpPayloadsConcat(sent[..n], sent[n..]);
    assert IpPayloads(sent) + pending == got + (rest + pending);
    InOrderPrefix(got, rest + pending);
    InOrderTransitive(got, IpPayloads(sent) + pending, routed);
    InOrderTransitive(written, got, routed);
  }
}
