/**
 From four relay rounds on, a run without faults in which everything is delivered can
 still end with nobody deciding: each party may see, as the first round-2 message of
 every other party, the one that it signed itself, and then nobody starts round 3.
 */
module Stall {
  import opened Wrappers
  import opened Messages
  import opened Broadcaster
  import opened Network
  import opened Agreement
  import opened Decisions
  import opened Runs

  ghost predicate FaultFree(w: World) {
    WellFormed(w) && w.honest == w.cfg.group && w.cfg.relayRounds >= 4
  }

  /** Nothing beyond round 2 was sent, and round-2 messages were processed only by their own signers. */
  ghost predicate Lazy(w: World, n: Net, v: Value) {
    && Reached(w, n) && n.proposal == Some(v) && n.joined.Keys == w.cfg.group - {w.cfg.origin}
    && (forall x :: x in n.sent ==> x.msg.round <= 2)
    && (forall p :: p in n.parties ==> !n.parties[p].finalReached)
  }

  ghost function Acks(w: World, v: Value): set<Incoming> {
    set q | q in w.cfg.group :: Incoming(q, Extended(q, Opening(w.cfg, v)))
  }

  ghost function Replies(w: World, v: Value): set<Incoming> {
    set q, x | q in w.cfg.group && x in Acks(w, v) :: Incoming(q, Extended(q, x.msg))
  }

  /** All messages that a lazy run can send, with their receivers. */
  ghost function Universe(w: World, v: Value): set<(Address, Incoming)> {
    var all := {Incoming(w.cfg.origin, Opening(w.cfg, v))} + Acks(w, v) + Replies(w, v);
    set q, x | q in w.cfg.group && x in all :: (q, x)
  }

  lemma EarlySent(w: World, n: Net, v: Value, x: Incoming)
    requires FaultFree(w) && Reached(w, n) && n.proposal == Some(v) && x in n.sent && x.msg.round <= 1
    requires x.sender in w.cfg.group
    ensures x.msg.round == 0 ==> x == Incoming(w.cfg.origin, Opening(w.cfg, v))
    ensures x.msg.round == 1 ==> x.sender != w.cfg.origin && x.msg == Extended(x.sender, Opening(w.cfg, v)) && x in Acks(w, v)
  {
    HonestChain(w, n, x);
    assert IsOpening(w, n, x) || IsRelay(w, n, x) by { ReachedKeeps(w, n); }
    if x.msg.round == 1 {
      var k := Parent(x);
      ProcessedFacts(w, n, k);
      var y := Incoming(k.1, n.processed[k]);
      assert k.1 == w.cfg.origin;
      EarlyUnique(w, n, y, Incoming(w.cfg.origin, Opening(w.cfg, v))) by { ProposalFacts(w, n); }
    }
  }

  lemma LateSent(w: World, n: Net, v: Value, x: Incoming)
    requires FaultFree(w) && Reached(w, n) && n.proposal == Some(v) && x in n.sent && x.msg.round == 2
    requires x.sender in w.cfg.group
    ensures x in Replies(w, v)
  {
    HonestChain(w, n, x);
    assert IsRelay(w, n, x) by { ReachedKeeps(w, n); }
    var k := Parent(x);
    ProcessedFacts(w, n, k);
    var y := Incoming(k.1, n.processed[k]);
    assert y.sender in w.cfg.group by { ReachedKeeps(w, n); }
    EarlySent(w, n, v, y);
  }

  lemma SentInUniverse(w: World, n: Net, v: Value, x: Incoming, q: Address)
    requires FaultFree(w) && Lazy(w, n, v) && x in n.sent && x.sender in w.cfg.group && q in w.cfg.group
    ensures (q, x) in Universe(w, v)
  {
    hide Reached, Acks, Replies;
    if x.msg.round <= 1 {
      EarlySent(w, n, v, x);
    } else {
      LateSent(w, n, v, x);
    }
  }

  /** Delivering `x` to `q` would add nothing beyond round 2. */
  ghost predicate Harmless(n: Net, q: Address, x: Incoming)
    requires q in n.parties
  {
    x.msg.round <= 1 || SignedBy(q, x.msg.signatures) || (x.sender, x.msg.round) in n.parties[q].received
  }

  /** Delivering `x` keeps the run lazy if it starts no new round beyond 2. */
  lemma DeliverLazy(w: World, n: Net, v: Value, q: Address, x: Incoming) returns (n': Net)
    requires FaultFree(w) && Lazy(w, n, v) && x in n.sent && x.sender in w.cfg.group - {q} && q in w.cfg.group
    requires Harmless(n, q, x)
    ensures Lazy(w, n', v) && n'.taken == n.taken + {(q, x)}
  {
    HonestChain(w, n, x);
    hide ChainValid;
    if x.msg.round == 0 {
      OpeningReady(w, n, q, x);
    }
    ReachStep(w, n, Deliver(q, x));
    n' := Delivered(w, n, q, x);
    HarmlessStep(w, n, q, x);
  }

  lemma HarmlessStep(w: World, n: Net, q: Address, x: Incoming)
    requires q in n.parties && ChainValid(w.cfg, x.sender, x.msg) && x.msg.round <= 2 && w.cfg.relayRounds >= 4
    requires Harmless(n, q, x)
    requires (forall y :: y in n.sent ==> y.msg.round <= 2) && (forall p :: p in n.parties ==> !n.parties[p].finalReached)
    ensures var n' := Delivered(w, n, q, x);
            && (forall y :: y in n'.sent ==> y.msg.round <= 2)
            && (forall p :: p in n'.parties ==> !n'.parties[p].finalReached)
            && n'.taken == n.taken + {(q, x)} && n'.proposal == n.proposal && n'.joined == n.joined
  {
  }

  /** Once the early messages are delivered, `h` has sent its reply to the acknowledgment of `q`. */
  lemma OwnReplySent(w: World, n: Net, v: Value, q: Address, h: Address) returns (y: Incoming)
    requires FaultFree(w) && Reached(w, n) && n.proposal == Some(v)
    requires q in w.cfg.group && h in w.cfg.group && q != h && q != w.cfg.origin && h != w.cfg.origin
    requires forall x, p :: x in n.sent && x.msg.round <= 1 && p in w.cfg.group && p != x.sender ==> (p, x) in n.taken
    ensures y in n.sent && y.sender == h && y.msg.round == 2 && SignedBy(q, y.msg.signatures)
  {
    ProposalFacts(w, n);
    var o := Incoming(w.cfg.origin, Opening(w.cfg, v));
    var m := TookThis(w, n, o, q);
    EarlySent(w, n, v, Incoming(w.cfg.origin, m));
    assert !SignedBy(q, m.signatures);
    var ack := Incoming(q, Extended(q, m));
    var m' := TookThis(w, n, ack, h);
    EarlySent(w, n, v, Incoming(q, m'));
    assert m'.signatures[1].signer == q && !SignedBy(h, m'.signatures);
    y := Incoming(h, Extended(h, m'));
    assert y.msg.signatures[1].signer == q;
  }

  lemma AllEarlyTaken(w: World, n: Net)
    requires Reached(w, n) && w.honest == w.cfg.group && forall q, x :: Pending(w, n, q, x) ==> x.msg.round > 1
    ensures forall x, p :: x in n.sent && x.msg.round <= 1 && p in w.cfg.group && p != x.sender ==> (p, x) in n.taken
  {
    ReachedKeeps(w, n);
    forall x, p | x in n.sent && x.msg.round <= 1 && p in w.cfg.group && p != x.sender
      ensures (p, x) in n.taken
    {
      assert !Pending(w, n, p, x);
    }
  }

  lemma NotYetTaken(w: World, n: Net, q: Address, y: Incoming)
    requires Reached(w, n) && q in w.honest && y in n.sent && y.sender in w.honest
    requires y.msg.round <= w.cfg.relayRounds && (y.sender, y.msg.round) !in n.parties[q].received
    ensures (q, y) !in n.taken
  {
    HonestChain(w, n, y);
    ReachedKeeps(w, n);
  }

  /** When only round-2 messages are pending, each receiver of one has a harmless one to take. */
  lemma HarmlessReply(w: World, n: Net, v: Value, q: Address, x: Incoming) returns (y: Incoming)
    requires FaultFree(w) && Lazy(w, n, v) && Pending(w, n, q, x)
    requires forall q', x' :: Pending(w, n, q', x') ==> x'.msg.round > 1
    ensures Pending(w, n, q, y) && Harmless(n, q, y)
  {
    HonestChain(w, n, x);
    y := x;
    if q == w.cfg.origin {
      assert x.msg.signatures[0].signer == q;
    } else if (x.sender, 2) !in n.parties[q].received {
      AllEarlyTaken(w, n);
      y := OwnReplySent(w, n, v, q, x.sender);
      NotYetTaken(w, n, q, y);
    }
  }

  lemma Shrinks<T>(u: set<T>, taken: set<T>, t: T)
    requires t in u && t !in taken
    ensures |u - (taken + {t})| < |u - taken|
  {
    assert u - taken == (u - (taken + {t})) + {t};
  }

  /** While something is pending, a lazy run can take one more message and stay lazy. */
  lemma Progress(w: World, n: Net, v: Value, q: Address, x: Incoming) returns (n': Net)
    requires FaultFree(w) && Lazy(w, n, v) && Pending(w, n, q, x) && Harmless(n, q, x)
    ensures Lazy(w, n', v) && |Universe(w, v) - n'.taken| < |Universe(w, v) - n.taken|
  {
    SentInUniverse(w, n, v, x, q);
    n' := DeliverLazy(w, n, v, q, x);
    Shrinks(Universe(w, v), n.taken, (q, x));
  }

  lemma {:induction false} Finish(w: World, n: Net, v: Value) returns (n': Net)
    requires FaultFree(w) && Lazy(w, n, v)
    ensures Lazy(w, n', v) && AllDelivered(w, n')
    decreases |Universe(w, v) - n.taken|
  {
    if q, x :| Pending(w, n, q, x) && x.msg.round <= 1 {
      n' := Progress(w, n, v, q, x);
      n' := Finish(w, n', v);
    } else if q, x :| Pending(w, n, q, x) {
      var y := HarmlessReply(w, n, v, q, x);
      n' := Progress(w, n, v, q, y);
      n' := Finish(w, n', v);
    } else {
      AllTaken(w, n);
      n' := n;
    }
  }

  /**
   For every fault-free group, value and number of relay rounds from four on, some run
   delivers everything and yet no party, not even the origin, decides "valid".
   */
  lemma NobodyDecides(w: World, v: Value) returns (n: Net)
    requires FaultFree(w)
    ensures Reached(w, n) && AllDelivered(w, n) && n.proposal == Some(v)
    ensures forall p :: p in w.cfg.group ==> !Decides(n.parties[p])
  {
    n := AllJoin(w, v);
    n := Finish(w, n, v);
  }
}
