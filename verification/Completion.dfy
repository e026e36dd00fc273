/**
 Every run, with faulty parties or without, can go on until everything that code-following
 parties sent is delivered; and when, without faults, that makes everybody decide.
 */
module Completion {
  import opened Wrappers
  import opened Collections
  import opened Messages
  import opened Broadcaster
  import opened Network
  import opened Agreement
  import opened Decisions
  import opened Runs
  import opened Traffic
  import opened Stall

  /** All code-following parties have started. */
  ghost predicate UnderWay(w: World, n: Net) {
    && Reached(w, n) && w.cfg.relayRounds >= 1 && n.joined.Keys == w.honest - {w.cfg.origin}
    && (w.cfg.origin in w.honest ==> n.proposal.Some?)
  }

  /** The most messages that code-following parties can ever send. */
  function MostSent(w: World): int {
    1 + |w.honest| * MostRelays(w)
  }

  lemma Increases(a: int, b: int, c: int)
    requires a >= 0 && b <= c
    ensures a * b <= a * c && b * a <= c * a
  {
  }

  /** The origin sends one message, the others relay. */
  lemma SentParts(w: World, n: Net)
    requires UnderWay(w, n)
    ensures |HonestOut(w, n)| <= 1 + |SentByAny(n, w.honest - {w.cfg.origin})|
  {
    var o, relays := w.cfg.origin, SentByAny(n, w.honest - {w.cfg.origin});
    if o in w.honest {
      RelayBound(w, n, o);
      assert HonestOut(w, n) == relays + SentBy(n, o);
    } else {
      assert HonestOut(w, n) == relays;
    }
  }

  lemma NoNegative(w: World)
    requires w.cfg.origin in w.cfg.group && w.cfg.relayRounds >= 1
    ensures MostRelays(w) >= 0
  {
    SubsetCount({w.cfg.origin}, w.cfg.group);
    Increases(w.cfg.relayRounds, 0, |w.cfg.group| - 1);
  }

  lemma SentBound(w: World, n: Net)
    requires UnderWay(w, n)
    ensures |HonestOut(w, n)| <= MostSent(w)
  {
    var ps := w.honest - {w.cfg.origin};
    NoNegative(w);
    SentParts(w, n);
    RelaysOfAll(w, n, ps);
    RaisedCount(|HonestOut(w, n)|, |SentByAny(n, ps)|, ps, w.honest, MostRelays(w));
  }

  lemma RaisedCount(sent: int, relays: int, ps: set<Address>, qs: set<Address>, each: int)
    requires sent <= 1 + relays && relays <= |ps| * each && ps <= qs && each >= 0
    ensures sent <= 1 + |qs| * each
  {
    SubsetCount(ps, qs);
    Increases(each, |ps|, |qs|);
  }

  /** The broadcasts of code-following parties that were taken. */
  ghost function HonestTaken(w: World, n: Net): set<(Address, Incoming)> {
    set t | t in n.taken && t.1.sender in w.honest
  }

  lemma TakenBound(w: World, n: Net)
    requires UnderWay(w, n)
    ensures |HonestTaken(w, n)| <= |w.honest| * MostSent(w)
  {
    forall t | t in HonestTaken(w, n)
      ensures t in Pairs(w.honest, HonestOut(w, n))
    {
      TakenFacts(w, n, t.0, t.1);
    }
    SentBound(w, n);
    hide UnderWay, HonestTaken, HonestOut, MostSent;
    PairsCount(w.honest, HonestOut(w, n));
    SubsetCount(HonestTaken(w, n), Pairs(w.honest, HonestOut(w, n)));
    Increases(|w.honest|, |HonestOut(w, n)|, MostSent(w));
  }

  /** Taking a pending broadcast. */
  lemma TakeOne(w: World, n: Net, q: Address, x: Incoming)
    requires UnderWay(w, n) && Pending(w, n, q, x)
    ensures UnderWay(w, Delivered(w, n, q, x))
    ensures |HonestTaken(w, Delivered(w, n, q, x))| == |HonestTaken(w, n)| + 1
  {
    if x.msg.round == 0 {
      OpeningReady(w, n, q, x);
    }
    ReachStep(w, n, Deliver(q, x));
    assert HonestTaken(w, Delivered(w, n, q, x)) == HonestTaken(w, n) + {(q, x)};
  }

  /** What is kept by taking any broadcast of a code-following party. */
  ghost predicate Kept(w: World, keep: Net -> bool) {
    forall n, q, x :: UnderWay(w, n) && keep(n) && Pending(w, n, q, x) && q in n.parties ==> keep(Delivered(w, n, q, x))
  }

  /**
   Every run in which all code-following parties have started can go on, with the faulty ones silent,
   until all their broadcasts are delivered; whatever each delivery keeps, the end of it has.
   */
  lemma {:induction false} CanFinish(w: World, n: Net, keep: Net -> bool) returns (n': Net)
    requires UnderWay(w, n) && keep(n) && Kept(w, keep)
    ensures UnderWay(w, n') && AllDelivered(w, n') && keep(n')
    decreases |w.honest| * MostSent(w) - |HonestTaken(w, n)|
  {
    n' := n;
    if q, x :| Pending(w, n, q, x) {
      n' := Delivered(w, n, q, x);
      TakeOne(w, n, q, x);
      TakenBound(w, n');
      n' := CanFinish(w, n', keep);
    } else {
      AllTaken(w, n);
    }
  }

  /** In every completely delivered run of this group everybody decides. */
  ghost predicate AlwaysDecides(w: World) {
    forall n, p :: Reached(w, n) && AllDelivered(w, n) && n.proposal.Some? && p in w.cfg.group ==>
      p in n.parties && Decides(n.parties[p])
  }

  /** Some completely delivered run exists for every value. */
  lemma CompleteRun(w: World, v: Value) returns (n: Net)
    requires WellFormed(w) && w.honest == w.cfg.group && w.cfg.relayRounds >= 1
    ensures Reached(w, n) && AllDelivered(w, n) && n.proposal == Some(v)
  {
    n := AllJoin(w, v);
    n := CanFinish(w, n, (s: Net) => s.proposal == Some(v));
  }

  /**
   The exact condition: without faults, full delivery makes everybody decide if and only if there are
   at most three relay rounds and at least as many parties.
   */
  lemma DeliveryExact(w: World)
    requires WellFormed(w) && w.honest == w.cfg.group && w.cfg.relayRounds >= 1
    ensures AlwaysDecides(w) <==> w.cfg.relayRounds <= 3 && |w.cfg.group| >= w.cfg.relayRounds
  {
    if w.cfg.relayRounds > 3 {
      var n := NobodyDecides(w, Nil);
      assert !Decides(n.parties[w.cfg.origin]);
    } else if |w.cfg.group| < w.cfg.relayRounds {
      var n := CompleteRun(w, Nil);
      SmallGroup(w, n, w.cfg.origin);
    } else {
      forall n, p | Reached(w, n) && AllDelivered(w, n) && n.proposal.Some? && p in w.cfg.group
        ensures p in n.parties && Decides(n.parties[p])
      {
        FaultFreeDelivery(w, n, p);
      }
    }
  }
}
