/** How many messages a broadcast can cause. */
module Traffic {
  import opened Collections
  import opened Messages
  import opened Broadcaster
  import opened Network
  import opened Agreement

  function UpTo(k: nat): (rs: set<nat>)
    ensures |rs| == k && forall r: nat :: r in rs <==> r < k
  {
    if k == 0 then {} else UpTo(k - 1) + {k - 1}
  }

  /** The rounds whose messages lead to a relay: all that are processed except the last but one. */
  ghost function RelayingRounds(relayRounds: nat): set<nat> {
    UpTo(relayRounds + 1) - {relayRounds - 1}
  }

  ghost function SentBy(n: Net, p: Address): set<Incoming> {
    set x | x in n.sent && x.sender == p
  }

  /** The sender and round of the message that a relayed message extends. */
  ghost function Slot(x: Incoming): (Address, nat) {
    if |x.msg.signatures| >= 2 && x.msg.round > 0 then (Parent(x).1, Parent(x).2) else (x.sender, 0)
  }

  lemma RelaySlot(w: World, n: Net, x: Incoming)
    requires Reached(w, n) && x in n.sent && x.sender in w.honest - {w.cfg.origin} && w.cfg.relayRounds >= 1
    ensures (x.sender, Slot(x).0, Slot(x).1) in n.processed
    ensures x == Incoming(x.sender, Extended(x.sender, n.processed[(x.sender, Slot(x).0, Slot(x).1)]))
    ensures Slot(x) in Pairs(w.cfg.group - {x.sender}, RelayingRounds(w.cfg.relayRounds))
  {
    HonestChain(w, n, x);
    assert IsRelay(w, n, x) && n.processed.Keys != {} by { ReachedKeeps(w, n); }
    ProcessedFacts(w, n, Parent(x));
    assert Parent(x).1 in w.cfg.group by { ReachedKeeps(w, n); }
  }

  /** The most messages one party can relay. */
  function MostRelays(w: World): int {
    (|w.cfg.group| - 1) * w.cfg.relayRounds
  }

  lemma RelaysCounted(w: World, n: Net, p: Address)
    requires Reached(w, n) && p in w.honest - {w.cfg.origin} && w.cfg.relayRounds >= 1
    ensures |SentBy(n, p)| <= |Pairs(w.cfg.group - {p}, RelayingRounds(w.cfg.relayRounds))|
  {
    forall x | x in SentBy(n, p)
      ensures Slot(x) in Pairs(w.cfg.group - {p}, RelayingRounds(w.cfg.relayRounds))
      ensures (p, Slot(x).0, Slot(x).1) in n.processed
      ensures x == Incoming(p, Extended(p, n.processed[(p, Slot(x).0, Slot(x).1)]))
    {
      RelaySlot(w, n, x);
    }
    InjectionBound(SentBy(n, p), Pairs(w.cfg.group - {p}, RelayingRounds(w.cfg.relayRounds)), (x: Incoming) => Slot(x));
  }

  /**
   A party processes at most one message per (sender, round), so one that is not the origin
   relays at most (n-1) * relayRounds messages, and the origin sends one message only.
   */
  lemma RelayBound(w: World, n: Net, p: Address)
    requires Reached(w, n) && p in w.honest && w.cfg.relayRounds >= 1
    ensures p != w.cfg.origin ==> |SentBy(n, p)| <= (|w.cfg.group| - 1) * w.cfg.relayRounds
    ensures p == w.cfg.origin ==> |SentBy(n, p)| <= 1
  {
    if p == w.cfg.origin {
      forall x, y | x in SentBy(n, p) && y in SentBy(n, p)
        ensures x == y
      {
        assert IsOpening(w, n, x) && IsOpening(w, n, y) by { ReachedKeeps(w, n); }
      }
      InjectionBound(SentBy(n, p), {0}, (x: Incoming) => 0);
    } else {
      RelaysCounted(w, n, p);
      assert p in w.cfg.group && |w.cfg.group - {p}| == |w.cfg.group| - 1;
      assert |RelayingRounds(w.cfg.relayRounds)| == w.cfg.relayRounds;
      hide Reached, RelayingRounds;
      PairsCount(w.cfg.group - {p}, RelayingRounds(w.cfg.relayRounds));
    }
  }

  ghost function SentByAny(n: Net, ps: set<Address>): set<Incoming> {
    set x | x in n.sent && x.sender in ps
  }

  lemma {:induction false} RelaysOfAll(w: World, n: Net, ps: set<Address>)
    requires Reached(w, n) && ps <= w.honest - {w.cfg.origin} && w.cfg.relayRounds >= 1
    ensures |SentByAny(n, ps)| <= |ps| * MostRelays(w)
  {
    if ps == {} {
      assert SentByAny(n, ps) == {};
    } else {
      var p :| p in ps;
      RelaysOfAll(w, n, ps - {p});
      RelayBound(w, n, p);
      assert |SentBy(n, p)| <= MostRelays(w);
      hide Reached, MostRelays;
      assert SentByAny(n, ps) == SentByAny(n, ps - {p}) + SentBy(n, p);
      OneMore(|ps - {p}|, MostRelays(w));
    }
  }

  /** A run without faults sends at most 1 + (n-1)^2 * relayRounds messages, however long it goes on. */
  lemma FaultFreeTraffic(w: World, n: Net)
    requires Reached(w, n) && w.honest == w.cfg.group && w.cfg.relayRounds >= 1
    ensures var k := |w.cfg.group| - 1; |n.sent| <= 1 + k * (k * w.cfg.relayRounds)
  {
    var o := w.cfg.origin;
    assert o in w.cfg.group && |w.cfg.group - {o}| == |w.cfg.group| - 1;
    hide Reached;
    RelaysOfAll(w, n, w.cfg.group - {o});
    RelayBound(w, n, o);
    assert n.sent == SentByAny(n, w.cfg.group - {o}) + SentBy(n, o) by { ReachedKeeps(w, n); }
  }
}
