/**
 The consensus on top of the broadcast: the fault bound it configures, and whether the
 data an acceptor stores (the value of the opening message) is what was broadcast.
 */
module Proposals {
  import opened Wrappers
  import opened Collections
  import opened Messages
  import opened Broadcaster
  import opened Network
  import opened Agreement
  import opened Decisions
  import opened Runs

  /** T+1 parties are required to function; all the others may misbehave. */
  function MaxMaliciousParties(partiesCount: int, threshold: int): int {
    partiesCount - (threshold + 1)
  }

  /** The broadcast is configured with the relay rounds its constructor derives from the threshold. */
  ghost predicate Configured(w: World, threshold: int) {
    w.cfg.relayRounds == MaxMaliciousParties(|w.cfg.group|, threshold) + 1
  }

  /** As long as T+1 parties follow the code, the fault bound of all the agreement results holds, and conversely. */
  lemma FaultBound(w: World, threshold: int)
    requires WellFormed(w) && Configured(w, threshold)
    ensures |Faulty(w)| < w.cfg.relayRounds <==> |w.honest| >= threshold + 1
  {
    assert w.cfg.group == w.honest + Faulty(w);
  }

  /** With a code-following proposer, every opening message carries the proposed value. */
  lemma OpeningIsProposed(w: World, n: Net, m: RoundMessage)
    requires Reached(w, n) && w.cfg.origin in w.honest && Incoming(w.cfg.origin, m) in n.sent
    ensures n.proposal == Some(m.value)
  {
    HonestChain(w, n, Incoming(w.cfg.origin, m));
    assert IsOpening(w, n, Incoming(w.cfg.origin, m)) by { ReachedKeeps(w, n); }
  }

  /** With a code-following proposer, whoever joins joins on the proposed value, which is what it would store. */
  lemma StoredIsProposed(w: World, n: Net, p: Address)
    requires Reached(w, n) && w.cfg.origin in w.honest && p in n.joined
    ensures n.proposal == Some(n.joined[p].value)
  {
    JoinedFacts(w, n, p);
    OpeningIsProposed(w, n, n.joined[p]);
  }

  /** The opening message passes the filters and the validation of the receive loop. */
  predicate GoodOpening(w: World, m: RoundMessage) {
    m.sessionId == w.cfg.sessionId && ChainValid(w.cfg, w.cfg.origin, m)
  }

  /** An acceptor whose broadcast decided stores the accepted value if the opening message it joined on is good. */
  lemma StoredIsAccepted(w: World, n: Net, p: Address, m: RoundMessage)
    requires Reached(w, n) && p in w.honest && w.cfg.relayRounds >= 0
    requires Decides(n.parties[p]) && JoinedOn(w, n, p, m) && GoodOpening(w, m)
    ensures n.parties[p].values.Keys == {Key(m.value)}
  {
    var k := (p, w.cfg.origin, 0);
    assert k in n.processed && n.processed[k] == m by {
      JoinedFacts(w, n, p);
      OpeningProcessed(w, n, p, m);
    }
    ProcessedFacts(w, n, k);
    assert |n.parties[p].values.Keys| == |n.parties[p].values|;
    Singleton(n.parties[p].values.Keys, Key(m.value), Key(m.value));
  }

  /** A taken opening message of the right session is the one that was processed for round 0. */
  lemma OpeningProcessed(w: World, n: Net, p: Address, m: RoundMessage)
    requires Reached(w, n) && JoinedOn(w, n, p, m) && m.sessionId == w.cfg.sessionId
    requires m.round == 0 <= w.cfg.relayRounds
    ensures (p, w.cfg.origin, 0) in n.processed && n.processed[(p, w.cfg.origin, 0)] == m
  {
    var k := (p, w.cfg.origin, 0);
    assert k in n.processed && (p, Incoming(w.cfg.origin, n.processed[k])) in n.taken by {
      ReachedKeeps(w, n);
    }
    ProcessedFacts(w, n, k);
    TakenFacts(w, n, p, Incoming(w.cfg.origin, n.processed[k]));
  }

  /**
   Two acceptors that decide on good opening messages store the same data, even when the proposer is
   faulty, whenever the configured broadcast tolerates the faults there are.
   */
  lemma StoredAgrees(w: World, n: Net, p: Address, m: RoundMessage, q: Address, m': RoundMessage)
    requires Reached(w, n) && AllDelivered(w, n) && Tolerates(|Faulty(w)|, |w.honest|, w.cfg.relayRounds)
    requires p in w.honest && Decides(n.parties[p]) && JoinedOn(w, n, p, m) && GoodOpening(w, m)
    requires q in w.honest && Decides(n.parties[q]) && JoinedOn(w, n, q, m') && GoodOpening(w, m')
    ensures Key(m.value) == Key(m'.value)
  {
    hide AllDelivered;
    if p != q {
      if |w.honest| <= 1 {
        OnlyTwo(w.honest, p, q);
      }
      StoredIsAccepted(w, n, p, m);
      StoredIsAccepted(w, n, q, m');
      SinglesAgree(w, n, p, q);
      assert Key(m.value) in n.parties[q].values.Keys;
    }
  }

  // ---------- both parts of a good opening message are needed ----------

  /** A faulty proposer and two acceptors. */
  ghost predicate Triple(w: World, a: Address, h: Address, p: Address) {
    && a != h && a != p && h != p && w.cfg.group == {a, h, p} && w.honest == {h, p}
    && w.cfg.origin == a && w.cfg.relayRounds == 2
  }

  /** The relay of a good opening message is a full chain. */
  lemma TripleRelay(w: World, a: Address, h: Address, p: Address, v: Value)
    requires Triple(w, a, h, p)
    ensures |Faulty(w)| == 1
    ensures var y := Onward(w, h, Incoming(a, Opening(w.cfg, v)));
            Sound(w, y) && y.sender == h && y.msg.value == v && y.msg.round == 1
  {
    assert Faulty(w) == {a};
    OpeningChainValid(w.cfg, v);
    ExtendedChainValid(w.cfg, h, a, Opening(w.cfg, v));
  }

  /** `h` joins on a good opening message and relays it; `p`, which has joined without accepting anything, takes the relay. */
  lemma RelayCompletes(w: World, n: Net, a: Address, h: Address, p: Address, v: Value) returns (n': Net)
    requires Triple(w, a, h, p) && Reached(w, n) && HonestOut(w, n) == {}
    requires n.joined.Keys == {p} && n.parties[h] == FRESH
    requires n.parties[p].values == map[] && (h, 1) !in n.parties[p].received
    ensures Reached(w, n') && AllDelivered(w, n') && n'.joined == n.joined[h := Opening(w.cfg, v)]
    ensures Decides(n'.parties[h]) && JoinedOn(w, n', h, Opening(w.cfg, v))
    ensures Decides(n'.parties[p]) && n'.parties[p].values == map[Key(v) := v] && n.taken <= n'.taken
  {
    TripleRelay(w, a, h, p, v);
    var y := Onward(w, h, Incoming(a, Opening(w.cfg, v)));
    hide Reached, Sound, Opening, Onward;
    n' := JoinsOpening(w, n, h, v);
    assert y in HonestOut(w, n');
    n' := RelayTaken(w, n', h, p, y);
  }

  lemma RelayTaken(w: World, n: Net, h: Address, p: Address, y: Incoming) returns (n': Net)
    requires Reached(w, n) && w.honest == {h, p} && h != p && w.cfg.origin !in w.honest && w.cfg.relayRounds == 2
    requires HonestOut(w, n) == {} + {y} && y in n.sent && y.sender == h && y.msg.round == 1 && Sound(w, y)
    requires p in n.joined && n.parties[p].values == map[] && (h, 1) !in n.parties[p].received
    ensures Reached(w, n') && AllDelivered(w, n') && n'.joined == n.joined && n.taken <= n'.taken
    ensures n'.parties[h] == n.parties[h]
    ensures Decides(n'.parties[p]) && n'.parties[p].values == map[Key(y.msg.value) := y.msg.value]
  {
    n' := DeliverFirst(w, n, p, y);
    OneRelayDelivered(w, n', h, p, y);
  }

  lemma OneRelayDelivered(w: World, n: Net, h: Address, p: Address, x: Incoming)
    requires w.honest == {h, p} && HonestOut(w, n) == {} + {x} && x.sender == h && (p, x) in n.taken
    ensures AllDelivered(w, n)
  {
    forall h', m, q' | h' in w.honest && q' in w.honest && q' != h' && Incoming(h', m) in n.sent
      ensures (q', Incoming(h', m)) in n.taken
    {
      assert Incoming(h', m) in HonestOut(w, n);
    }
  }

  /**
   A valid chain is needed: a faulty proposer can give one party an opening message with a bad
   signature; the party discards it from the broadcast, decides on the value relayed to it by
   another party, and still stores the value of the discarded message.
   */
  lemma StoredMayDiffer(w: World, a: Address, h: Address, p: Address, v: Value, v': Value) returns (n: Net)
    requires Triple(w, a, h, p)
    ensures Reached(w, n) && AllDelivered(w, n) && |Faulty(w)| < w.cfg.relayRounds
    ensures Decides(n.parties[h]) && JoinedOn(w, n, h, Opening(w.cfg, v))
    ensures Decides(n.parties[p]) && JoinedOn(w, n, p, Unsigned(w.cfg, v')) && n.parties[p].values == map[Key(v) := v]
  {
    TripleRelay(w, a, h, p, v);
    n := Gather(w, map[p := v']);
    hide Reached, Unsigned, Opening, HonestOut;
    n := RelayCompletes(w, n, a, h, p, v);
  }

  /** An opening message signed for another session. */
  function Foreign(cfg: Config, sessionId: string, v: Value): RoundMessage {
    RoundMessage(sessionId, v, 0, [Sign(cfg.origin, sessionId, v, [])])
  }

  /** `p` joins on an opening message of another session, which its receive loop drops without a trace. */
  lemma JoinsForeign(w: World, p: Address, sessionId: string, v: Value) returns (n: Net)
    requires WellFormed(w) && p in w.honest && w.cfg.origin !in w.honest && sessionId != w.cfg.sessionId
    ensures Reached(w, n) && HonestOut(w, n) == {} && n.joined.Keys == {p}
    ensures JoinedOn(w, n, p, Foreign(w.cfg, sessionId, v)) && ChainValid(w.cfg, w.cfg.origin, Foreign(w.cfg, sessionId, v))
    ensures forall q :: q in w.honest ==> n.parties[q] == FRESH
  {
    var m := Foreign(w.cfg, sessionId, v);
    assert LinkValid(w.cfg, m, 0) by { assert m.signatures[..0] == []; }
    ReachInit(w);
    n := Joins(w, Init(w), p, m);
    n := DeliverDropped(w, n, p, Incoming(w.cfg.origin, m));
  }

  /**
   The right session is needed: an opening message that is validly signed for another session is
   dropped by the receive loop, yet the party has joined on it and stores its value.
   */
  lemma ForeignMayDiffer(w: World, a: Address, h: Address, p: Address, v: Value, v': Value, sessionId: string)
    returns (n: Net)
    requires Triple(w, a, h, p) && sessionId != w.cfg.sessionId
    ensures Reached(w, n) && AllDelivered(w, n) && |Faulty(w)| < w.cfg.relayRounds
    ensures Decides(n.parties[h]) && JoinedOn(w, n, h, Opening(w.cfg, v))
    ensures Decides(n.parties[p]) && n.parties[p].values == map[Key(v) := v]
    ensures JoinedOn(w, n, p, Foreign(w.cfg, sessionId, v'))
    ensures ChainValid(w.cfg, w.cfg.origin, Foreign(w.cfg, sessionId, v'))
  {
    TripleRelay(w, a, h, p, v);
    n := JoinsForeign(w, p, sessionId, v');
    hide Reached, Foreign, Opening, HonestOut;
    n := RelayCompletes(w, n, a, h, p, v);
  }

  // ---------- nil and the empty hash ----------

  /** A party that already holds the key of a full chain takes it without changing its values. */
  lemma TakesSameKey(w: World, n: Net, to: Address, y: Incoming) returns (n': Net)
    requires Reached(w, n) && Ready(w, n, to, y) && Sound(w, y) && y.msg.round + 1 == w.cfg.relayRounds
    requires (y.sender, y.msg.round) !in n.parties[to].received && Key(y.msg.value) in n.parties[to].values
    ensures Reached(w, n') && HonestOut(w, n') == HonestOut(w, n) && n.sent <= n'.sent
    ensures n'.taken == n.taken + {(to, y)} && n'.joined == n.joined
    ensures n'.parties[to].values == n.parties[to].values && n'.parties[to].finalReached
    ensures forall q :: q in w.honest && q != to ==> n'.parties[q] == n.parties[q]
  {
    n' := DeliverFirst(w, n, to, y);
  }

  /** `h` joins on the nil value, `p` on a value with an empty hash, and both relay. */
  lemma EmptyJoined(w: World, a: Address, h: Address, p: Address) returns (n: Net)
    requires Triple(w, a, h, p)
    ensures Reached(w, n) && {h, p} <= n.joined.Keys
    ensures HonestOut(w, n) == {Onward(w, h, Incoming(a, Opening(w.cfg, Nil)))}
                             + {Onward(w, p, Incoming(a, Opening(w.cfg, Val(""))))}
    ensures n.parties[h] == Party({(a, 0)}, map["" := Nil], true) && n.parties[p] == Party({(a, 0)}, map["" := Val("")], true)
  {
    n := Gather(w, map[]);
    hide Reached, Opening, Onward, HonestOut;
    n := JoinsOpening(w, n, h, Nil);
    n := JoinsOpening(w, n, p, Val(""));
  }

  lemma TwoRelaysDelivered(w: World, n: Net, h: Address, p: Address, x: Incoming, y: Incoming)
    requires w.honest == {h, p} && h != p && HonestOut(w, n) == {x} + {y} && x.sender == h && y.sender == p
    requires (p, x) in n.taken && (h, y) in n.taken
    ensures AllDelivered(w, n)
  {
    forall h', m, q' | h' in w.honest && q' in w.honest && q' != h' && Incoming(h', m) in n.sent
      ensures (q', Incoming(h', m)) in n.taken
    {
      assert Incoming(h', m) in HonestOut(w, n);
    }
  }

  /**
   `Agreement` leaves open the key shared by nil and the empty hash, and has to: a faulty origin can
   make one party decide on the nil value and another on a value with an empty hash.
   */
  lemma EmptyKeyDiffers(w: World, a: Address, h: Address, p: Address) returns (n: Net)
    requires Triple(w, a, h, p)
    ensures Reached(w, n) && AllDelivered(w, n) && |Faulty(w)| < w.cfg.relayRounds
    ensures Decides(n.parties[h]) && n.parties[h].values == map["" := Nil]
    ensures Decides(n.parties[p]) && n.parties[p].values == map["" := Val("")]
  {
    TripleRelay(w, a, h, p, Nil);
    TripleRelay(w, a, p, h, Val(""));
    var x, y := Onward(w, h, Incoming(a, Opening(w.cfg, Nil))), Onward(w, p, Incoming(a, Opening(w.cfg, Val(""))));
    n := EmptyJoined(w, a, h, p);
    assert x in HonestOut(w, n) && y in HonestOut(w, n);
    hide Reached, Sound, Opening, Onward, HonestOut;
    n := TakesSameKey(w, n, p, x);
    n := TakesSameKey(w, n, h, y);
    TwoRelaysDelivered(w, n, h, p, x, y);
  }
}
