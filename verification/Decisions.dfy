/**
 What each party decides. The (sender, round) filter of the single window makes
 these results depend on the number of faulty parties, of code-following parties and of
 relay rounds. `Tolerates` says when two parties that hold one value agree and `Alike`
 when all decide alike; `Disagreement` and `Exactness` build runs for all other numbers.
 */
module Decisions {
  import opened Wrappers
  import opened Collections
  import opened Messages
  import opened Broadcaster
  import opened Network
  import opened Agreement

  /** Before round 2 a code-following party has only one message per round to send. */
  lemma EarlyUnique(w: World, n: Net, x: Incoming, y: Incoming)
    requires Reached(w, n)
    requires x in n.sent && y in n.sent && x.sender == y.sender && x.sender in w.honest
    requires x.msg.round == y.msg.round <= 1
    ensures x == y
  {
    HonestChain(w, n, x);
    HonestChain(w, n, y);
    if x.msg.round == 1 {
      assert IsRelay(w, n, x) && IsRelay(w, n, y) by { ReachedKeeps(w, n); }
      assert Parent(x).1 == w.cfg.origin && Parent(y).1 == w.cfg.origin;
    } else {
      assert IsOpening(w, n, x) && IsOpening(w, n, y) by { ReachedKeeps(w, n); }
    }
  }

  /** A value broadcast before round 2 reaches every code-following party. */
  lemma EarlyReachesAll(w: World, n: Net, x: Incoming, q: Address)
    requires Reached(w, n) && AllDelivered(w, n) && w.cfg.relayRounds >= 1
    requires x in n.sent && x.sender in w.honest && x.msg.round <= 1 && q in w.honest
    ensures Key(x.msg.value) in n.parties[q].values
  {
    HonestChain(w, n, x);
    if q != x.sender {
      var m := Took(w, n, x, q);
      EarlyUnique(w, n, x, Incoming(x.sender, m));
    }
  }

  /** With at most one faulty party, all code-following parties accept exactly the same values. */
  lemma SameValues(w: World, n: Net, p: Address, q: Address)
    requires Reached(w, n) && AllDelivered(w, n)
    requires |Faulty(w)| < w.cfg.relayRounds && |Faulty(w)| <= 1
    requires p in w.honest && q in w.honest
    ensures n.parties[p].values.Keys == n.parties[q].values.Keys
  {
    ValuesSpread(w, n, p, q);
    ValuesSpread(w, n, q, p);
  }

  lemma ValuesSpread(w: World, n: Net, p: Address, q: Address)
    requires Reached(w, n) && AllDelivered(w, n)
    requires |Faulty(w)| < w.cfg.relayRounds && |Faulty(w)| <= 1
    requires p in w.honest && q in w.honest
    ensures n.parties[p].values.Keys <= n.parties[q].values.Keys
  {
    forall k | k in n.parties[p].values.Keys
      ensures k in n.parties[q].values.Keys
    {
      ValueFacts(w, n, p, k);
      var x := Carrier(w, n, p, n.parties[p].values[k]);
      EarlyReachesAll(w, n, x, q);
    }
  }

  /** With at most two relay rounds, holding a value and reaching the final chain go together. */
  lemma FinalWithValue(w: World, n: Net, p: Address, k: string)
    requires Reached(w, n) && AllDelivered(w, n)
    requires |Faulty(w)| < w.cfg.relayRounds <= 2
    requires p in w.honest && k in n.parties[p].values
    requires p == w.cfg.origin ==> w.honest != {p}
    ensures n.parties[p].finalReached
  {
    hide AllDelivered;
    var v := n.parties[p].values[k];
    ValueFacts(w, n, p, k);
    if Proposes(w, n, p, v) {
      ProposalFacts(w, n);
      if w.cfg.relayRounds == 2 {
        var q :| q in w.honest && q != p;
        var m := AckTaken(w, n, p, q);
      }
    } else {
      var q, r :| Backs(w, n, p, q, r, v);
      ProcessedFacts(w, n, (p, q, r));
      var m := n.processed[(p, q, r)];
      assert |m.signatures| >= 1;
      if |m.signatures| == 1 {
        assert q == w.cfg.origin == m.signatures[0].signer;
        assert !SignedBy(p, m.signatures);
      }
    }
  }

  /**
   Two different values relayed by one party in round 2 came from two different
   signers; when at most two parties are faulty, one of the values reached everybody.
   */
  lemma RivalReachesAll(w: World, n: Net, x: Incoming, y: Incoming, p: Address, q: Address) returns (k: string)
    requires Reached(w, n) && AllDelivered(w, n) && w.cfg.relayRounds >= 1
    requires w.cfg.origin !in w.honest && |Faulty(w)| <= 2
    requires x in n.sent && y in n.sent && x.sender == y.sender && x.sender in w.honest
    requires x.msg.round == y.msg.round == 2 && x.msg != y.msg
    requires p in w.honest && q in w.honest
    ensures k in n.parties[p].values && k in n.parties[q].values
  {
    assert w.cfg.origin in w.cfg.group;
    hide Reached, AllDelivered;
    HonestChain(w, n, x);
    HonestChain(w, n, y);
    var b, c := Parent(x), Parent(y);
    assert IsRelay(w, n, x) && IsRelay(w, n, y) && b.1 in w.cfg.group && c.1 in w.cfg.group by {
      ReachedKeeps(w, n);
    }
    ProcessedFacts(w, n, b);
    ProcessedFacts(w, n, c);
    var mb, mc := n.processed[b], n.processed[c];
    assert b.1 != c.1;
    assert LinkValid(w.cfg, mb, 1) && LinkValid(w.cfg, mc, 1);
    assert mb.signatures[0].signer == w.cfg.origin && mc.signatures[0].signer == w.cfg.origin;
    if b.1 !in w.honest && c.1 !in w.honest {
      SubsetCount({w.cfg.origin, b.1, c.1}, Faulty(w));
      assert false;
    }
    var z := if b.1 in w.honest then Incoming(b.1, mb) else Incoming(c.1, mc);
    k := Key(z.msg.value);
    EarlyReachesAll(w, n, z, p);
    EarlyReachesAll(w, n, z, q);
  }

  /**
   The fault counts that a number of relay rounds tolerates: fewer than the rounds, and from three
   faults on at least one round to spare unless there are only two code-following parties.
   */
  predicate Tolerates(faults: nat, followers: nat, relayRounds: int) {
    followers <= 1 || (faults < relayRounds && (followers == 2 || faults <= 2 || faults + 2 <= relayRounds))
  }

  /** Of at most two code-following parties, two different ones are all there are. */
  lemma OnlyTwo(s: set<Address>, p: Address, q: Address)
    requires p in s && q in s && |s| <= 2
    ensures p != q ==> s == {p, q}
    ensures |s| <= 1 ==> p == q
  {
    if p != q {
      SubsetCount({p, q}, s);
      if s != {p, q} {
        var a :| a in s && a != p && a != q;
        SubsetCount({p, q, a}, s);
        assert false;
      }
    }
  }

  /** With a round to spare, the receiver of a broadcast has itself broadcast what it took, early enough for all. */
  lemma AnswerReaches(w: World, n: Net, x: Incoming, q: Address, p: Address) returns (c: string)
    requires Reached(w, n) && AllDelivered(w, n) && x.msg.round + 2 <= w.cfg.relayRounds
    requires x in n.sent && x.sender in w.honest && p in w.honest && q in w.honest
    ensures c in n.parties[p].values && c in n.parties[q].values
  {
    hide AllDelivered, Reached;
    if q == x.sender {
      c := SharedKey(w, n, x, p);
    } else {
      var m := Took(w, n, x, q);
      HonestChain(w, n, Incoming(x.sender, m));
      var y: Incoming;
      if SignedBy(q, m.signatures) {
        var i :| 0 <= i < |m.signatures| && m.signatures[i].signer == q;
        var m' := SignerSent(w, n, Incoming(x.sender, m), i);
        y := Incoming(q, m');
      } else {
        y := Incoming(q, Extended(q, m));
      }
      c := SharedKey(w, n, y, p);
    }
  }

  /** Whatever one party accepted, it shares an accepted value with every other one. */
  lemma SetsMeet(w: World, n: Net, p: Address, q: Address, k: string) returns (c: string)
    requires Reached(w, n) && AllDelivered(w, n)
    requires Tolerates(|Faulty(w)|, |w.honest|, w.cfg.relayRounds)
    requires p in w.honest && q in w.honest && k in n.parties[p].values
    ensures c in n.parties[p].values && c in n.parties[q].values
  {
    if p == q {
      return k;
    }
    if |w.honest| <= 2 {
      OnlyTwo(w.honest, p, q);
    }
    ValueFacts(w, n, p, k);
    if w.cfg.origin in w.honest {
      HonestOrigin(w, n, p, n.parties[p].values[k]);
      ProposalFacts(w, n);
      EarlyReachesAll(w, n, Incoming(w.cfg.origin, Opening(w.cfg, n.proposal.value)), q);
      return k;
    }
    var x := Carrier(w, n, p, n.parties[p].values[k]);
    if |w.honest| == 2 {
      c := SharedKey(w, n, x, if x.sender == p then q else p);
      return;
    }
    if |Faulty(w)| + 2 <= w.cfg.relayRounds {
      c := AnswerReaches(w, n, x, q, p);
      return;
    }
    HonestChain(w, n, x);
    c := k;
    if x.msg.round <= 1 {
      EarlyReachesAll(w, n, x, q);
    } else if q != x.sender {
      var m := Took(w, n, x, q);
      if m != x.msg {
        c := RivalReachesAll(w, n, x, Incoming(x.sender, m), p, q);
      }
    }
  }

  /**
   Any two code-following parties that each end with a single accepted value hold the same one,
   whatever the other parties hold. `Disagreement` shows that this fails for all other numbers.
   */
  lemma SinglesAgree(w: World, n: Net, p: Address, q: Address)
    requires Reached(w, n) && AllDelivered(w, n)
    requires Tolerates(|Faulty(w)|, |w.honest|, w.cfg.relayRounds)
    requires p in w.honest && q in w.honest
    requires |n.parties[p].values.Keys| == 1 && |n.parties[q].values.Keys| == 1
    ensures n.parties[p].values.Keys == n.parties[q].values.Keys
  {
    var k :| k in n.parties[p].values.Keys;
    var c := SetsMeet(w, n, p, q, k);
    Singleton(n.parties[p].values.Keys, c, c);
    Singleton(n.parties[q].values.Keys, c, c);
  }

  // ---------- runs with a code-following origin ----------

  lemma OpeningTaken(w: World, n: Net, q: Address)
    requires Reached(w, n) && AllDelivered(w, n) && w.cfg.relayRounds >= 1
    requires n.proposal.Some? && q in w.honest - {w.cfg.origin}
    ensures (q, w.cfg.origin, 0) in n.processed
    ensures n.processed[(q, w.cfg.origin, 0)] == Opening(w.cfg, n.proposal.value)
    ensures Outcome(w, n, q, w.cfg.origin, Opening(w.cfg, n.proposal.value))
    ensures ChainValid(w.cfg, w.cfg.origin, Opening(w.cfg, n.proposal.value))
    ensures !SignedBy(q, Opening(w.cfg, n.proposal.value).signatures)
  {
    ProposalFacts(w, n);
    var m := Took(w, n, Incoming(w.cfg.origin, Opening(w.cfg, n.proposal.value)), q);
    EarlyUnique(w, n, Incoming(w.cfg.origin, m), Incoming(w.cfg.origin, Opening(w.cfg, n.proposal.value)));
  }

  /** The round-1 acknowledgment of `q'`, as processed by any other party. */
  lemma AckTaken(w: World, n: Net, q: Address, q': Address) returns (m: RoundMessage)
    requires Reached(w, n) && AllDelivered(w, n) && w.cfg.relayRounds >= 2
    requires n.proposal.Some? && q in w.honest && q' in w.honest - {w.cfg.origin, q}
    ensures (q, q', 1) in n.processed && m == n.processed[(q, q', 1)]
    ensures ChainValid(w.cfg, q', m) && Outcome(w, n, q, q', m) && m.round == 1
    ensures q != w.cfg.origin ==> !SignedBy(q, m.signatures)
  {
    hide AllDelivered;
    OpeningTaken(w, n, q');
    assert Extends(w.cfg, q', w.cfg.origin, Opening(w.cfg, n.proposal.value));
    m := Took(w, n, Incoming(q', Extended(q', Opening(w.cfg, n.proposal.value))), q);
  }

  lemma ThirdMember(s: set<Address>, a: Address, b: Address) returns (c: Address)
    requires |s| >= 3
    ensures c in s && c != a && c != b
  {
    if s <= {a, b} {
      SubsetCount(s, {a, b});
      assert false;
    }
    c :| c in s && c != a && c != b;
  }

  /** As many code-following parties as relay rounds complete a chain among themselves, up to three rounds. */
  lemma FollowersFinal(w: World, n: Net, p: Address)
    requires Reached(w, n) && AllDelivered(w, n)
    requires 1 <= w.cfg.relayRounds <= 3 && |w.honest| >= w.cfg.relayRounds
    requires n.proposal.Some? && p in w.honest
    ensures n.parties[p].finalReached
  {
    hide AllDelivered;
    var o := w.cfg.origin;
    ProposalFacts(w, n);
    if p != o {
      OpeningTaken(w, n, p);
      if w.cfg.relayRounds == 3 {
        var q := ThirdMember(w.honest, o, p);
        var m := AckTaken(w, n, p, q);
      }
    } else if w.cfg.relayRounds == 2 {
      if w.honest <= {o} {
        SubsetCount(w.honest, {o});
        assert false;
      }
      var q :| q in w.honest && q != o;
      var m := AckTaken(w, n, o, q);
    } else if w.cfg.relayRounds == 3 {
      var q := ThirdMember(w.honest, o, o);
      var q' := ThirdMember(w.honest, o, q);
      var m := AckTaken(w, n, q, q');
      assert Extends(w.cfg, q, q', m);
      var m' := Took(w, n, Incoming(q, Extended(q, m)), o);
    }
  }

  /** A chain signed and counted by members of a set counts no more than the set. */
  lemma CountBound(members: set<Address>, p: Address, m: RoundMessage)
    requires p in members && Distinct(m.signatures)
    requires forall i :: 0 <= i < |m.signatures| ==> m.signatures[i].signer in members
    ensures ChainCount(p, m) <= |members|
  {
    var k := |m.signatures|;
    var signers := Signers(m.signatures, k);
    DistinctSignersCount(m.signatures, k);
    SubsetCount(signers, members);
    SubsetCount(signers + {p}, members);
    if !SignedBy(p, m.signatures) {
      assert p !in signers;
    }
  }

  lemma GroupSigned(w: World, q: Address, m: RoundMessage)
    requires ChainValid(w.cfg, q, m)
    ensures Distinct(m.signatures) && forall i :: 0 <= i < |m.signatures| ==> m.signatures[i].signer in w.cfg.group
  {
    forall i | 0 <= i < |m.signatures|
      ensures m.signatures[i].signer in w.cfg.group
    {
      assert LinkValid(w.cfg, m, i);
    }
  }

  /** In a group smaller than the number of relay rounds no chain is ever long enough, whoever is faulty. */
  lemma SmallGroup(w: World, n: Net, p: Address)
    requires Reached(w, n) && p in w.honest && |w.cfg.group| < w.cfg.relayRounds
    ensures !n.parties[p].finalReached && !Decides(n.parties[p])
  {
    assert p in w.cfg.group;
    hide Reached;
    if n.parties[p].finalReached {
      FinalFacts(w, n, p);
      SubsetCount({p}, w.cfg.group);
      var q, r :| Completes(w, n, p, q, r);
      var m := n.processed[(p, q, r)];
      GroupSigned(w, q, m);
      CountBound(w.cfg.group, p, m);
    }
  }

  /**
   Without faults, with everything delivered and up to three relay rounds, every party, the origin
   included, ends with exactly the origin's value, and decides "valid" on it exactly if the group
   is as large as the number of relay rounds.
   */
  lemma FaultFreeDelivery(w: World, n: Net, p: Address)
    requires Reached(w, n) && AllDelivered(w, n)
    requires w.honest == w.cfg.group && n.proposal.Some? && p in w.cfg.group
    requires 1 <= w.cfg.relayRounds <= 3
    ensures Decides(n.parties[p]) <==> |w.cfg.group| >= w.cfg.relayRounds
    ensures var v := n.proposal.value; n.parties[p].values == map[Key(v) := v]
  {
    if |w.cfg.group| >= w.cfg.relayRounds {
      HonestOriginDelivery(w, n, p);
    } else {
      SmallGroup(w, n, p);
      ProposalReaches(w, n, p);
    }
  }

  lemma ProposalReaches(w: World, n: Net, p: Address)
    requires Reached(w, n) && AllDelivered(w, n) && n.proposal.Some? && p in w.honest && w.cfg.relayRounds >= 1
    ensures var v := n.proposal.value; n.parties[p].values == map[Key(v) := v]
  {
    var v := n.proposal.value;
    ProposalFacts(w, n);
    EarlyReachesAll(w, n, Incoming(w.cfg.origin, Opening(w.cfg, v)), p);
    OnlyProposed(w, n, p, v);
  }

  /**
   With a code-following origin and up to three relay rounds, as many code-following parties as rounds
   suffice for all of them to decide on exactly the origin's value, however many others are faulty.
   */
  lemma HonestOriginDelivery(w: World, n: Net, p: Address)
    requires Reached(w, n) && AllDelivered(w, n) && n.proposal.Some? && p in w.honest
    requires 1 <= w.cfg.relayRounds <= 3 && |w.honest| >= w.cfg.relayRounds
    ensures Decides(n.parties[p])
    ensures var v := n.proposal.value; n.parties[p].values == map[Key(v) := v]
  {
    FollowersFinal(w, n, p);
    ProposalReaches(w, n, p);
  }

  /** With a code-following origin, a party that holds a value holds the proposed one only. */
  lemma OnlyProposed(w: World, n: Net, p: Address, v: Value)
    requires Reached(w, n) && w.cfg.origin in w.honest && p in w.honest && n.proposal == Some(v)
    requires n.parties[p].values.Keys != {}
    ensures n.parties[p].values == map[Key(v) := v]
  {
    var values := n.parties[p].values;
    forall k | k in values
      ensures k == Key(v) && values[k] == v
    {
      Validity(w, n, p, k);
      ValueFacts(w, n, p, k);
    }
    var k :| k in values.Keys;
    assert values == map[Key(v) := v];
  }

  // ---------- what is still to be delivered ----------

  /** A broadcast of a code-following party that another one has not taken. */
  ghost predicate Pending(w: World, n: Net, q: Address, x: Incoming) {
    x in n.sent && x.sender in w.honest && q in w.honest && q != x.sender && (q, x) !in n.taken
  }

  lemma AllTaken(w: World, n: Net)
    requires forall q, x :: !Pending(w, n, q, x)
    ensures AllDelivered(w, n)
  {
    forall h, m, q | h in w.honest && q in w.honest && q != h && Incoming(h, m) in n.sent
      ensures (q, Incoming(h, m)) in n.taken
    {
      assert !Pending(w, n, q, Incoming(h, m));
    }
  }

  /** An opening message of a code-following origin is the one everybody joined on. */
  lemma OpeningReady(w: World, n: Net, q: Address, x: Incoming)
    requires Reached(w, n) && n.joined.Keys == w.honest - {w.cfg.origin}
    requires x in n.sent && x.sender in w.honest - {q} && q in w.honest && x.msg.round == 0
    ensures q in n.joined && x == Incoming(w.cfg.origin, n.joined[q])
  {
    HonestChain(w, n, x);
    JoinedFacts(w, n, q);
    EarlyUnique(w, n, x, Incoming(w.cfg.origin, n.joined[q]));
  }

  // ---------- finality without faults ----------

  /** A full chain sent by a code-following party makes every code-following party final. */
  lemma FullChainSpreads(w: World, n: Net, x: Incoming, q: Address)
    requires Reached(w, n) && AllDelivered(w, n) && w.cfg.relayRounds >= 1 && q in w.honest
    requires x in n.sent && x.sender in w.honest && x.msg.round + 1 == w.cfg.relayRounds
    ensures n.parties[q].finalReached
  {
    hide AllDelivered;
    HonestChain(w, n, x);
    if q != x.sender {
      var m := Took(w, n, x, q);
    } else {
      assert IsOpening(w, n, x) || IsRelay(w, n, x) by { ReachedKeeps(w, n); }
      if x.msg.round == 0 {
        ProposalFacts(w, n);
      } else {
        ProcessedFacts(w, n, Parent(x));
      }
    }
  }

  /** Without faults, when one party is final all are, for every number of relay rounds. */
  lemma FinalSpreads(w: World, n: Net, p: Address, q: Address)
    requires Reached(w, n) && AllDelivered(w, n) && w.cfg.relayRounds >= 1 && w.honest == w.cfg.group
    requires p in w.honest && q in w.honest && n.parties[p].finalReached
    ensures n.parties[q].finalReached
  {
    hide AllDelivered;
    if p != q {
      FinalFacts(w, n, p);
      if p == w.cfg.origin && w.cfg.relayRounds == 1 && n.proposal.Some? {
        ProposalFacts(w, n);
        FullChainSpreads(w, n, Incoming(p, Opening(w.cfg, n.proposal.value)), q);
      } else {
        var q0, r :| Completes(w, n, p, q0, r);
        var m := n.processed[(p, q0, r)];
        ProcessedFacts(w, n, (p, q0, r));
        assert q0 in w.honest by { ReachedKeeps(w, n); }
        HonestChain(w, n, Incoming(q0, m));
        if |m.signatures| >= w.cfg.relayRounds {
          FullChainSpreads(w, n, Incoming(q0, m), q);
        } else {
          FullChainSpreads(w, n, Incoming(p, Extended(p, m)), q);
        }
      }
    }
  }

  /** Without faults all parties decide alike, for every number of relay rounds. */
  lemma FaultFreeAlike(w: World, n: Net, p: Address, q: Address)
    requires Reached(w, n) && AllDelivered(w, n) && w.cfg.relayRounds >= 1 && w.honest == w.cfg.group
    requires p in w.honest && q in w.honest
    ensures n.parties[p].values.Keys == n.parties[q].values.Keys
    ensures Decides(n.parties[p]) <==> Decides(n.parties[q])
  {
    assert Faulty(w) == {};
    SameValues(w, n, p, q);
    assert |n.parties[p].values| == |n.parties[p].values.Keys| && |n.parties[q].values| == |n.parties[q].values.Keys|;
    if n.parties[p].finalReached {
      FinalSpreads(w, n, p, q);
    }
    if n.parties[q].finalReached {
      FinalSpreads(w, n, q, p);
    }
  }

  // ---------- deciding alike ----------

  /** When all code-following parties decide alike: also when there is one only, or the group is too small to decide. */
  predicate Alike(faults: nat, followers: nat, relayRounds: int) {
    || followers <= 1 || faults == 0 || faults + followers < relayRounds
    || (faults == 1 && (relayRounds == 2 || (relayRounds == 3 && followers >= 3)))
  }

  /** A party whose round-1 message was sent is final with three relay rounds, if another one answers. */
  lemma AnsweredFinal(w: World, n: Net, x: Incoming, q: Address)
    requires Reached(w, n) && AllDelivered(w, n) && w.cfg.relayRounds == 3 && w.cfg.origin !in w.honest
    requires x in n.sent && x.sender in w.honest && x.msg.round == 1 && q in w.honest && w.honest != {x.sender}
    ensures n.parties[q].finalReached
  {
    hide AllDelivered;
    HonestChain(w, n, x);
    assert x.msg.signatures[0].signer == w.cfg.origin && x.msg.signatures[1].signer == x.sender;
    var t := q;
    if q == x.sender {
      t :| t in w.honest && t != x.sender;
    }
    var m := Took(w, n, x, t);
    EarlyUnique(w, n, x, Incoming(x.sender, m));
    assert !SignedBy(t, m.signatures);
    if q == x.sender {
      var m' := Took(w, n, Incoming(t, Extended(t, m)), q);
    }
  }

  /** With one fault, three relay rounds and three code-following parties, whoever holds a value is final. */
  lemma ThreeRoundsFinal(w: World, n: Net, p: Address, k: string)
    requires Reached(w, n) && AllDelivered(w, n) && |Faulty(w)| <= 1 && w.cfg.relayRounds == 3 && |w.honest| >= 3
    requires p in w.honest && k in n.parties[p].values
    ensures n.parties[p].finalReached
  {
    hide AllDelivered;
    ValueFacts(w, n, p, k);
    var x := Carrier(w, n, p, n.parties[p].values[k]);
    HonestChain(w, n, x);
    if w.cfg.origin in w.honest {
      HonestOrigin(w, n, p, n.parties[p].values[k]);
      FollowersFinal(w, n, p);
    } else {
      var t := ThirdMember(w.honest, x.sender, x.sender);
      AnsweredFinal(w, n, x, p);
    }
  }

  lemma OneFaultAlike(w: World, n: Net, p: Address, q: Address)
    requires Reached(w, n) && AllDelivered(w, n) && |Faulty(w)| == 1 && p in w.honest && q in w.honest && p != q
    requires w.cfg.relayRounds == 2 || (w.cfg.relayRounds == 3 && |w.honest| >= 3)
    ensures n.parties[p].values.Keys == n.parties[q].values.Keys
    ensures Decides(n.parties[p]) <==> Decides(n.parties[q])
  {
    SameValues(w, n, p, q);
    assert |n.parties[p].values| == |n.parties[p].values.Keys| && |n.parties[q].values| == |n.parties[q].values.Keys|;
    if n.parties[p].values.Keys != {} {
      var k :| k in n.parties[p].values.Keys;
      assert k in n.parties[q].values.Keys;
      if w.cfg.relayRounds == 2 {
        FinalWithValue(w, n, p, k);
        FinalWithValue(w, n, q, k);
      } else {
        ThreeRoundsFinal(w, n, p, k);
        ThreeRoundsFinal(w, n, q, k);
      }
    }
  }

  /**
   One code-following party decides "valid" exactly when every other does, on the same value.
   `Exactness` shows that this fails for all other numbers.
   */
  lemma SameDecision(w: World, n: Net, p: Address, q: Address)
    requires Reached(w, n) && AllDelivered(w, n) && w.cfg.relayRounds >= 1
    requires Alike(|Faulty(w)|, |w.honest|, w.cfg.relayRounds)
    requires p in w.honest && q in w.honest
    ensures Decides(n.parties[p]) <==> Decides(n.parties[q])
    ensures Decides(n.parties[p]) ==> n.parties[p].values.Keys == n.parties[q].values.Keys
  {
    if p != q {
      if |w.honest| <= 1 {
        OnlyTwo(w.honest, p, q);
      }
      assert w.cfg.group == w.honest + Faulty(w);
      if |Faulty(w)| == 0 {
        FaultFreeAlike(w, n, p, q);
      } else if |w.cfg.group| < w.cfg.relayRounds {
        SmallGroup(w, n, p);
        SmallGroup(w, n, q);
      } else {
        OneFaultAlike(w, n, p, q);
      }
    }
  }
}
