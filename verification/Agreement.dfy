/**
 What the reliable broadcast guarantees about the values that code-following
 parties accept, over every run of the network.
 */
module Agreement {
  import opened Wrappers
  import opened Collections
  import opened Messages
  import opened Broadcaster
  import opened Network

  /** Every broadcast of a code-following party was taken by every other one before its window closed. */
  ghost predicate AllDelivered(w: World, n: Net) {
    forall h, m, q :: h in w.honest && q in w.honest && q != h && Incoming(h, m) in n.sent ==>
      (q, Incoming(h, m)) in n.taken
  }

  // ---------- chain integrity ----------

  lemma HonestChain(w: World, n: Net, x: Incoming)
    requires Reached(w, n) && x in n.sent && x.sender in w.honest
    ensures ChainValid(w.cfg, x.sender, x.msg) && x.msg.sessionId == w.cfg.sessionId
    ensures x.msg.round != w.cfg.relayRounds || x.sender == w.cfg.origin
    ensures x.msg.round == 0 || x.msg.round <= w.cfg.relayRounds + 1
    ensures x.sender == w.cfg.origin <==> x.msg.round == 0
    ensures Key(x.msg.value) in n.parties[x.sender].values
  {
    ReachedKeeps(w, n);
    if IsOpening(w, n, x) {
      OpeningChainValid(w.cfg, n.proposal.value);
    } else {
      assert IsRelay(w, n, x);
      assert ProcessedAt(w, n, Parent(x));
      ExtendedChainValid(w.cfg, x.sender, Parent(x).1, n.processed[Parent(x)]);
    }
  }

  /**
   Chain integrity: whatever a code-following party sends carries Round+1 signatures
   by distinct members, from the origin to itself, each valid over its prefix, so
   every party with this group and origin validates it; the message that would
   complete the last round is never sent, and only the origin sends round 0.
   */
  lemma ChainIntegrity(w: World, n: Net, x: Incoming)
    requires Reached(w, n) && w.cfg.relayRounds >= 1
    requires x in n.sent && x.sender in w.honest
    ensures ChainValid(w.cfg, x.sender, x.msg) && x.msg.sessionId == w.cfg.sessionId
    ensures x.msg.round < w.cfg.relayRounds || x.msg.round == w.cfg.relayRounds + 1
    ensures x.sender == w.cfg.origin <==> x.msg.round == 0
    ensures Key(x.msg.value) in n.parties[x.sender].values
  {
    HonestChain(w, n, x);
  }

  /** A code-following signer of a valid chain itself sent the chain up to its own signature. */
  lemma SignerSent(w: World, n: Net, x: Incoming, i: nat) returns (m: RoundMessage)
    requires Reached(w, n) && x in n.sent
    requires ChainValid(w.cfg, x.sender, x.msg) && x.msg.sessionId == w.cfg.sessionId
    requires i <= x.msg.round && x.msg.signatures[i].signer in w.honest
    ensures Incoming(x.msg.signatures[i].signer, m) in n.sent
    ensures m.sessionId == x.msg.sessionId && m.value == x.msg.value && m.round == i
    ensures |m.signatures| == i + 1 && m.signatures[..i] == x.msg.signatures[..i]
  {
    var sig := x.msg.signatures[i];
    assert LinkValid(w.cfg, x.msg, i) && Known(w, n, sig) by { ReachedKeeps(w, n); }
    m :| Incoming(sig.signer, m) in n.sent && m.signatures != []
         && sig.value.over == SignFields(m.sessionId, m.value, Front(m.signatures));
    HonestChain(w, n, Incoming(sig.signer, m));
    SignFieldsInjective(m.sessionId, m.value, Front(m.signatures),
                        x.msg.sessionId, x.msg.value, x.msg.signatures[..i]);
  }

  // ---------- validity ----------

  lemma HonestOrigin(w: World, n: Net, p: Address, v: Value)
    requires Reached(w, n) && w.cfg.origin in w.honest
    requires p in w.honest && Backed(w, n, p, v)
    ensures n.proposal == Some(v)
  {
    if !Proposes(w, n, p, v) {
      var q, r :| Backs(w, n, p, q, r, v);
      ProcessedFacts(w, n, (p, q, r));
      var m := SignerSent(w, n, Incoming(q, n.processed[(p, q, r)]), 0);
      var x := Incoming(w.cfg.origin, m);
      assert IsOpening(w, n, x) || IsRelay(w, n, x) by { ReachedKeeps(w, n); }
    }
  }

  /**
   Validity: with a code-following origin, no code-following party ever accepts
   anything but the value the origin broadcast, whatever the others do.
   */
  lemma Validity(w: World, n: Net, p: Address, k: string)
    requires Reached(w, n) && w.cfg.origin in w.honest
    requires p in w.honest && k in n.parties[p].values
    ensures n.proposal == Some(n.parties[p].values[k])
  {
    ValueFacts(w, n, p, k);
    HonestOrigin(w, n, p, n.parties[p].values[k]);
  }

  // ---------- agreement ----------

  function Signers(sigs: seq<Signature>, k: nat): set<Address>
    requires k <= |sigs|
  {
    set i | 0 <= i < k :: sigs[i].signer
  }

  lemma {:induction false} DistinctSignersCount(sigs: seq<Signature>, k: nat)
    requires k <= |sigs| && Distinct(sigs)
    ensures |Signers(sigs, k)| == k
  {
    hide Distinct;
    if k > 0 {
      DistinctSignersCount(sigs, k - 1);
      NextSigner(sigs, k);
    }
  }

  lemma NextSigner(sigs: seq<Signature>, k: nat)
    requires 0 < k <= |sigs| && Distinct(sigs)
    ensures Signers(sigs, k) == Signers(sigs, k - 1) + {sigs[k - 1].signer}
    ensures sigs[k - 1].signer !in Signers(sigs, k - 1)
  {
    var next := sigs[k - 1].signer;
    forall a
      ensures a in Signers(sigs, k) <==> a in Signers(sigs, k - 1) || a == next
    {
      if a in Signers(sigs, k) && a != next {
        var i :| 0 <= i < k && sigs[i].signer == a;
        assert i < k - 1;
      }
    }
  }

  /** Among the first f+1 signers of a chain with more signers than faulty parties, one follows the code. */
  lemma HonestSigner(w: World, sender: Address, m: RoundMessage) returns (i: nat)
    requires ChainValid(w.cfg, sender, m) && |Faulty(w)| < |m.signatures|
    ensures i <= |Faulty(w)| && m.signatures[i].signer in w.honest
  {
    var R := |Faulty(w)| + 1;
    if forall j :: 0 <= j < R ==> m.signatures[j].signer !in w.honest {
      forall a | a in Signers(m.signatures, R)
        ensures a in Faulty(w)
      {
        var j :| 0 <= j < R && m.signatures[j].signer == a;
        assert LinkValid(w.cfg, m, j);
      }
      DistinctSignersCount(m.signatures, R);
      SubsetCount(Signers(m.signatures, R), Faulty(w));
      assert false;
    }
    i :| 0 <= i < R && m.signatures[i].signer in w.honest;
  }

  /** Every accepted value was broadcast by some code-following party, in a round not beyond the number of faults. */
  lemma Carrier(w: World, n: Net, p: Address, v: Value) returns (x: Incoming)
    requires Reached(w, n) && |Faulty(w)| < w.cfg.relayRounds
    requires p in w.honest && Backed(w, n, p, v)
    ensures x in n.sent && x.sender in w.honest && x.msg.value == v && x.msg.round <= |Faulty(w)|
  {
    if Proposes(w, n, p, v) {
      ProposalFacts(w, n);
      x := Incoming(p, Opening(w.cfg, v));
    } else {
      var q, r :| Backs(w, n, p, q, r, v);
      var m := n.processed[(p, q, r)];
      ProcessedFacts(w, n, (p, q, r));
      if |m.signatures| > |Faulty(w)| {
        var i := HonestSigner(w, q, m);
        var m' := SignerSent(w, n, Incoming(q, m), i);
        x := Incoming(m.signatures[i].signer, m');
      } else if SignedBy(p, m.signatures) {
        var i :| 0 <= i < |m.signatures| && m.signatures[i].signer == p;
        var m' := SignerSent(w, n, Incoming(q, m), i);
        x := Incoming(p, m');
      } else {
        x := Incoming(p, Extended(p, m));
      }
    }
  }

  /** A taken broadcast leaves its receiver with some message of that sender and round. */
  lemma TookThis(w: World, n: Net, x: Incoming, q: Address) returns (m: RoundMessage)
    requires Reached(w, n) && (q, x) in n.taken
    requires x in n.sent && x.sender in w.honest && q in w.honest - {x.sender}
    requires x.msg.round <= w.cfg.relayRounds
    ensures (q, x.sender, x.msg.round) in n.processed && m == n.processed[(q, x.sender, x.msg.round)]
    ensures Incoming(x.sender, m) in n.sent && m.round == x.msg.round
    ensures ChainValid(w.cfg, x.sender, m) && Outcome(w, n, q, x.sender, m)
  {
    HonestChain(w, n, x);
    var k := (q, x.sender, x.msg.round);
    assert k in n.processed by { ReachedKeeps(w, n); }
    m := n.processed[k];
    ProcessedFacts(w, n, k);
    HonestChain(w, n, Incoming(x.sender, m));
  }

  lemma Took(w: World, n: Net, x: Incoming, q: Address) returns (m: RoundMessage)
    requires Reached(w, n) && AllDelivered(w, n)
    requires x in n.sent && x.sender in w.honest && q in w.honest - {x.sender}
    requires x.msg.round <= w.cfg.relayRounds
    ensures (q, x.sender, x.msg.round) in n.processed && m == n.processed[(q, x.sender, x.msg.round)]
    ensures Incoming(x.sender, m) in n.sent && m.round == x.msg.round
    ensures ChainValid(w.cfg, x.sender, m) && Outcome(w, n, q, x.sender, m)
  {
    assert Incoming(x.sender, x.msg) == x;
    m := TookThis(w, n, x, q);
  }

  /** A delivered broadcast leaves sender and receiver with an accepted key in common. */
  lemma SharedKey(w: World, n: Net, x: Incoming, q: Address) returns (k: string)
    requires Reached(w, n) && AllDelivered(w, n)
    requires x in n.sent && x.sender in w.honest && x.msg.round <= w.cfg.relayRounds && q in w.honest
    ensures k in n.parties[q].values && k in n.parties[x.sender].values
  {
    if q == x.sender {
      HonestChain(w, n, x);
      k := Key(x.msg.value);
    } else {
      var m := Took(w, n, x, q);
      HonestChain(w, n, Incoming(x.sender, m));
      k := Key(m.value);
    }
  }

  /**
   Agreement: with at most relayRounds-1 faulty parties and all broadcasts of
   code-following parties delivered, if each code-following party ends with exactly
   one accepted value then these are all the same.
   */
  lemma Agreement(w: World, n: Net, p: Address, q: Address)
    requires Reached(w, n)
    requires |Faulty(w)| < w.cfg.relayRounds && AllDelivered(w, n)
    requires forall h :: h in w.honest ==> |n.parties[h].values.Keys| == 1
    requires p in w.honest && q in w.honest
    ensures n.parties[p].values.Keys == n.parties[q].values.Keys
    ensures forall k :: k in n.parties[p].values && k != "" ==>
              n.parties[p].values[k] == n.parties[q].values[k] == Val(k)
  {
    var k :| k in n.parties[p].values.Keys;
    ValueFacts(w, n, p, k);
    var x := Carrier(w, n, p, n.parties[p].values[k]);
    HonestChain(w, n, x);
    var c := SharedKey(w, n, x, q);
    Singleton(n.parties[x.sender].values.Keys, c, k);
    Singleton(n.parties[p].values.Keys, k, k);
    Singleton(n.parties[q].values.Keys, c, c);
    ValueFacts(w, n, q, k);
  }

  // ---------- what a party ends with, exactly ----------

  function AllSigners(m: RoundMessage): set<Address> {
    Signers(m.signatures, |m.signatures|)
  }

  /** The chain length a party counts is the number of signers, itself included. */
  lemma CountIsSigners(p: Address, m: RoundMessage)
    requires Distinct(m.signatures)
    ensures SignedBy(p, m.signatures) <==> p in AllSigners(m)
    ensures ChainCount(p, m) == |AllSigners(m) + {p}|
  {
    DistinctSignersCount(m.signatures, |m.signatures|);
    hide Distinct;
    if p in AllSigners(m) {
      assert AllSigners(m) + {p} == AllSigners(m);
    }
  }

  /** Party `p` took the valid chain `m` from `q` as the first message of that sender and round. */
  ghost predicate Accepts(w: World, n: Net, p: Address, q: Address, m: RoundMessage) {
    (p, q, m.round) in n.processed && n.processed[(p, q, m.round)] == m && ChainValid(w.cfg, q, m)
  }

  /** Message `m'` is `m` with the signature of `p` added, one round later. */
  predicate Continues(p: Address, m: RoundMessage, m': RoundMessage) {
    && m'.sessionId == m.sessionId && m'.value == m.value && m'.round == m.round + 1
    && |m'.signatures| == |m.signatures| + 1 && m'.signatures[..|m.signatures|] == m.signatures
    && m'.signatures[|m.signatures|] == Sign(p, m.sessionId, m.value, m.signatures)
  }

  /**
   In every reachable state a party has accepted exactly the value it proposed and those of the valid
   chains it took; it is final exactly if one of these has, with itself, at least R signers, or it
   proposed with one relay round.
   */
  lemma AcceptedExactly(w: World, n: Net, p: Address)
    requires Reached(w, n) && p in w.honest
    ensures forall k :: k in n.parties[p].values <==>
              || (p == w.cfg.origin && n.proposal.Some? && Key(n.proposal.value) == k)
              || exists q, m :: Accepts(w, n, p, q, m) && Key(m.value) == k
    ensures n.parties[p].finalReached <==>
              || (p == w.cfg.origin && n.proposal.Some? && w.cfg.relayRounds == 1)
              || exists q, m :: Accepts(w, n, p, q, m) && |AllSigners(m) + {p}| >= w.cfg.relayRounds
  {
    ReachedKeeps(w, n);
    hide Reached, Authentic, HonestSent, Bookkeeping, Joining, Membership;
    forall q, m | Accepts(w, n, p, q, m)
      ensures Key(m.value) in n.parties[p].values
      ensures |AllSigners(m) + {p}| >= w.cfg.relayRounds ==> n.parties[p].finalReached
    {
      assert ProcessedAt(w, n, (p, q, m.round));
      CountIsSigners(p, m);
    }
    forall k | k in n.parties[p].values && !(p == w.cfg.origin && n.proposal.Some? && Key(n.proposal.value) == k)
      ensures exists q, m :: Accepts(w, n, p, q, m) && Key(m.value) == k
    {
      var q, r :| Backs(w, n, p, q, r, n.parties[p].values[k]);
      assert ProcessedAt(w, n, (p, q, r));
      assert Accepts(w, n, p, q, n.processed[(p, q, r)]);
    }
    if n.parties[p].finalReached && !(p == w.cfg.origin && n.proposal.Some? && w.cfg.relayRounds == 1) {
      var q, r :| Completes(w, n, p, q, r);
      assert ProcessedAt(w, n, (p, q, r));
      var m := n.processed[(p, q, r)];
      CountIsSigners(p, m);
      assert Accepts(w, n, p, q, m);
    }
  }

  /** What a party sends on taking a chain. */
  ghost predicate Passes(w: World, n: Net, p: Address, q: Address, m: RoundMessage, m': RoundMessage) {
    && Accepts(w, n, p, q, m) && p !in AllSigners(m) && m.round + 1 != w.cfg.relayRounds && Continues(p, m, m')
  }

  lemma PassedIsSent(w: World, n: Net, p: Address, q: Address, m: RoundMessage, m': RoundMessage)
    requires Reached(w, n) && p in w.honest && Passes(w, n, p, q, m, m')
    ensures Incoming(p, m') in n.sent
  {
    ProcessedFacts(w, n, (p, q, m.round));
    assert Distinct(m.signatures);
    hide Reached, ChainValid, SignedBy, Extended, Continues, ChainCount, Distinct, AllSigners;
    CountIsSigners(p, m);
    ContinuationIs(p, m, m');
  }

  lemma ContinuationIs(p: Address, m: RoundMessage, m': RoundMessage)
    requires Continues(p, m, m')
    ensures m' == Extended(p, m)
  {
    hide Sign;
    assert m'.signatures == m'.signatures[..|m.signatures|] + [m'.signatures[|m.signatures|]];
  }

  lemma SentIsPassed(w: World, n: Net, p: Address, m': RoundMessage) returns (q: Address, m: RoundMessage)
    requires Reached(w, n) && p in w.honest && Incoming(p, m') in n.sent && !IsOpening(w, n, Incoming(p, m'))
    ensures Passes(w, n, p, q, m, m')
  {
    var x := Incoming(p, m');
    assert IsRelay(w, n, x) by { ReachedKeeps(w, n); }
    var k := Parent(x);
    ProcessedFacts(w, n, k);
    q, m := k.1, n.processed[k];
    CountIsSigners(p, m);
    hide Reached, ChainValid;
  }

  /**
   And it has sent exactly its opening message and its continuation of every valid chain it took without
   being a signer of it, except in the round before the last.
   */
  lemma SentExactly(w: World, n: Net, p: Address, m': RoundMessage)
    requires Reached(w, n) && p in w.honest
    ensures Incoming(p, m') in n.sent <==>
              || (p == w.cfg.origin && n.proposal.Some? && m' == Opening(w.cfg, n.proposal.value))
              || exists q, m :: Passes(w, n, p, q, m, m')
  {
    hide Reached, Passes;
    if n.proposal.Some? {
      ProposalFacts(w, n);
    }
    forall q, m | Passes(w, n, p, q, m, m')
      ensures Incoming(p, m') in n.sent
    {
      PassedIsSent(w, n, p, q, m, m');
    }
    if Incoming(p, m') in n.sent && !IsOpening(w, n, Incoming(p, m')) {
      var q, m := SentIsPassed(w, n, p, m');
    }
  }
}
