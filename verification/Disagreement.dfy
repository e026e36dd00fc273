/**
 Runs in which two code-following parties decide on different values although all
 broadcasts of code-following parties are delivered, and the exact fault counts and
 relay rounds for which this can happen.
 */
module Disagreement {
  import opened Collections
  import opened Messages
  import opened Broadcaster
  import opened Network
  import opened Agreement
  import opened Decisions
  import opened Runs
  import opened Completion

  // ---------- rival chains ----------

  /** A rival chain: all its signers are faulty, and it has one signature less than the number of relay rounds. */
  ghost predicate Rival(w: World, x: Incoming, v: Value) {
    && Sound(w, x) && x.msg.value == v && x.msg.round + 2 == w.cfg.relayRounds
    && OnlyFaultySigned(w, x)
    && forall i :: 0 <= i < |x.msg.signatures| ==> x.msg.signatures[i].signer in Faulty(w)
  }

  lemma RivalChain(w: World, v: Value, names: seq<Address>)
    requires names != [] && names[0] == w.cfg.origin && NoDup(names) && |names| + 1 == w.cfg.relayRounds
    requires forall i :: 0 <= i < |names| ==> names[i] in Faulty(w)
    ensures Rival(w, Incoming(names[|names| - 1], Chained(w.cfg, v, names)), v)
  {
    ChainedValid(w.cfg, v, names);
  }

  // ---------- four or more relay rounds ----------

  /** The relay of a rival chain by code-following `h` is a full chain not signed by any other code-following party. */
  lemma RelayedRival(w: World, x: Incoming, v: Value, h: Address)
    requires WellFormed(w) && Rival(w, x, v) && h in w.honest
    ensures Extends(w.cfg, h, x.sender, x.msg) && x.sender in Faulty(w) && Sound(w, x) && OnlyFaultySigned(w, x)
    ensures x.msg.round + 2 == w.cfg.relayRounds
    ensures var y := Onward(w, h, x); Sound(w, y) && y.msg.value == v && y.msg.round + 1 == w.cfg.relayRounds
    ensures forall p :: p in w.honest && p != h ==> !SignedBy(p, Onward(w, h, x).msg.signatures)
  {
    assert !SignedBy(h, x.msg.signatures);
    ExtendedChainValid(w.cfg, h, x.sender, x.msg);
    assert x.msg.signatures[x.msg.round].signer == x.sender;
  }

  /** A party takes two messages of different senders and relays both. */
  lemma TakesBoth(w: World, n: Net, to: Address, x: Incoming, y: Incoming) returns (n': Net)
    requires Reached(w, n) && Ready(w, n, to, x) && Ready(w, n, to, y) && Sound(w, x) && Sound(w, y)
    requires n.parties[to] == Waiting(w.cfg) && x.msg.round > 0 && y.msg.round > 0 && x.sender != y.sender
    requires Extends(w.cfg, to, x.sender, x.msg) && Extends(w.cfg, to, y.sender, y.msg)
    ensures Reached(w, n') && Only(n, n', to) && n'.taken == n.taken + {(to, x)} + {(to, y)}
    ensures HonestOut(w, n') == HonestOut(w, n) + {Onward(w, to, x)} + {Onward(w, to, y)}
    ensures n'.parties[to].received == {(w.cfg.origin, 0)} + {(x.sender, x.msg.round)} + {(y.sender, y.msg.round)}
    ensures n'.parties[to].values == AddValue(map[Key(x.msg.value) := x.msg.value], y.msg.value)
  {
    hide Reached, Sound, Extends;
    n' := DeliverFirst(w, n, to, x);
    n' := DeliverFirst(w, n', to, y);
  }

  /** Two chains of faulty signers reach `h`, which relays both. */
  lemma RivalsRelayed(w: World, n: Net, x: Incoming, y: Incoming, h: Address) returns (n': Net)
    requires Reached(w, n) && HonestOut(w, n) == {} && h in w.honest - {w.cfg.origin}
    requires h in n.joined && n.parties[h] == Waiting(w.cfg)
    requires Sound(w, x) && Sound(w, y) && OnlyFaultySigned(w, x) && OnlyFaultySigned(w, y)
    requires x.sender in Faulty(w) && y.sender in Faulty(w) && x.sender != y.sender
    requires x.msg.round > 0 && y.msg.round > 0 && Extends(w.cfg, h, x.sender, x.msg) && Extends(w.cfg, h, y.sender, y.msg)
    ensures Reached(w, n') && Only(n, n', h) && n'.taken == n.taken + {(h, x)} + {(h, y)}
    ensures HonestOut(w, n') == {Onward(w, h, x)} + {Onward(w, h, y)}
  {
    assert n.parties.Keys == w.honest;
    hide Reached, Extends, Sound, OnlyFaultySigned, HonestOut;
    n' := InjectFaulty(w, n, x);
    n' := InjectFaulty(w, n', y);
    n' := TakesBoth(w, n', h, x, y);
  }

  /** A party that sees two full chains of one sender decides on the value of the first. */
  lemma KeepsFirst(w: World, n: Net, to: Address, x: Incoming, y: Incoming) returns (n': Net)
    requires Reached(w, n) && Ready(w, n, to, x) && Ready(w, n, to, y) && x.sender == y.sender
    requires n.parties[to] == Waiting(w.cfg) && 0 < x.msg.round == y.msg.round
    requires Sound(w, x) && x.msg.round + 1 == w.cfg.relayRounds
    ensures Reached(w, n') && Only(n, n', to) && HonestOut(w, n') == HonestOut(w, n)
    ensures n'.taken == n.taken + {(to, x)} + {(to, y)}
    ensures Decides(n'.parties[to]) && n'.parties[to].values == map[Key(x.msg.value) := x.msg.value]
  {
    n' := DeliverFirst(w, n, to, x);
    n' := DeliverDropped(w, n', to, y);
  }

  /** `p` and `q` are done with the two final messages of one party, and nothing else was sent. */
  ghost predicate BothDone(w: World, s: Net, x: Incoming, y: Incoming, p: Address, q: Address, done: Net) {
    && HonestOut(w, s) == {x} + {y} && x.msg.round + 1 == w.cfg.relayRounds == y.msg.round + 1 && p in s.parties && q in s.parties
    && {p, q} <= done.parties.Keys && s.parties[p] == done.parties[p] && s.parties[q] == done.parties[q]
    && s.joined == done.joined && done.taken <= s.taken
    && (p, x) in s.taken && (p, y) in s.taken && (q, x) in s.taken && (q, y) in s.taken
  }

  lemma BothDoneKept(w: World, x: Incoming, y: Incoming, p: Address, q: Address, done: Net)
    ensures Kept(w, (s: Net) => BothDone(w, s, x, y, p, q, done))
  {
    forall s, t, z | UnderWay(w, s) && BothDone(w, s, x, y, p, q, done) && Pending(w, s, t, z) && t in s.parties
      ensures BothDone(w, Delivered(w, s, t, z), x, y, p, q, done)
    {
      hide Reached, ChainValid;
      assert z in HonestOut(w, s);
      assert t != p && t != q && !Extends(w.cfg, t, z.sender, z.msg);
      assert HonestOut(w, Delivered(w, s, t, z)) == HonestOut(w, s);
    }
  }

  /** Two parties take the two final messages of `h` in opposite orders, and all others in any order. */
  lemma OppositeOrders(w: World, n: Net, h: Address, p: Address, q: Address, x: Incoming, y: Incoming)
    returns (n': Net)
    requires UnderWay(w, n) && {h, p, q} <= w.honest && h != p && h != q && p != q && w.cfg.origin !in w.honest
    requires HonestOut(w, n) == {x} + {y} && n.parties[p] == n.parties[q] == Waiting(w.cfg)
    requires Sound(w, x) && Sound(w, y) && x.sender == y.sender == h
    requires 0 < x.msg.round == y.msg.round == w.cfg.relayRounds - 1
    ensures Reached(w, n') && AllDelivered(w, n') && n'.joined == n.joined && n.taken <= n'.taken
    ensures Decides(n'.parties[p]) && n'.parties[p].values == map[Key(x.msg.value) := x.msg.value]
    ensures Decides(n'.parties[q]) && n'.parties[q].values == map[Key(y.msg.value) := y.msg.value]
  {
    assert x in HonestOut(w, n) && y in HonestOut(w, n);
    hide Reached, Sound, HonestOut;
    n' := KeepsFirst(w, n, p, x, y);
    n' := KeepsFirst(w, n', q, y, x);
    var done := n';
    BothDoneKept(w, x, y, p, q, done);
    n' := CanFinish(w, done, (s: Net) => BothDone(w, s, x, y, p, q, done));
  }

  /** The same signers with the last two exchanged. */
  function Swapped(names: seq<Address>): (other: seq<Address>)
    requires |names| >= 2
  {
    names[..|names| - 2] + [names[|names| - 1], names[|names| - 2]]
  }

  lemma SwappedFacts(names: seq<Address>)
    requires |names| >= 3 && NoDup(names)
    ensures |Swapped(names)| == |names| && NoDup(Swapped(names)) && Swapped(names)[0] == names[0]
    ensures Swapped(names)[|names| - 1] != names[|names| - 1]
    ensures forall i :: 0 <= i < |names| ==> Swapped(names)[i] in Elements(names)
  {
  }

  /** All of `faulty` are faulty, the first is the origin, and at least three others follow the code. */
  ghost predicate Split(w: World, faulty: seq<Address>, h: Address, p: Address, q: Address) {
    && |faulty| >= 3 && NoDup(faulty) && {h, p, q} <= w.honest && h != p && h != q && p != q
    && w.cfg.group == Elements(faulty) + w.honest && Elements(faulty) !! w.honest
    && w.cfg.origin == faulty[0] && w.cfg.relayRounds == |faulty| + 1
  }

  /** The faulty parties can sign two rival chains that arrive from different senders. */
  lemma SplitRivals(w: World, faulty: seq<Address>, h: Address, p: Address, q: Address, v: Value, v': Value)
    returns (x: Incoming, y: Incoming)
    requires Split(w, faulty, h, p, q)
    ensures Rival(w, x, v) && Rival(w, y, v') && x.sender != y.sender
    ensures WellFormed(w) && w.cfg.origin !in w.honest && |Faulty(w)| < w.cfg.relayRounds && w.cfg.relayRounds >= 4
  {
    assert Faulty(w) == Elements(faulty) && forall i :: 0 <= i < |faulty| ==> faulty[i] in Elements(faulty);
    hide Rival, Chained, NoDup, Swapped, Elements, Faulty;
    var other := Swapped(faulty);
    SwappedFacts(faulty);
    ElementsCount(faulty);
    RivalChain(w, v, faulty);
    RivalChain(w, v', other);
    var k := |faulty| - 1;
    x, y := Incoming(faulty[k], Chained(w.cfg, v, faulty)), Incoming(other[k], Chained(w.cfg, v', other));
  }

  /** All have joined in vain, `q` on `v'` and the others on `v`. */
  lemma AllInVain(w: World, q: Address, v: Value, v': Value) returns (n: Net)
    requires WellFormed(w) && q in w.honest && w.cfg.origin !in w.honest && w.cfg.relayRounds >= 1
    ensures UnderWay(w, n) && HonestOut(w, n) == {} && JoinedOn(w, n, q, Unsigned(w.cfg, v'))
    ensures forall p :: p in w.honest ==> n.parties[p] == Waiting(w.cfg)
    ensures forall p :: p in w.honest && p != q ==> JoinedOn(w, n, p, Unsigned(w.cfg, v))
  {
    var opens := map p | p in w.honest :: if p == q then v' else v;
    n := Gather(w, opens);
  }

  /**
   For every number of relay rounds from four on, any group with that many faulty parties less
   one and at least three others has a run with all broadcasts of code-following parties delivered in
   which two code-following parties both decide "valid" on different values: the third relayed
   both values in the same round, and each of the two kept the first it saw. Each of the two
   joined on an opening message that carries the value it decides on.
   */
  lemma TwoDecisions(w: World, faulty: seq<Address>, h: Address, p: Address, q: Address, v: Value, v': Value)
    returns (n: Net)
    requires Split(w, faulty, h, p, q)
    ensures Reached(w, n) && AllDelivered(w, n) && |Faulty(w)| < w.cfg.relayRounds
    ensures Decides(n.parties[p]) && n.parties[p].values == map[Key(v) := v]
    ensures Decides(n.parties[q]) && n.parties[q].values == map[Key(v') := v']
    ensures JoinedOn(w, n, p, Unsigned(w.cfg, v)) && JoinedOn(w, n, q, Unsigned(w.cfg, v'))
  {
    var x, y := SplitRivals(w, faulty, h, p, q, v, v');
    hide Reached, Sound, Rival, Extends, Faulty, Elements, Unsigned, OnlyFaultySigned, Waiting, HonestOut, AllDelivered;
    RelayedRival(w, x, v, h);
    RelayedRival(w, y, v', h);
    n := AllInVain(w, q, v, v');
    n := RivalsRelayed(w, n, x, y, h);
    n := OppositeOrders(w, n, h, p, q, Onward(w, h, x), Onward(w, h, y));
  }

  // ---------- more faulty parties than relay rounds allow for ----------

  /** A full chain makes a party without values decide on it, and is not relayed. */
  lemma TakesFull(w: World, n: Net, to: Address, x: Incoming) returns (n': Net)
    requires Reached(w, n) && Ready(w, n, to, x) && Sound(w, x) && x.msg.round + 1 == w.cfg.relayRounds
    requires (x.sender, x.msg.round) !in n.parties[to].received && n.parties[to].values == map[]
    ensures Reached(w, n') && HonestOut(w, n') == HonestOut(w, n) && n'.joined == n.joined && n.sent <= n'.sent
    ensures Decides(n'.parties[to]) && n'.parties[to].values == map[Key(x.msg.value) := x.msg.value]
    ensures forall p :: p in w.honest && p != to ==> n'.parties[p] == n.parties[p]
  {
    n' := DeliverFirst(w, n, to, x);
  }

  /** At least as many faulty parties as relay rounds, the first being the origin, and at least two others. */
  ghost predicate Overrun(w: World, faulty: seq<Address>, p: Address, q: Address) {
    && 1 <= w.cfg.relayRounds <= |faulty| && NoDup(faulty) && {p, q} <= w.honest && p != q
    && w.cfg.group == Elements(faulty) + w.honest && Elements(faulty) !! w.honest && w.cfg.origin == faulty[0]
  }

  /** The faulty parties can sign a full chain for any value. */
  lemma FullChain(w: World, faulty: seq<Address>, p: Address, q: Address, v: Value) returns (x: Incoming)
    requires Overrun(w, faulty, p, q)
    ensures Sound(w, x) && x.sender in Faulty(w) && OnlyFaultySigned(w, x)
    ensures x.msg.value == v && x.msg.round + 1 == w.cfg.relayRounds && (x.msg.round == 0 ==> x.sender == w.cfg.origin)
  {
    var names := faulty[..w.cfg.relayRounds];
    assert forall i :: 0 <= i < |names| ==> names[i] == faulty[i] && names[i] in Elements(faulty);
    ChainedValid(w.cfg, v, names);
    x := Incoming(names[|names| - 1], Chained(w.cfg, v, names));
  }

  /** Within one relay round each party decides on the opening message it joins on. */
  lemma OverrunOpening(w: World, p: Address, q: Address, x: Incoming, y: Incoming, v: Value) returns (n: Net)
    requires WellFormed(w) && {p, q} <= w.honest && p != q && w.cfg.origin !in w.honest && w.cfg.relayRounds == 1
    requires Sound(w, x) && Sound(w, y) && x.msg.round == y.msg.round == 0 && x.sender == y.sender == w.cfg.origin
    requires OnlyFaultySigned(w, x) && OnlyFaultySigned(w, y)
    ensures Reached(w, n) && HonestOut(w, n) == {} && n.joined.Keys == w.honest
    ensures Decides(n.parties[p]) && n.parties[p].values == map[Key(x.msg.value) := x.msg.value]
    ensures Decides(n.parties[q]) && n.parties[q].values == map[Key(y.msg.value) := y.msg.value]
  {
    var opens := map t | t in w.honest - {p, q} :: v;
    n := Gather(w, opens);
    hide Reached, Sound, HonestOut, OnlyFaultySigned;
    n := Joins(w, n, p, x.msg);
    n := TakesFull(w, n, p, x);
    n := Joins(w, n, q, y.msg);
    n := TakesFull(w, n, q, y);
  }

  lemma OverrunChains(w: World, p: Address, q: Address, x: Incoming, y: Incoming) returns (n: Net)
    requires WellFormed(w) && {p, q} <= w.honest && p != q && w.cfg.origin !in w.honest && w.cfg.relayRounds >= 2
    requires Sound(w, x) && Sound(w, y) && x.msg.round == y.msg.round == w.cfg.relayRounds - 1
    requires x.sender in Faulty(w) && y.sender in Faulty(w) && OnlyFaultySigned(w, x) && OnlyFaultySigned(w, y)
    ensures Reached(w, n) && HonestOut(w, n) == {} && n.joined.Keys == w.honest
    ensures Decides(n.parties[p]) && n.parties[p].values == map[Key(x.msg.value) := x.msg.value]
    ensures Decides(n.parties[q]) && n.parties[q].values == map[Key(y.msg.value) := y.msg.value]
  {
    n := ChainsSent(w, p, q, x, y);
    hide Reached, Sound, HonestOut, OnlyFaultySigned, Waiting;
    n := TakesFull(w, n, p, x);
    n := TakesFull(w, n, q, y);
  }

  /** All have joined in vain, and the two chains are on their way. */
  lemma ChainsSent(w: World, p: Address, q: Address, x: Incoming, y: Incoming) returns (n: Net)
    requires WellFormed(w) && {p, q} <= w.honest && p != q && w.cfg.origin !in w.honest && w.cfg.relayRounds >= 1
    requires x.msg.round > 0 && y.msg.round > 0
    requires x.sender in Faulty(w) && y.sender in Faulty(w) && OnlyFaultySigned(w, x) && OnlyFaultySigned(w, y)
    ensures Reached(w, n) && HonestOut(w, n) == {} && Ready(w, n, p, x) && Ready(w, n, q, y) && n.joined.Keys == w.honest
    ensures n.parties[p].values == n.parties[q].values == map[]
    ensures (x.sender, x.msg.round) !in n.parties[p].received && (y.sender, y.msg.round) !in n.parties[q].received
  {
    n := AllInVain(w, q, x.msg.value, y.msg.value);
    assert n.parties[p] == n.parties[q] == Waiting(w.cfg);
    hide Reached, HonestOut, OnlyFaultySigned;
    n := InjectFaulty(w, n, x);
    n := InjectFaulty(w, n, y);
  }

  /** With as many faulty parties as relay rounds, two others can be made to decide on any two values. */
  lemma OverrunDecisions(w: World, faulty: seq<Address>, p: Address, q: Address, v: Value, v': Value) returns (n: Net)
    requires Overrun(w, faulty, p, q)
    ensures Reached(w, n) && AllDelivered(w, n) && n.joined.Keys == w.honest
    ensures Decides(n.parties[p]) && n.parties[p].values == map[Key(v) := v]
    ensures Decides(n.parties[q]) && n.parties[q].values == map[Key(v') := v']
  {
    assert faulty[0] in Elements(faulty);
    var x := FullChain(w, faulty, p, q, v);
    var y := FullChain(w, faulty, p, q, v');
    hide Sound, OnlyFaultySigned, Elements;
    if w.cfg.relayRounds == 1 {
      n := OverrunOpening(w, p, q, x, y, v);
    } else {
      n := OverrunChains(w, p, q, x, y);
    }
    NothingSent(w, n);
  }

  lemma NothingSent(w: World, n: Net)
    requires HonestOut(w, n) == {}
    ensures AllDelivered(w, n)
  {
    assert forall z :: z in n.sent && z.sender in w.honest ==> z in HonestOut(w, n);
  }

  // ---------- the exact condition ----------

  /** Two code-following parties of a reached state with everything delivered. */
  ghost predicate Ended(w: World, n: Net, p: Address, q: Address) {
    Reached(w, n) && AllDelivered(w, n) && p in w.honest && q in w.honest
  }

  /** The group has these numbers of faulty and code-following parties and of relay rounds. */
  ghost predicate Sized(w: World, faults: nat, followers: nat, relayRounds: int) {
    |Faulty(w)| == faults && |w.honest| == followers && w.cfg.relayRounds == relayRounds && w.honest <= w.cfg.group
  }

  /** In all groups of these numbers, parties that end with one value agree. */
  ghost predicate AlwaysAgree(faults: nat, followers: nat, relayRounds: int) {
    forall w, n, p, q ::
      && Sized(w, faults, followers, relayRounds) && Ended(w, n, p, q)
      && |n.parties[p].values.Keys| == 1 && |n.parties[q].values.Keys| == 1 ==>
        n.parties[p].values.Keys == n.parties[q].values.Keys
  }

  lemma SinglesDiffer(w: World, n: Net, p: Address, q: Address)
    requires Ended(w, n, p, q) && w.honest <= w.cfg.group
    requires n.parties[p].values == map["" := Nil] && n.parties[q].values == map["x" := Val("x")]
    ensures !AlwaysAgree(|Faulty(w)|, |w.honest|, w.cfg.relayRounds)
  {
    assert "" in n.parties[p].values.Keys && "" !in n.parties[q].values.Keys;
    assert n.parties[p].values.Keys == {""} && n.parties[q].values.Keys == {"x"};
    assert Sized(w, |Faulty(w)|, |w.honest|, w.cfg.relayRounds);
  }

  lemma TooManyFaults(faults: nat, followers: nat, relayRounds: int)
    requires relayRounds >= 1 && !Tolerates(faults, followers, relayRounds)
    ensures !AlwaysAgree(faults, followers, relayRounds)
  {
    var w, faulty, others := SomeGroup(faults, followers, relayRounds, true);
    hide AlwaysAgree, Reached, AllDelivered;
    var p, q := others[0], others[1];
    assert p in Elements(others) && q in Elements(others) && p != q;
    if faults < relayRounds {
      var h := others[2];
      assert h in Elements(others) && h != p && h != q;
      var n := TwoDecisions(w, faulty, h, p, q, Nil, Val("x"));
      SinglesDiffer(w, n, p, q);
    } else {
      var n := OverrunDecisions(w, faulty, p, q, Nil, Val("x"));
      SinglesDiffer(w, n, p, q);
    }
  }

  /**
   The exact condition: code-following parties that each end with one value agree, in every group of
   the given numbers and every run with everything delivered, if and only if the faults are tolerated.
   */
  lemma SinglesExact(faults: nat, followers: nat, relayRounds: int)
    requires relayRounds >= 1
    ensures AlwaysAgree(faults, followers, relayRounds) <==> Tolerates(faults, followers, relayRounds)
  {
    if Tolerates(faults, followers, relayRounds) {
      forall w, n, p, q |
        && Sized(w, faults, followers, relayRounds) && Ended(w, n, p, q)
        && |n.parties[p].values.Keys| == 1 && |n.parties[q].values.Keys| == 1
        ensures n.parties[p].values.Keys == n.parties[q].values.Keys
      {
        SinglesAgree(w, n, p, q);
      }
    } else {
      TooManyFaults(faults, followers, relayRounds);
    }
  }
}
