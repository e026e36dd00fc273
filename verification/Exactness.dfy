/**
 Runs showing that the bounds under which all parties accept the same values, or decide
 alike, are the best possible, and the exact conditions that follow.
 */
module Exactness {
  import opened Wrappers
  import opened Collections
  import opened Messages
  import opened Broadcaster
  import opened Network
  import opened Agreement
  import opened Decisions
  import opened Runs
  import opened Disagreement
  import opened Completion
  import opened Standstill

  // ---------- one party decides and the others do not ----------

  /** The code-following parties in a line from the origin on, and enough faulty ones to complete a chain. */
  ghost predicate Line(w: World, line: seq<Address>, tail: seq<Address>) {
    && WellFormed(w) && NoDup(line) && Elements(line) == w.honest && |line| >= 2 && line[0] == w.cfg.origin
    && NoDup(tail) && Elements(tail) <= Faulty(w) && |tail| >= 1 && |line| + |tail| == w.cfg.relayRounds
  }

  /** The chain of the first `i + 1` parties of the line. */
  ghost function Link(w: World, line: seq<Address>, v: Value, i: nat): Incoming
    requires i < |line|
  {
    Incoming(line[i], Chained(w.cfg, v, line[..i + 1]))
  }

  lemma LinkSound(w: World, line: seq<Address>, tail: seq<Address>, v: Value, i: nat)
    requires Line(w, line, tail) && i < |line|
    ensures Sound(w, Link(w, line, v, i)) && Link(w, line, v, i).msg.round == i
    ensures forall j :: 0 <= j < |line| ==> line[j] in w.honest
    ensures var sigs := Link(w, line, v, i).msg.signatures;
            |sigs| == i + 1 && sigs[0].signer == w.cfg.origin && forall j :: 0 <= j <= i ==> sigs[j].signer in w.honest
  {
    assert forall j :: 0 <= j < |line| ==> line[j] in Elements(line);
    ChainedValid(w.cfg, v, line[..i + 1]);
  }

  lemma LinkFacts(w: World, line: seq<Address>, tail: seq<Address>, v: Value, i: nat)
    requires Line(w, line, tail) && i + 1 < |line|
    ensures Sound(w, Link(w, line, v, i)) && Link(w, line, v, i).msg.round == i
    ensures line[i + 1] in w.honest && line[i + 1] != line[i] && line[i + 1] != w.cfg.origin
    ensures Extends(w.cfg, line[i + 1], line[i], Link(w, line, v, i).msg)
    ensures Onward(w, line[i + 1], Link(w, line, v, i)) == Link(w, line, v, i + 1)
  {
    LinkSound(w, line, tail, v, i);
    var names := line[..i + 1];
    assert line[..i + 2][..i + 1] == names;
    assert !SignedBy(line[i + 1], Chained(w.cfg, v, names).signatures);
  }

  /** The line up to party `i` has relayed, the others have only joined, and only code-following parties were heard. */
  ghost predicate RelayedTo(w: World, n: Net, line: seq<Address>, v: Value, i: nat)
    requires i < |line|
  {
    && UnderWay(w, n) && n.proposal == Some(v) && Link(w, line, v, i) in n.sent
    && w.cfg.origin in n.parties && n.parties[w.cfg.origin].received == {} && Key(v) in n.parties[w.cfg.origin].values
    && (forall j :: i < j < |line| ==> line[j] in n.parties && n.parties[line[j]] == FRESH)
    && (forall t :: t in n.taken ==> t.1.sender in w.honest)
  }

  lemma StartLine(w: World, line: seq<Address>, tail: seq<Address>, v: Value) returns (n: Net)
    requires Line(w, line, tail)
    ensures RelayedTo(w, n, line, v, 0)
  {
    assert forall j :: 0 <= j < |line| ==> line[j] in Elements(line);
    n := AllJoin(w, v);
    assert line[..1] == [w.cfg.origin];
    forall j | 0 < j < |line|
      ensures n.parties[line[j]] == FRESH
    {
      assert line[j] != line[0] && line[j] in w.honest;
    }
  }

  lemma NextInLine(w: World, n: Net, line: seq<Address>, tail: seq<Address>, v: Value, i: nat) returns (n': Net)
    requires Line(w, line, tail) && i + 1 < |line| && RelayedTo(w, n, line, v, i)
    ensures RelayedTo(w, n', line, v, i + 1)
  {
    LinkFacts(w, line, tail, v, i);
    var to, x := line[i + 1], Link(w, line, v, i);
    assert line[i] in Elements(line);
    if x.msg.round == 0 {
      OpeningReady(w, n, to, x);
    }
    Untouched(line, i + 1);
    hide Reached, Sound, Extends, Link, NoDup, Elements;
    n' := DeliverFirst(w, n, to, x);
    assert Onward(w, to, x) in HonestOut(w, n');
  }

  lemma Untouched(line: seq<Address>, i: nat)
    requires NoDup(line) && i < |line|
    ensures forall j :: i < j < |line| ==> line[j] != line[i]
  {
  }

  lemma {:induction false} RelayLine(w: World, line: seq<Address>, tail: seq<Address>, v: Value, i: nat) returns (n: Net)
    requires Line(w, line, tail) && i < |line|
    ensures RelayedTo(w, n, line, v, i)
  {
    hide Line, RelayedTo;
    if i == 0 {
      n := StartLine(w, line, tail, v);
    } else {
      n := RelayLine(w, line, tail, v, i - 1);
      n := NextInLine(w, n, line, tail, v, i - 1);
    }
  }

  /** The faulty parties can complete the chain of the whole line. */
  lemma CompletedLine(w: World, n: Net, line: seq<Address>, tail: seq<Address>, v: Value) returns (x: Incoming)
    requires Line(w, line, tail) && Reached(w, n) && Link(w, line, v, |line| - 1) in n.sent
    ensures x.sender in Faulty(w) && ChainValid(w.cfg, x.sender, x.msg) && x.msg.sessionId == w.cfg.sessionId
    ensures x.msg.round + 1 == w.cfg.relayRounds && SignedBy(w.cfg.origin, x.msg.signatures)
    ensures Enabled(w, n, Inject(x))
  {
    var names := line + tail;
    x := Incoming(tail[|tail| - 1], Chained(w.cfg, v, names));
    CompletedNames(w, line, tail);
    ChainedValid(w.cfg, v, names);
    ChainedPrefix(w.cfg, v, line, tail);
    assert x.msg.signatures[0].signer == w.cfg.origin;
    var x0 := Link(w, line, v, |line| - 1);
    assert line[..|line|] == line;
    hide Chained, Link, NoDup, Elements, ChainValid;
    CompletionKnown(w, n, x0, x);
  }

  lemma CompletedNames(w: World, line: seq<Address>, tail: seq<Address>)
    requires Line(w, line, tail)
    ensures NoDup(line + tail) && forall i :: 0 <= i < |line| + |tail| ==> (line + tail)[i] in w.cfg.group
    ensures forall i :: |line| <= i < |line| + |tail| ==> (line + tail)[i] in Faulty(w)
    ensures tail[|tail| - 1] in Faulty(w)
  {
    assert forall i :: 0 <= i < |line| ==> line[i] in Elements(line);
    assert forall i :: 0 <= i < |tail| ==> tail[i] in Elements(tail);
  }

  /** The faulty party sends the completed chain, and only the origin takes it. */
  lemma OriginMisled(w: World, n: Net, line: seq<Address>, tail: seq<Address>, v: Value) returns (n': Net)
    requires Line(w, line, tail) && RelayedTo(w, n, line, v, |line| - 1)
    ensures UnderWay(w, n') && Misled(w, n') && n'.proposal == Some(v)
  {
    var x := CompletedLine(w, n, line, tail, v);
    assert w.cfg.origin in w.honest && w.cfg.relayRounds >= 3 by { assert line[0] in Elements(line); }
    hide Line, Link, ChainValid, SignedBy, Known;
    ReachStep(w, n, Inject(x));
    var n1 := n.(sent := n.sent + {x});
    ReachStep(w, n1, Deliver(w.cfg.origin, x));
    n' := Delivered(w, n1, w.cfg.origin, x);
    OriginFinal(w, n1, x);
  }

  lemma OriginFinal(w: World, n: Net, x: Incoming)
    requires w.cfg.origin in n.parties && ChainValid(w.cfg, x.sender, x.msg) && x.msg.sessionId == w.cfg.sessionId
    requires x.msg.round + 1 == w.cfg.relayRounds && SignedBy(w.cfg.origin, x.msg.signatures)
    requires (x.sender, x.msg.round) !in n.parties[w.cfg.origin].received
    ensures var n', o := Delivered(w, n, w.cfg.origin, x), w.cfg.origin;
            && n'.parties.Keys == n.parties.Keys && n'.parties[o].finalReached
            && n'.sent == n.sent && n'.parties == n.parties[o := n'.parties[o]]
            && n.parties[o].values.Keys <= n'.parties[o].values.Keys && n.parties[o].received <= n'.parties[o].received
            && n'.taken == n.taken + {(o, x)} && n'.joined == n.joined && n'.proposal == n.proposal
  {
  }

  /** The origin is final, and nobody else has taken a message of a faulty party. */
  ghost predicate Misled(w: World, n: Net) {
    && w.cfg.origin in n.parties && n.parties[w.cfg.origin].finalReached
    && Key(if n.proposal.Some? then n.proposal.value else Nil) in n.parties[w.cfg.origin].values
    && forall t :: t in n.taken ==> t.1.sender in w.honest || t.0 == w.cfg.origin
  }

  /** Then all that code-following parties send is signed by code-following parties only. */
  lemma {:induction false} PureSigners(w: World, n: Net, x: Incoming)
    requires Reached(w, n) && Misled(w, n) && w.cfg.origin in w.honest && x in n.sent && x.sender in w.honest
    ensures forall i :: 0 <= i < |x.msg.signatures| ==> x.msg.signatures[i].signer in w.honest
    decreases x.msg.round
  {
    assert IsOpening(w, n, x) || IsRelay(w, n, x) by { ReachedKeeps(w, n); }
    if !IsOpening(w, n, x) {
      var k := Parent(x);
      ProcessedFacts(w, n, k);
      assert (k.0, Incoming(k.1, n.processed[k])) in n.taken by { ReachedKeeps(w, n); }
      PureSigners(w, n, Incoming(k.1, n.processed[k]));
    }
  }

  /** Fewer code-following parties than relay rounds cannot make a full chain among themselves. */
  lemma OthersNotFinal(w: World, n: Net, h: Address)
    requires Reached(w, n) && Misled(w, n) && w.cfg.origin in w.honest && h in w.honest - {w.cfg.origin}
    requires |w.honest| < w.cfg.relayRounds
    ensures !n.parties[h].finalReached
  {
    if n.parties[h].finalReached {
      FinalFacts(w, n, h);
      var q, r :| Completes(w, n, h, q, r);
      var m := n.processed[(h, q, r)];
      ProcessedFacts(w, n, (h, q, r));
      assert (h, Incoming(q, m)) in n.taken by { ReachedKeeps(w, n); }
      PureSigners(w, n, Incoming(q, m));
      CountBound(w.honest, h, m);
    }
  }

  lemma MisledKept(w: World, v: Value)
    ensures Kept(w, (s: Net) => Misled(w, s) && s.proposal == Some(v))
  {
  }

  /**
   At least two code-following parties, fewer than relay rounds, in a group with at least as many
   members as rounds and a code-following origin, have a run with all their broadcasts delivered in
   which the origin decides "valid" and nobody else does.
   */
  lemma LoneDecision(w: World, line: seq<Address>, tail: seq<Address>, v: Value) returns (n: Net)
    requires Line(w, line, tail)
    ensures Reached(w, n) && AllDelivered(w, n) && n.joined.Keys == w.honest - {w.cfg.origin}
    ensures Decides(n.parties[w.cfg.origin]) && forall h :: h in w.honest - {w.cfg.origin} ==> !Decides(n.parties[h])
  {
    assert line[0] in Elements(line);
    ElementsCount(line);
    n := RelayLine(w, line, tail, v, |line| - 1);
    n := OriginMisled(w, n, line, tail, v);
    MisledKept(w, v);
    n := CanFinish(w, n, (s: Net) => Misled(w, s) && s.proposal == Some(v));
    OnlyProposed(w, n, w.cfg.origin, v);
    forall h | h in w.honest - {w.cfg.origin}
      ensures !n.parties[h].finalReached
    {
      OthersNotFinal(w, n, h);
    }
  }

  // ---------- the same with any number of code-following parties ----------

  /** All is settled, the origin is final with its own value, and nobody else is. */
  ghost predicate Lone(w: World, n: Net, v: Value) {
    && Settled(w, n) && w.cfg.origin in w.honest && n.proposal == Some(v)
    && n.parties[w.cfg.origin].values.Keys != {} && n.parties[w.cfg.origin].finalReached
    && forall h :: h in w.honest - {w.cfg.origin} ==> !n.parties[h].finalReached
  }

  /** A broadcast whose slot is filled changes nothing. */
  lemma LoneKept(w: World, v: Value)
    ensures Kept(w, (s: Net) => Lone(w, s, v))
  {
    forall n, q, x | UnderWay(w, n) && Lone(w, n, v) && Pending(w, n, q, x) && q in n.parties
      ensures Lone(w, Delivered(w, n, q, x), v)
    {
      assert (x.sender, x.msg.round) in n.parties[q].received;
      assert Delivered(w, n, q, x).parties == n.parties;
    }
  }

  /** A faulty party can add the last signature to a chain of code-following ones. */
  lemma CompletedTrail(w: World, n: Net, b: Address, v: Value, names: seq<Address>) returns (x: Incoming)
    requires Reached(w, n) && WellFormed(w) && b in Faulty(w) && Fine(w, names) && By(w, v, names) in n.sent
    requires |names| + 1 == w.cfg.relayRounds
    ensures x.sender == b && ChainValid(w.cfg, x.sender, x.msg) && x.msg.sessionId == w.cfg.sessionId
    ensures x.msg.round + 1 == w.cfg.relayRounds && SignedBy(w.cfg.origin, x.msg.signatures)
    ensures Enabled(w, n, Inject(x))
  {
    x := Incoming(b, Chained(w.cfg, v, names + [b]));
    assert forall i :: 0 <= i < |names| ==> names[i] in names;
    AppendNoDup(names, b);
    ChainedValid(w.cfg, v, names + [b]);
    ChainedPrefix(w.cfg, v, names, [b]);
    assert x.msg.signatures[0].signer == w.cfg.origin;
    hide Chained, ChainValid, NoDup, Elements;
    CompletionKnown(w, n, By(w, v, names), x);
  }

  /** At the standstill the completed chain makes the origin final. */
  lemma OriginAlone(w: World, n: Net, b: Address, v: Value, names: seq<Address>) returns (n': Net)
    requires WellFormed(w) && w.cfg.origin in w.honest && w.cfg.relayRounds >= 2 && b in Faulty(w) && Fine(w, names)
    requires Stage(w, n, v, w.cfg.relayRounds - 1) && Settled(w, n)
    requires By(w, v, names) in n.sent && |names| + 1 == w.cfg.relayRounds
    ensures UnderWay(w, n') && Lone(w, n', v)
  {
    var x := CompletedTrail(w, n, b, v, names);
    OriginHasValue(w, n);
    assert (x.sender, x.msg.round) !in n.parties[w.cfg.origin].received && w.cfg.origin in n.parties;
    n' := OriginTakes(w, n, x);
    hide Reached;
    LoneAfter(w, n, n', x, v);
  }

  lemma OriginTakes(w: World, n: Net, x: Incoming) returns (n': Net)
    requires UnderWay(w, n) && w.cfg.origin in w.honest && Enabled(w, n, Inject(x)) && w.cfg.relayRounds >= 2
    requires ChainValid(w.cfg, x.sender, x.msg) && x.msg.sessionId == w.cfg.sessionId
    requires x.msg.round + 1 == w.cfg.relayRounds && SignedBy(w.cfg.origin, x.msg.signatures)
    requires w.cfg.origin in n.parties && (x.sender, x.msg.round) !in n.parties[w.cfg.origin].received
    ensures UnderWay(w, n') && Grown(w, n, n', x)
  {
    var n1 := n.(sent := n.sent + {x});
    ReachStep(w, n, Inject(x));
    hide ChainValid, SignedBy, Known;
    ReachStep(w, n1, Deliver(w.cfg.origin, x));
    n' := Delivered(w, n1, w.cfg.origin, x);
    OriginFinal(w, n1, x);
  }

  /** The origin became final on `x`, and nobody else changed. */
  ghost predicate Grown(w: World, n: Net, n': Net, x: Incoming) {
    var o := w.cfg.origin;
    && o in n.parties && o in n'.parties && n'.parties == n.parties[o := n'.parties[o]] && n'.parties[o].finalReached
    && n.parties[o].values.Keys <= n'.parties[o].values.Keys && n.parties[o].received <= n'.parties[o].received
    && n'.sent == n.sent + {x} && n'.proposal == n.proposal
  }

  lemma LoneAfter(w: World, n: Net, n': Net, x: Incoming, v: Value)
    requires Settled(w, n) && Grown(w, n, n', x) && x.sender !in w.honest && n.proposal == Some(v)
    requires w.cfg.origin in w.honest && n.parties[w.cfg.origin].values.Keys != {}
    requires forall h :: h in w.honest ==> !n.parties[h].finalReached
    ensures Lone(w, n', v)
  {
  }

  lemma OriginHasValue(w: World, n: Net)
    requires Reached(w, n) && w.cfg.origin in w.honest && n.proposal.Some?
    ensures n.parties[w.cfg.origin].values.Keys != {}
  {
    ReachedKeeps(w, n);
  }

  /**
   From four relay rounds on, however many code-following parties there are, one faulty party suffices
   for a run with all their broadcasts delivered in which the origin decides "valid" and nobody else does.
   */
  lemma StandstillDecision(w: World, ring: seq<Address>, b: Address, v: Value) returns (n: Net)
    requires Ringed(w, ring) && b in Faulty(w)
    ensures Reached(w, n) && AllDelivered(w, n) && n.joined.Keys == w.honest - {w.cfg.origin}
    ensures Decides(n.parties[w.cfg.origin]) && forall h :: h in w.honest - {w.cfg.origin} ==> !Decides(n.parties[h])
  {
    var names;
    n, names := Stops(w, ring, v);
    n := OriginAlone(w, n, b, v, names);
    LoneKept(w, v);
    n := CanFinish(w, n, (s: Net) => Lone(w, s, v));
    OnlyProposed(w, n, w.cfg.origin, v);
  }

  // ---------- one party accepts a value that others never see ----------

  /** Faulty origin `a` and faulty `b`, with `c`, `h` and possibly others following the code. */
  ghost predicate Fork(w: World, a: Address, b: Address, c: Address, h: Address) {
    && WellFormed(w) && {c, h} <= w.honest && c != h && a in Faulty(w) && b in Faulty(w) && a != b
    && w.cfg.origin == a && w.cfg.relayRounds >= 3
  }

  /** The chain of `a` and `b` for `v`, and what `c` and `h` make of the two values. */
  datatype Play = Play(r: Incoming, c1: Incoming, h1: Incoming, h2: Incoming)

  ghost function Script(w: World, a: Address, b: Address, c: Address, h: Address, v: Value, v': Value): Play {
    var r := Onward(w, b, Incoming(a, Opening(w.cfg, v)));
    var c1 := Onward(w, c, Incoming(a, Opening(w.cfg, v')));
    Play(r, c1, Onward(w, h, c1), Onward(w, h, r))
  }

  lemma ScriptFacts(w: World, a: Address, b: Address, c: Address, h: Address, v: Value, v': Value)
    requires Fork(w, a, b, c, h)
    ensures var s := Script(w, a, b, c, h, v, v');
            && Sound(w, s.r) && Sound(w, s.c1) && Sound(w, s.h1) && OnlyFaultySigned(w, s.r)
            && s.r.sender == b && s.c1.sender == c && s.h1.sender == s.h2.sender == h
            && s.r.msg.round == s.c1.msg.round == 1 && s.h1.msg.round == s.h2.msg.round == 2
            && s.r.msg.value == v && s.c1.msg.value == s.h1.msg.value == v' && |s.h1.msg.signatures| == 3
            && Extends(w.cfg, h, c, s.c1.msg) && Extends(w.cfg, h, b, s.r.msg)
  {
    OpeningChainValid(w.cfg, v);
    OpeningChainValid(w.cfg, v');
    var s := Script(w, a, b, c, h, v, v');
    ExtendedChainValid(w.cfg, b, a, Opening(w.cfg, v));
    ExtendedChainValid(w.cfg, c, a, Opening(w.cfg, v'));
    ExtendedChainValid(w.cfg, h, c, s.c1.msg);
  }

  /** `c` joins on `v'` and relays it, the others join in vain, and the chain for `v` is on its way. */
  lemma ForkOpens(w: World, a: Address, b: Address, c: Address, h: Address, r: Incoming, v': Value) returns (n: Net)
    requires Fork(w, a, b, c, h) && r.sender == b && OnlyFaultySigned(w, r)
    ensures Reached(w, n) && n.joined.Keys == w.honest && r in n.sent
    ensures HonestOut(w, n) == {} + {Onward(w, c, Incoming(a, Opening(w.cfg, v')))}
    ensures n.parties[c] == Party({(a, 0)}, map[Key(v') := v'], false)
    ensures forall t :: t in w.honest - {c} ==> n.parties[t] == Waiting(w.cfg)
  {
    var opens := map t | t in w.honest - {c} :: v';
    hide Reached, Opening, Onward, HonestOut, OnlyFaultySigned;
    n := Gather(w, opens);
    n := JoinsOpening(w, n, c, v');
    n := InjectFaulty(w, n, r);
  }

  /** `h` relays both values in round 2. */
  lemma ForkRelays(w: World, a: Address, b: Address, c: Address, h: Address, v: Value, v': Value) returns (n: Net)
    requires Fork(w, a, b, c, h) && Key(v) != Key(v')
    ensures var s := Script(w, a, b, c, h, v, v');
            && Reached(w, n) && n.joined.Keys == w.honest
            && HonestOut(w, n) == {} + {s.c1} + {s.h1} + {s.h2}
    ensures n.parties[c] == Party({(a, 0)}, map[Key(v') := v'], false)
    ensures forall t :: t in w.honest - {c, h} ==> n.parties[t] == Waiting(w.cfg)
    ensures n.parties[h].values == map[Key(v') := v', Key(v) := v]
  {
    ScriptFacts(w, a, b, c, h, v, v');
    var s := Script(w, a, b, c, h, v, v');
    n := ForkOpens(w, a, b, c, h, s.r, v');
    assert s.c1 in HonestOut(w, n);
    hide Reached, Sound, Extends, OnlyFaultySigned, HonestOut;
    n := TakesBoth(w, n, h, s.c1, s.r);
  }

  /**
   `h` holds `v` beside `v'`; the others have taken another round-2 message of `h` and hold at most
   `v'`, and everything else that code-following parties send is for `v'`.
   */
  ghost predicate Confined(w: World, n: Net, c: Address, h: Address, v: Value, v': Value) {
    && n.parties.Keys == w.honest && {c, h} <= w.honest && c != h && Key(v) != Key(v')
    && (forall t :: t in w.honest - {h} ==> (h, 2) in n.parties[t].received && n.parties[t].values.Keys <= {Key(v')})
    && Key(v) in n.parties[h].values && Key(v') in n.parties[h].values && Key(v') in n.parties[c].values
    && (w.cfg.relayRounds == 3 ==> n.parties[c].finalReached)
    && forall z :: z in n.sent && z.sender in w.honest ==> z.msg.value == v' || (z.sender == h && z.msg.round == 2)
  }

  lemma ConfinedStep(w: World, n: Net, c: Address, h: Address, v: Value, v': Value, t: Address, x: Incoming)
    requires Confined(w, n, c, h, v, v') && Pending(w, n, t, x)
    ensures Confined(w, Delivered(w, n, t, x), c, h, v, v')
  {
    hide ChainValid, SignedBy;
    if x.msg.value != v' {
      assert !Admits(w.cfg, n.parties[t], x.sender, x.msg);
    }
  }

  lemma ConfinedKept(w: World, c: Address, h: Address, v: Value, v': Value)
    ensures Kept(w, (s: Net) => Confined(w, s, c, h, v, v'))
  {
    forall n, t, x | UnderWay(w, n) && Confined(w, n, c, h, v, v') && Pending(w, n, t, x) && t in n.parties
      ensures Confined(w, Delivered(w, n, t, x), c, h, v, v')
    {
      ConfinedStep(w, n, c, h, v, v', t, x);
    }
  }

  /** The others take the round-2 message for `v'` first. */
  lemma BecomesConfined(w: World, n: Net, a: Address, c: Address, h: Address, s: Play, v: Value, v': Value)
    returns (n': Net)
    requires UnderWay(w, n) && w.cfg.origin == a && a !in w.honest && {c, h} <= w.honest && c != h && Key(v) != Key(v')
    requires HonestOut(w, n) == {} + {s.c1} + {s.h1} + {s.h2} && Sound(w, s.h1) && s.h1.sender == s.h2.sender == h
    requires s.c1.msg.value == s.h1.msg.value == v' && s.h1.msg.round == s.h2.msg.round == 2 && |s.h1.msg.signatures| == 3
    requires n.parties[c] == Party({(a, 0)}, map[Key(v') := v'], false)
    requires forall t :: t in w.honest - {c, h} ==> n.parties[t] == Waiting(w.cfg)
    requires n.parties[h].values == map[Key(v') := v', Key(v) := v]
    ensures UnderWay(w, n') && Confined(w, n', c, h, v, v')
  {
    assert s.h1 in HonestOut(w, n);
    AllFit(w, n, a, c, h, s.h1, v');
    hide Reached, Fits, Sound, HonestOut;
    n' := TakeByEach(w, n, w.honest - {h}, s.h1);
    TakenKeeps(w, n, n', w.honest - {h}, s.h1);
    hide TakenBy;
    Absorbed(w, n, n', a, c, h, s.h1, v, v');
    Outgoing(w, n, n', w.honest - {h}, s, h, v');
  }

  lemma AllFit(w: World, n: Net, a: Address, c: Address, h: Address, x: Incoming, v': Value)
    requires Reached(w, n) && n.joined.Keys == w.honest && w.cfg.origin !in w.honest && x in n.sent && x.sender == h
    requires c in w.honest && x.msg.round == 2 && n.parties[c] == Party({(a, 0)}, map[Key(v') := v'], false)
    requires forall t :: t in w.honest - {c, h} ==> n.parties[t] == Waiting(w.cfg)
    ensures forall t :: t in w.honest - {h} ==> Fits(w, n, t, x)
  {
  }

  lemma TakenKeeps(w: World, n: Net, n': Net, ts: set<Address>, x: Incoming)
    requires TakenBy(w, n, n', ts, x)
    ensures Reached(w, n') && n'.joined == n.joined && n'.parties.Keys == w.honest
  {
  }

  lemma Absorbed(w: World, n: Net, n': Net, a: Address, c: Address, h: Address, x: Incoming, v: Value, v': Value)
    requires TakenBy(w, n, n', w.honest - {h}, x) && {c, h} <= w.honest && c != h
    requires x.sender == h && x.msg.round == 2 && x.msg.value == v' && |x.msg.signatures| == 3
    requires n.parties[c] == Party({(a, 0)}, map[Key(v') := v'], false)
    requires forall t :: t in w.honest - {c, h} ==> n.parties[t] == Waiting(w.cfg)
    requires n.parties[h].values == map[Key(v') := v', Key(v) := v]
    ensures forall t :: t in w.honest - {h} ==> (h, 2) in n'.parties[t].received && n'.parties[t].values.Keys <= {Key(v')}
    ensures Key(v) in n'.parties[h].values && Key(v') in n'.parties[h].values && Key(v') in n'.parties[c].values
    ensures w.cfg.relayRounds == 3 ==> n'.parties[c].finalReached
  {
    hide Reached, HonestOut;
  }

  lemma Outgoing(w: World, n: Net, n': Net, ts: set<Address>, s: Play, h: Address, v': Value)
    requires TakenBy(w, n, n', ts, s.h1) && HonestOut(w, n) == {} + {s.c1} + {s.h1} + {s.h2}
    requires s.c1.msg.value == s.h1.msg.value == v' && s.h2.sender == h && s.h2.msg.round == 2
    ensures forall z :: z in n'.sent && z.sender in w.honest ==> z.msg.value == v' || (z.sender == h && z.msg.round == 2)
  {
    forall z | z in n'.sent && z.sender in w.honest
      ensures z.msg.value == v' || (z.sender == h && z.msg.round == 2)
    {
      assert z in HonestOut(w, n');
    }
  }

  /**
   For every number of relay rounds from three on, two faulty parties and any two others suffice for a
   run, with all broadcasts of code-following parties delivered, in which one code-following party
   accepts a value that another one does not; with three rounds the other one decides and it does not.
   */
  lemma ValuesDiffer(w: World, a: Address, b: Address, c: Address, h: Address, v: Value, v': Value) returns (n: Net)
    requires Fork(w, a, b, c, h) && Key(v) != Key(v')
    ensures Reached(w, n) && AllDelivered(w, n) && n.joined.Keys == w.honest
    ensures Key(v) in n.parties[h].values && Key(v) !in n.parties[c].values
    ensures w.cfg.relayRounds == 3 ==> Decides(n.parties[c]) && !Decides(n.parties[h])
  {
    hide Script;
    n := ForkRelays(w, a, b, c, h, v, v');
    ScriptFacts(w, a, b, c, h, v, v');
    hide Sound, Extends, OnlyFaultySigned, HonestOut, Waiting;
    n := BecomesConfined(w, n, a, c, h, Script(w, a, b, c, h, v, v'), v, v');
    ConfinedKept(w, c, h, v, v');
    hide Confined, Reached, AllDelivered;
    n := CanFinish(w, n, (s: Net) => Confined(w, s, c, h, v, v'));
    ConfinedEnds(w, n, c, h, v, v');
  }

  lemma ConfinedEnds(w: World, n: Net, c: Address, h: Address, v: Value, v': Value)
    requires Confined(w, n, c, h, v, v')
    ensures Key(v) in n.parties[h].values && Key(v) !in n.parties[c].values
    ensures w.cfg.relayRounds == 3 ==> Decides(n.parties[c]) && !Decides(n.parties[h])
  {
    assert n.parties[c].values.Keys == {Key(v')};
    assert |n.parties[c].values| == |n.parties[c].values.Keys| && |n.parties[h].values| == |n.parties[h].values.Keys|;
    SubsetCount({Key(v), Key(v')}, n.parties[h].values.Keys);
  }

  // ---------- the exact conditions ----------

  /** In all groups of these numbers, code-following parties accept the same values. */
  ghost predicate AlwaysSame(faults: nat, followers: nat, relayRounds: int) {
    forall w, n, p, q ::
      Sized(w, faults, followers, relayRounds) && Ended(w, n, p, q) ==>
        n.parties[p].values.Keys == n.parties[q].values.Keys
  }

  /** In all groups of these numbers, code-following parties decide alike. */
  ghost predicate AlwaysAlike(faults: nat, followers: nat, relayRounds: int) {
    forall w, n, p, q ::
      Sized(w, faults, followers, relayRounds) && Ended(w, n, p, q) ==>
        && (Decides(n.parties[p]) <==> Decides(n.parties[q]))
        && (Decides(n.parties[p]) ==> n.parties[p].values.Keys == n.parties[q].values.Keys)
  }

  lemma TwoOf(others: seq<Address>)
    requires NoDup(others) && |others| >= 2
    ensures {others[0], others[1]} <= Elements(others) && others[0] != others[1]
  {
  }

  lemma OverrunDiffers(faults: nat, followers: nat, relayRounds: int)
    requires faults >= relayRounds >= 1 && followers >= 2
    ensures !AlwaysSame(faults, followers, relayRounds) && !AlwaysAlike(faults, followers, relayRounds)
  {
    var w, faulty, others := SomeGroup(faults, followers, relayRounds, true);
    var p, q := others[0], others[1];
    TwoOf(others);
    var n := OverrunDecisions(w, faulty, p, q, Nil, Val("x"));
    hide Reached, AllDelivered, Decides;
    assert Ended(w, n, p, q) && "" in n.parties[p].values.Keys && "" !in n.parties[q].values.Keys;
    assert Sized(w, faults, followers, relayRounds);
  }

  lemma TwoFaultsDiffer(faults: nat, followers: nat, relayRounds: int)
    requires faults >= 2 && followers >= 2 && relayRounds >= 3
    ensures !AlwaysSame(faults, followers, relayRounds)
    ensures relayRounds == 3 ==> !AlwaysAlike(faults, followers, relayRounds)
  {
    var w, faulty, others := SomeGroup(faults, followers, relayRounds, true);
    var c, h := others[0], others[1];
    TwoOf(others);
    TwoOf(faulty);
    var n := ValuesDiffer(w, faulty[0], faulty[1], c, h, Nil, Val("x"));
    hide Reached, AllDelivered, Decides;
    assert Ended(w, n, h, c) && "" in n.parties[h].values.Keys && "" !in n.parties[c].values.Keys;
    assert Sized(w, faults, followers, relayRounds);
  }

  /**
   The exact condition: code-following parties accept the same values, in every group of the given
   numbers and every run with everything delivered, if and only if there is one of them only, or at most
   one fault and fewer than relay rounds.
   */
  lemma SameValuesExact(faults: nat, followers: nat, relayRounds: int)
    requires relayRounds >= 1
    ensures AlwaysSame(faults, followers, relayRounds) <==> followers <= 1 || (faults <= 1 && faults < relayRounds)
  {
    if followers <= 1 || (faults <= 1 && faults < relayRounds) {
      forall w, n, p, q | Sized(w, faults, followers, relayRounds) && Ended(w, n, p, q)
        ensures n.parties[p].values.Keys == n.parties[q].values.Keys
      {
        if p != q {
          if followers <= 1 {
            OnlyTwo(w.honest, p, q);
          }
          SameValues(w, n, p, q);
        }
      }
    } else if faults >= relayRounds {
      OverrunDiffers(faults, followers, relayRounds);
    } else {
      TwoFaultsDiffer(faults, followers, relayRounds);
    }
  }

  /** Fewer code-following parties than relay rounds: the line, completed by the faulty ones. */
  lemma LineDiffers(faults: nat, followers: nat, relayRounds: int)
    requires faults >= 1 && 2 <= followers < relayRounds <= faults + followers
    ensures !AlwaysAlike(faults, followers, relayRounds)
  {
    var w, faulty, others := SomeGroup(faults, followers, relayRounds, false);
    var tail := faulty[..relayRounds - followers];
    TwoOf(others);
    assert forall a :: a in tail ==> a in faulty;
    assert Line(w, others, tail);
    var n := LoneDecision(w, others, tail, Nil);
    hide Reached, AllDelivered, Decides;
    assert Ended(w, n, others[0], others[1]) && Sized(w, faults, followers, relayRounds);
  }

  /** At least as many code-following parties as relay rounds, four or more: the standstill. */
  lemma StandstillDiffers(faults: nat, followers: nat, relayRounds: int)
    requires faults >= 1 && followers >= relayRounds >= 4
    ensures !AlwaysAlike(faults, followers, relayRounds)
  {
    var w, faulty, others := SomeGroup(faults, followers, relayRounds, false);
    TwoOf(others);
    assert faulty[0] in Elements(faulty);
    RestOf(others);
    var n := StandstillDecision(w, others[1..], faulty[0], Nil);
    hide Reached, AllDelivered, Decides;
    assert Ended(w, n, others[0], others[1]) && Sized(w, faults, followers, relayRounds);
  }

  lemma RestOf(others: seq<Address>)
    requires NoDup(others) && others != []
    ensures NoDup(others[1..]) && Elements(others[1..]) == Elements(others) - {others[0]}
  {
    assert others == [others[0]] + others[1..];
  }

  /**
   The exact condition: code-following parties decide alike, in every group of the given numbers and
   every run with everything delivered, if and only if there is one of them only, there is no fault, the
   group has fewer members than relay rounds, or there is one fault with two relay rounds, or with three
   and at least three code-following parties.
   */
  lemma AlikeExact(faults: nat, followers: nat, relayRounds: int)
    requires relayRounds >= 1
    ensures AlwaysAlike(faults, followers, relayRounds) <==> Alike(faults, followers, relayRounds)
  {
    if Alike(faults, followers, relayRounds) {
      forall w, n, p, q | Sized(w, faults, followers, relayRounds) && Ended(w, n, p, q)
        ensures Decides(n.parties[p]) <==> Decides(n.parties[q])
        ensures Decides(n.parties[p]) ==> n.parties[p].values.Keys == n.parties[q].values.Keys
      {
        SameDecision(w, n, p, q);
      }
    } else if faults >= relayRounds {
      OverrunDiffers(faults, followers, relayRounds);
    } else if followers < relayRounds {
      LineDiffers(faults, followers, relayRounds);
    } else if relayRounds == 3 {
      TwoFaultsDiffer(faults, followers, relayRounds);
    } else {
      StandstillDiffers(faults, followers, relayRounds);
    }
  }
}
