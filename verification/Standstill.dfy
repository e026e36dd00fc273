/**
 A run that stops one signature short: the code-following parties pass chains round until one of
 all but one of the signatures needed is sent, and yet everybody takes it, or another one of the
 same sender and round, after having signed it. A faulty party can complete it for one of them.
 */
module Standstill {
  import opened Wrappers
  import opened Collections
  import opened Messages
  import opened Broadcaster
  import opened Network
  import opened Agreement
  import opened Decisions
  import opened Runs
  import opened Completion
  import Amounts

  // ---------- arcs of a ring ----------

  lemma Residue(a: int, m: int, q: int, r: int)
    requires a == q * m + r && 0 <= r < m
    ensures a % m == r
  {
    Amounts.QuotientIs(a, m, q, r);
  }

  lemma PreviousResidue(a: int, m: int)
    requires m > 0
    ensures (a - 1) % m == if a % m == 0 then m - 1 else a % m - 1
  {
    var q, r := a / m, a % m;
    if r == 0 {
      assert a - 1 == (q - 1) * m + (m - 1);
      Residue(a - 1, m, q - 1, m - 1);
    } else {
      Residue(a - 1, m, q, r - 1);
    }
  }

  lemma SameResidue(a: int, b: int, m: int)
    requires m > 0
    ensures a % m == b % m <==> (a - b) % m == 0
  {
    var q, r, q', r' := a / m, a % m, b / m, b % m;
    assert a - b == (q - q') * m + (r - r');
    if r >= r' {
      Residue(a - b, m, q - q', r - r');
    } else {
      assert a - b == (q - q' - 1) * m + (r - r' + m);
      Residue(a - b, m, q - q' - 1, r - r' + m);
    }
  }

  /** The party at position `i`, counted round the ring. */
  function At(ring: seq<Address>, i: int): (a: Address)
    requires ring != []
    ensures a in ring
  {
    ring[i % |ring|]
  }

  /** The `r` parties up to position `i`. */
  function Arc(ring: seq<Address>, i: int, r: nat): (arc: seq<Address>)
    requires ring != []
    ensures |arc| == r && forall a :: a in arc ==> a in ring
    decreases r
  {
    if r == 0 then [] else Arc(ring, i - 1, r - 1) + [At(ring, i)]
  }

  lemma SamePlace(ring: seq<Address>, i: int, j: int)
    requires ring != [] && NoDup(ring)
    ensures At(ring, i) == At(ring, j) <==> (i - j) % |ring| == 0
  {
    SameResidue(i, j, |ring|);
    var a, b := i % |ring|, j % |ring|;
    if a < b {
      assert ring[a] != ring[b];
    } else if b < a {
      assert ring[b] != ring[a];
    }
  }

  /** A party is on an arc exactly if it is less than the arc's length behind its end. */
  lemma {:induction false} OnArc(ring: seq<Address>, i: int, r: nat, j: int)
    requires ring != [] && NoDup(ring) && r <= |ring|
    ensures At(ring, j) in Arc(ring, i, r) <==> (i - j) % |ring| < r
    decreases r
  {
    if r > 0 {
      OnArc(ring, i - 1, r - 1, j);
      SamePlace(ring, i, j);
      PreviousResidue(i - j, |ring|);
      assert i - 1 - j == i - j - 1;
    }
  }

  lemma {:induction false} ArcDistinct(ring: seq<Address>, i: int, r: nat)
    requires ring != [] && NoDup(ring) && r <= |ring|
    ensures NoDup(Arc(ring, i, r))
    decreases r
  {
    if r > 0 {
      ArcDistinct(ring, i - 1, r - 1);
      OnArc(ring, i - 1, r - 1, i);
      PreviousResidue(0, |ring|);
      assert i - 1 - i == 0 - 1;
      AppendNoDup(Arc(ring, i - 1, r - 1), At(ring, i));
    }
  }

  // ---------- chains of code-following parties ----------

  /** Different code-following parties, the first of them the origin. */
  ghost predicate Fine(w: World, names: seq<Address>) {
    names != [] && names[0] == w.cfg.origin && NoDup(names) && forall a :: a in names ==> a in w.honest
  }

  /** The message signed in turn by `names`. */
  ghost function By(w: World, v: Value, names: seq<Address>): Incoming
    requires names != []
  {
    Incoming(names[|names| - 1], Chained(w.cfg, v, names))
  }

  lemma BySigned(w: World, v: Value, names: seq<Address>, p: Address)
    requires names != []
    ensures SignedBy(p, By(w, v, names).msg.signatures) <==> p in names
    ensures |By(w, v, names).msg.signatures| == |names| && By(w, v, names).msg.round + 1 == |names|
  {
    var sigs := Chained(w.cfg, v, names).signatures;
    if p in names {
      var i :| 0 <= i < |names| && names[i] == p;
      assert sigs[i].signer == p;
    }
  }

  lemma BySound(w: World, v: Value, names: seq<Address>, p: Address)
    requires WellFormed(w) && Fine(w, names) && |names| < w.cfg.relayRounds
    ensures Sound(w, By(w, v, names)) && By(w, v, names).sender in w.honest
    ensures Extends(w.cfg, p, By(w, v, names).sender, By(w, v, names).msg) <==> p !in names
    ensures Onward(w, p, By(w, v, names)) == By(w, v, names + [p])
    ensures ChainCount(p, By(w, v, names).msg) == |names| + if p in names then 0 else 1
  {
    assert forall i :: 0 <= i < |names| ==> names[i] in names;
    ChainedValid(w.cfg, v, names);
    BySigned(w, v, names, p);
    assert (names + [p])[..|names|] == names;
  }

  // ---------- serving a whole round ----------

  type Pair = (Address, Address)

  /** For every pair (receiver, sender) in `todo` the receiver can take the message picked for it. */
  ghost predicate Servable(w: World, n: Net, todo: set<Pair>, pick: Pair -> Incoming, r: nat) {
    && Reached(w, n)
    && forall k :: k in todo ==>
         && pick(k).sender == k.1 && k.1 in w.honest && pick(k).msg.round == r && Fits(w, n, k.0, pick(k)) && Sound(w, pick(k))
         && ChainCount(k.0, pick(k).msg) < w.cfg.relayRounds
  }

  /** The receivers in `todo` have marked their slots of round `r`, and nobody became final. */
  ghost predicate Marked(w: World, n: Net, n': Net, todo: set<Pair>, r: nat) {
    && n.parties.Keys == n'.parties.Keys == w.honest
    && (forall p :: p in w.honest ==> n'.parties[p].finalReached == n.parties[p].finalReached)
    && (forall p, c, i :: p in w.honest ==>
          ((c, i) in n'.parties[p].received <==> (c, i) in n.parties[p].received || ((p, c) in todo && i == r)))
  }

  /** The receivers in `todo` have sent their answers, and nothing else was sent. */
  ghost predicate Answered(w: World, n: Net, n': Net, todo: set<Pair>, pick: Pair -> Incoming) {
    && n.sent <= n'.sent
    && (forall k :: k in todo && Extends(w.cfg, k.0, k.1, pick(k).msg) ==> Onward(w, k.0, pick(k)) in n'.sent)
    && (forall z :: z in n'.sent ==> z in n.sent || Answers(w, todo, pick, z))
  }

  /** From `n` to `n'` every receiver in `todo` has taken what was picked for it. */
  ghost predicate Served(w: World, n: Net, n': Net, todo: set<Pair>, pick: Pair -> Incoming, r: nat) {
    && Reached(w, n') && n'.joined == n.joined && n'.proposal == n.proposal
    && Marked(w, n, n', todo, r) && Answered(w, n, n', todo, pick)
    && forall t :: t in n'.taken ==> t in n.taken || t.1.sender in w.honest
  }

  ghost predicate Answers(w: World, todo: set<Pair>, pick: Pair -> Incoming, z: Incoming) {
    exists k :: k in todo && Extends(w.cfg, k.0, k.1, pick(k).msg) && z == Onward(w, k.0, pick(k))
  }

  lemma MarkOne(w: World, n: Net, n1: Net, n': Net, todo: set<Pair>, r: nat, k: Pair, x: Incoming)
    requires Marked(w, n, n1, todo, r) && k.0 in w.honest && x.sender == k.1 && x.msg.round == r
    requires n'.parties == n1.parties[k.0 := Accepting(w, n1.parties[k.0], k.0, x)]
    requires ChainCount(k.0, x.msg) < w.cfg.relayRounds
    ensures Marked(w, n, n', todo + {k}, r)
  {
    hide ChainCount, AddValue;
  }

  lemma AnswerOne(w: World, n: Net, n1: Net, n': Net, todo: set<Pair>, pick: Pair -> Incoming, k: Pair)
    requires Answered(w, n, n1, todo, pick)
    requires n'.sent == if Extends(w.cfg, k.0, k.1, pick(k).msg) then n1.sent + {Onward(w, k.0, pick(k))} else n1.sent
    ensures Answered(w, n, n', todo + {k}, pick)
  {
    hide Extends, Onward;
    forall z | z in n'.sent && z !in n.sent
      ensures Answers(w, todo + {k}, pick, z)
    {
      if z in n1.sent {
        var j :| j in todo && Extends(w.cfg, j.0, j.1, pick(j).msg) && z == Onward(w, j.0, pick(j));
        assert j in todo + {k};
      } else {
        assert k in todo + {k};
      }
    }
  }

  lemma ServeOne(w: World, n: Net, n1: Net, todo: set<Pair>, pick: Pair -> Incoming, r: nat, k: Pair) returns (n': Net)
    requires Served(w, n, n1, todo, pick, r) && k !in todo && Servable(w, n, todo + {k}, pick, r)
    ensures Served(w, n, n', todo + {k}, pick, r)
  {
    var x := pick(k);
    assert k in todo + {k};
    assert Fits(w, n, k.0, x) && n.sent <= n1.sent;
    assert Ready(w, n1, k.0, x) && (k.1, r) !in n1.parties[k.0].received;
    hide Reached, Sound, Marked, Answered, Extends, ChainCount, Servable;
    n' := DeliverFirst(w, n1, k.0, x);
    MarkOne(w, n, n1, n', todo, r, k, x);
    AnswerOne(w, n, n1, n', todo, pick, k);
  }

  lemma {:induction false} Serve(w: World, n: Net, todo: set<Pair>, pick: Pair -> Incoming, r: nat) returns (n': Net)
    requires Servable(w, n, todo, pick, r)
    ensures Served(w, n, n', todo, pick, r)
    decreases todo
  {
    n' := n;
    if todo != {} {
      var k :| k in todo;
      assert Servable(w, n, todo - {k}, pick, r) && todo - {k} + {k} == todo;
      hide Served, Servable;
      n' := Serve(w, n, todo - {k}, pick, r);
      n' := ServeOne(w, n, n', todo - {k}, pick, r, k);
    }
  }

  // ---------- stages ----------

  /** The code-following parties beside the origin in a ring, enough of them for a chain one signature short. */
  ghost predicate Ringed(w: World, ring: seq<Address>) {
    && WellFormed(w) && w.cfg.origin in w.honest && NoDup(ring) && Elements(ring) == w.honest - {w.cfg.origin}
    && w.cfg.relayRounds >= 4 && |ring| + 1 >= w.cfg.relayRounds
  }

  ghost function Trail(w: World, ring: seq<Address>, i: int, r: nat): (names: seq<Address>)
    requires ring != []
    ensures |names| == r + 1
  {
    [w.cfg.origin] + Arc(ring, i, r)
  }

  lemma InRing(w: World, ring: seq<Address>, a: Address)
    requires Ringed(w, ring)
    ensures a in ring <==> a in w.honest && a != w.cfg.origin
  {
    assert a in ring <==> a in Elements(ring);
  }

  lemma TrailFine(w: World, ring: seq<Address>, i: int, r: nat, p: Address)
    requires Ringed(w, ring) && r <= |ring|
    ensures Fine(w, Trail(w, ring, i, r)) && (p in Trail(w, ring, i, r) <==> p == w.cfg.origin || p in Arc(ring, i, r))
    ensures p in w.honest && p !in Trail(w, ring, i, r) ==> Fine(w, Trail(w, ring, i, r) + [p])
  {
    var o, arc, names := w.cfg.origin, Arc(ring, i, r), Trail(w, ring, i, r);
    ArcDistinct(ring, i, r);
    forall a | a in arc
      ensures a in w.honest && a != o
    {
      InRing(w, ring, a);
    }
    Prepended(o, arc);
    if p !in names {
      AppendNoDup(names, p);
    }
  }

  lemma Prepended(a: Address, s: seq<Address>)
    requires NoDup(s) && a !in s
    ensures NoDup([a] + s)
  {
  }

  /** Everybody with everybody else but the origin as sender. */
  ghost function Everyone(w: World): set<Pair> {
    set p, c | p in w.honest && c in w.honest - {w.cfg.origin} && p != c :: (p, c)
  }

  /** All slots before round `r` are filled and none from there on, nobody is final and only code-following parties spoke. */
  ghost predicate Stage(w: World, n: Net, v: Value, r: nat) {
    && UnderWay(w, n) && n.proposal == Some(v)
    && (forall p :: p in w.honest ==> !n.parties[p].finalReached)
    && (forall p, c, i :: p in w.honest && (c, i) in n.parties[p].received ==> i < r)
    && (forall p, c, i :: (p, c) in Everyone(w) && 1 <= i < r ==> (c, i) in n.parties[p].received)
    && (forall p :: p in w.honest - {w.cfg.origin} ==> (w.cfg.origin, 0) in n.parties[p].received)
    && (forall x :: x in n.sent ==> x.sender in w.honest && x.msg.round <= r)
    && (forall t :: t in n.taken ==> t.1.sender in w.honest)
  }

  /** What can be picked for a receiver in round `r`. */
  ghost predicate Pickable(w: World, n: Net, v: Value, r: nat, k: Pair, x: Incoming) {
    && x in n.sent && x.sender == k.1 && x.msg.round == r && Sound(w, x) && ChainCount(k.0, x.msg) < w.cfg.relayRounds
  }

  lemma StageServable(w: World, n: Net, v: Value, r: nat, pick: Pair -> Incoming)
    requires Stage(w, n, v, r) && r >= 1 && forall k :: k in Everyone(w) ==> Pickable(w, n, v, r, k, pick(k))
    ensures Servable(w, n, Everyone(w), pick, r)
  {
  }

  /** Serving round `r` to everybody leads to the next stage. */
  lemma NextStage(w: World, n: Net, v: Value, r: nat, pick: Pair -> Incoming) returns (n': Net)
    requires Stage(w, n, v, r) && r >= 1 && forall k :: k in Everyone(w) ==> Pickable(w, n, v, r, k, pick(k))
    ensures Stage(w, n', v, r + 1) && Answered(w, n, n', Everyone(w), pick)
  {
    StageServable(w, n, v, r, pick);
    n' := Serve(w, n, Everyone(w), pick, r);
    StageServed(w, n, n', v, r, pick);
  }

  lemma StageServed(w: World, n: Net, n': Net, v: Value, r: nat, pick: Pair -> Incoming)
    requires Stage(w, n, v, r) && r >= 1 && Served(w, n, n', Everyone(w), pick, r)
    requires forall k :: k in Everyone(w) ==> Pickable(w, n, v, r, k, pick(k))
    ensures Stage(w, n', v, r + 1)
  {
    hide Reached, Sound, Extends, ChainCount;
    forall x | x in n'.sent
      ensures x.sender in w.honest && x.msg.round <= r + 1
    {
      if x !in n.sent {
        var k :| k in Everyone(w) && Extends(w.cfg, k.0, k.1, pick(k).msg) && x == Onward(w, k.0, pick(k));
      }
    }
  }

  // ---------- what is picked ----------

  /** The position of a party of the ring. */
  ghost function Pos(ring: seq<Address>, a: Address): (i: nat)
    requires a in ring
    ensures i < |ring| && ring[i] == a && At(ring, i) == a
  {
    var i :| 0 <= i < |ring| && ring[i] == a;
    i
  }

  lemma {:induction false} SameArc(ring: seq<Address>, i: int, j: int, r: nat)
    requires ring != [] && NoDup(ring) && At(ring, i) == At(ring, j)
    ensures Arc(ring, i, r) == Arc(ring, j, r)
    decreases r
  {
    if r > 0 {
      SamePlace(ring, i, j);
      assert i - 1 - (j - 1) == i - j;
      SamePlace(ring, i - 1, j - 1);
      SameArc(ring, i - 1, j - 1, r - 1);
    }
  }

  /** The arc of length `r - 1` up to position `i` was sent by the party at `j`, unless that party is on it. */
  ghost predicate Told(w: World, n: Net, ring: seq<Address>, v: Value, r: nat, i: int, j: int)
    requires ring != [] && r >= 1
  {
    At(ring, j) !in Arc(ring, i, r - 1) ==> By(w, v, Trail(w, ring, i, r - 1) + [At(ring, j)]) in n.sent
  }

  ghost predicate Avail(w: World, n: Net, ring: seq<Address>, v: Value, r: nat)
    requires ring != [] && r >= 1
  {
    forall i, j :: Told(w, n, ring, v, r, i, j)
  }

  /** In particular every arc ending at a party. */
  lemma ArcSent(w: World, n: Net, ring: seq<Address>, v: Value, r: nat, i: int)
    requires Ringed(w, ring) && 1 <= r <= |ring| && Avail(w, n, ring, v, r)
    ensures By(w, v, Trail(w, ring, i, r)) in n.sent
  {
    OnArc(ring, i - 1, r - 1, i);
    PreviousResidue(0, |ring|);
    assert i - 1 - i == 0 - 1;
    assert At(ring, i) !in Arc(ring, i - 1, r - 1) && Told(w, n, ring, v, r, i - 1, i);
    assert Trail(w, ring, i - 1, r - 1) + [At(ring, i)] == Trail(w, ring, i, r);
  }

  /** Fine names of round `r` make a message that anybody can take without becoming final. */
  lemma NamesPickable(w: World, n: Net, v: Value, k: Pair, names: seq<Address>)
    requires WellFormed(w) && Fine(w, names) && By(w, v, names) in n.sent && names[|names| - 1] == k.1
    requires |names| + 1 < w.cfg.relayRounds || (|names| < w.cfg.relayRounds && k.0 in names)
    ensures Pickable(w, n, v, |names| - 1, k, By(w, v, names))
  {
    BySound(w, v, names, k.0);
    BySigned(w, v, names, k.0);
  }

  /** The arc of the sender. */
  ghost function OwnArc(w: World, ring: seq<Address>, v: Value, r: nat, k: Pair): Incoming {
    if k.1 in ring then By(w, v, Trail(w, ring, Pos(ring, k.1), r)) else By(w, v, [w.cfg.origin])
  }

  lemma OwnArcPickable(w: World, n: Net, ring: seq<Address>, v: Value, r: nat, k: Pair)
    requires Ringed(w, ring) && 1 <= r && r + 2 < w.cfg.relayRounds && Avail(w, n, ring, v, r) && k in Everyone(w)
    ensures Pickable(w, n, v, r, k, OwnArc(w, ring, v, r, k))
  {
    InRing(w, ring, k.1);
    var i := Pos(ring, k.1);
    ArcSent(w, n, ring, v, r, i);
    TrailFine(w, ring, i, r, k.0);
    hide Ringed, Avail;
    NamesPickable(w, n, v, k, Trail(w, ring, i, r));
  }

  /** A party that took a message it had not signed has signed and sent it. */
  lemma AnswerSent(w: World, n: Net, n': Net, v: Value, names: seq<Address>, k: Pair, pick: Pair -> Incoming)
    requires WellFormed(w) && Answered(w, n, n', Everyone(w), pick) && k in Everyone(w)
    requires Fine(w, names) && |names| < w.cfg.relayRounds && k.0 !in names && names[|names| - 1] == k.1
    requires pick(k) == By(w, v, names)
    ensures By(w, v, names + [k.0]) in n'.sent
  {
    BySound(w, v, names, k.0);
  }

  /** A party off an arc that took it from its end has signed and sent it. */
  lemma ArcExtended(w: World, n: Net, n': Net, ring: seq<Address>, v: Value, r: nat, i: int, p: Address, pick: Pair -> Incoming)
    requires Ringed(w, ring) && 1 <= r && r + 2 < w.cfg.relayRounds && Answered(w, n, n', Everyone(w), pick)
    requires p in ring && p !in Arc(ring, i, r) && pick((p, At(ring, i))) == OwnArc(w, ring, v, r, (p, At(ring, i)))
    ensures By(w, v, Trail(w, ring, i, r) + [p]) in n'.sent
  {
    var c, names := At(ring, i), Trail(w, ring, i, r);
    assert c in Arc(ring, i, r);
    SameArc(ring, Pos(ring, c), i, r);
    assert pick((p, c)) == By(w, v, names);
    InRing(w, ring, p);
    InRing(w, ring, c);
    TrailFine(w, ring, i, r, p);
    assert (p, c) in Everyone(w) && names[|names| - 1] == c && p !in names;
    hide *;
    AnswerSent(w, n, n', v, names, (p, c), pick);
  }

  /** After everybody took everybody's arc, all longer ones are available. */
  lemma NextAvail(w: World, n: Net, n': Net, ring: seq<Address>, v: Value, r: nat)
    requires Ringed(w, ring) && 1 <= r && r + 2 < w.cfg.relayRounds
    requires Answered(w, n, n', Everyone(w), (k: Pair) => OwnArc(w, ring, v, r, k))
    ensures Avail(w, n', ring, v, r + 1)
  {
    var next := r + 1;
    forall i, j
      ensures Told(w, n', ring, v, next, i, j)
    {
      if At(ring, j) !in Arc(ring, i, r) {
        ArcExtended(w, n, n', ring, v, r, i, At(ring, j), (k: Pair) => OwnArc(w, ring, v, r, k));
      }
    }
  }

  lemma ArcStage(w: World, n: Net, ring: seq<Address>, v: Value, r: nat) returns (n': Net)
    requires Ringed(w, ring) && 1 <= r && r + 2 < w.cfg.relayRounds && Stage(w, n, v, r) && Avail(w, n, ring, v, r)
    ensures Stage(w, n', v, r + 1) && Avail(w, n', ring, v, r + 1)
  {
    var pick := (k: Pair) => OwnArc(w, ring, v, r, k);
    forall k | k in Everyone(w)
      ensures Pickable(w, n, v, r, k, pick(k))
    {
      OwnArcPickable(w, n, ring, v, r, k);
    }
    hide Pickable, Stage, Avail, OwnArc;
    n' := NextStage(w, n, v, r, pick);
    NextAvail(w, n, n', ring, v, r);
  }

  lemma OpeningServed(w: World, n: Net, n': Net, ring: seq<Address>, v: Value, todo: set<Pair>)
    requires Ringed(w, ring) && todo == set p | p in w.honest - {w.cfg.origin} :: (p, w.cfg.origin)
    requires n.joined.Keys == w.honest - {w.cfg.origin} && n == Proposed(w, Init(w), v).(joined := n.joined)
    requires Served(w, n, n', todo, (k: Pair) => By(w, v, [w.cfg.origin]), 0)
    ensures Stage(w, n', v, 1) && Avail(w, n', ring, v, 1)
  {
    var o, x := w.cfg.origin, By(w, v, [w.cfg.origin]);
    forall i, j
      ensures Told(w, n', ring, v, 1, i, j)
    {
      var p := At(ring, j);
      InRing(w, ring, p);
      BySound(w, v, [o], p);
      assert (p, o) in todo && Trail(w, ring, i, 0) == [o];
    }
    forall z | z in n'.sent
      ensures z.sender in w.honest && z.msg.round <= 1
    {
      if z !in n.sent {
        var k :| k in todo && Extends(w.cfg, k.0, k.1, x.msg) && z == Onward(w, k.0, x);
      }
    }
  }

  /** The opening message is taken by everybody. */
  lemma FirstStage(w: World, ring: seq<Address>, v: Value) returns (n: Net)
    requires Ringed(w, ring)
    ensures Stage(w, n, v, 1) && Avail(w, n, ring, v, 1)
  {
    var o, x := w.cfg.origin, By(w, v, [w.cfg.origin]);
    var todo: set<Pair> := set p | p in w.honest - {o} :: (p, o);
    n := AllJoin(w, v);
    BySound(w, v, [o], o);
    forall p | p in w.honest - {o}
      ensures Fits(w, n, p, x) && ChainCount(p, x.msg) < w.cfg.relayRounds
    {
      OpeningReady(w, n, p, x);
      BySound(w, v, [o], p);
    }
    assert Servable(w, n, todo, (k: Pair) => x, 0);
    var n0 := n;
    n := Serve(w, n, todo, (k: Pair) => x, 0);
    OpeningServed(w, n0, n, ring, v, todo);
  }

  lemma {:induction false} ArcStages(w: World, ring: seq<Address>, v: Value, r: nat) returns (n: Net)
    requires Ringed(w, ring) && 1 <= r && r + 2 < w.cfg.relayRounds
    ensures Stage(w, n, v, r) && Avail(w, n, ring, v, r)
  {
    hide Ringed, Stage, Avail;
    if r == 1 {
      n := FirstStage(w, ring, v);
    } else {
      n := ArcStages(w, ring, v, r - 1);
      n := ArcStage(w, n, ring, v, r - 1);
    }
  }

  // ---------- everybody's last messages, signed by everybody else ----------

  /** Party `k.1` has sent a chain one signature short that `k.0` has signed. */
  ghost predicate Covers(w: World, n: Net, v: Value, k: Pair, names: seq<Address>) {
    && Fine(w, names) && |names| + 1 == w.cfg.relayRounds && names[|names| - 1] == k.1 && k.0 in names
    && By(w, v, names) in n.sent
  }

  ghost predicate Covered(w: World, n: Net, v: Value) {
    forall k :: k in Everyone(w) ==> exists names :: Covers(w, n, v, k, names)
  }

  /** The parties ahead of `e` on the ring, the one next to it last. */
  ghost function Ahead(w: World, ring: seq<Address>, r: nat, e: Address): (names: seq<Address>)
    requires e in ring && r >= 1
    ensures |names| == r + 1 && names[r] == Next(ring, e)
  {
    Trail(w, ring, Pos(ring, e) + r, r - 1) + [Next(ring, e)]
  }

  ghost function Next(ring: seq<Address>, e: Address): Address
    requires e in ring
  {
    At(ring, Pos(ring, e) + 1)
  }

  /** The party next to a receiver in the ring sends it the arc after both, and the others their own. */
  ghost function LastPick(w: World, ring: seq<Address>, v: Value, r: nat, k: Pair): Incoming
    requires ring != [] && r >= 1
  {
    if k.0 in ring && k.1 == Next(ring, k.0) then By(w, v, Ahead(w, ring, r, k.0)) else OwnArc(w, ring, v, r, k)
  }

  /** The arc of length `r - 1` that ends `r` after a position reaches neither it nor the next. */
  lemma AfterBoth(ring: seq<Address>, j: int, r: nat)
    requires ring != [] && NoDup(ring) && 1 <= r < |ring|
    ensures At(ring, j + 1) !in Arc(ring, j + r, r - 1) && At(ring, j) !in Arc(ring, j + r, r - 1)
    ensures At(ring, j + 1) != At(ring, j)
  {
    OnArc(ring, j + r, r - 1, j + 1);
    OnArc(ring, j + r, r - 1, j);
    SamePlace(ring, j + 1, j);
    assert j + r - (j + 1) == r - 1 && j + r - j == r && j + 1 - j == 1;
    Residue(r - 1, |ring|, 0, r - 1);
    Residue(r, |ring|, 0, r);
    Residue(1, |ring|, 0, 1);
  }

  /** The names picked for a receiver by the party next to it. */
  lemma NextNames(w: World, n: Net, ring: seq<Address>, v: Value, r: nat, e: Address)
    requires Ringed(w, ring) && 1 <= r && r + 3 == w.cfg.relayRounds && Avail(w, n, ring, v, r) && e in ring
    ensures Fine(w, Ahead(w, ring, r, e)) && e !in Ahead(w, ring, r, e) && By(w, v, Ahead(w, ring, r, e)) in n.sent
  {
    var j := Pos(ring, e);
    var c := At(ring, j + 1);
    AfterBoth(ring, j, r);
    InRing(w, ring, c);
    InRing(w, ring, e);
    assert Told(w, n, ring, v, r, j + r, j + 1);
    hide Avail, Told, Arc, At, Pos;
    TrailFine(w, ring, j + r, r - 1, c);
    TrailFine(w, ring, j + r, r - 1, e);
  }

  lemma LastPickable(w: World, n: Net, ring: seq<Address>, v: Value, r: nat, k: Pair)
    requires Ringed(w, ring) && 1 <= r && r + 3 == w.cfg.relayRounds && Avail(w, n, ring, v, r) && k in Everyone(w)
    ensures Pickable(w, n, v, r, k, LastPick(w, ring, v, r, k))
  {
    if k.0 in ring && k.1 == Next(ring, k.0) {
      NextNames(w, n, ring, v, r, k.0);
      NamesPickable(w, n, v, k, Ahead(w, ring, r, k.0));
    } else {
      OwnArcPickable(w, n, ring, v, r, k);
    }
  }

  lemma NextPair(w: World, ring: seq<Address>, e: Address)
    requires Ringed(w, ring) && e in ring
    ensures (e, Next(ring, e)) in Everyone(w) && e in w.honest
  {
    AfterBoth(ring, Pos(ring, e), 1);
    InRing(w, ring, Next(ring, e));
    InRing(w, ring, e);
  }

  lemma CoversIf(w: World, n: Net, v: Value, names: seq<Address>, p: Address, e: Address)
    requires Fine(w, names) && e !in names && e in w.honest && p in names && |names| + 2 == w.cfg.relayRounds
    requires By(w, v, names + [e]) in n.sent
    ensures exists names :: Covers(w, n, v, (p, e), names)
  {
    AppendNoDup(names, e);
    assert Covers(w, n, v, (p, e), names + [e]);
  }

  /** Ahead of `e` on the ring: the party next to it made it sign with the `r` parties ahead. */
  lemma CoversAhead(w: World, n: Net, n': Net, ring: seq<Address>, v: Value, r: nat, e: Address, p: Address)
    requires Ringed(w, ring) && 1 <= r && r + 3 == w.cfg.relayRounds && Avail(w, n, ring, v, r) && e in ring
    requires Answered(w, n, n', Everyone(w), (k: Pair) => LastPick(w, ring, v, r, k)) && p in Ahead(w, ring, r, e)
    ensures exists names :: Covers(w, n', v, (p, e), names)
  {
    var names, pick := Ahead(w, ring, r, e), (k: Pair) => LastPick(w, ring, v, r, k);
    NextNames(w, n, ring, v, r, e);
    NextPair(w, ring, e);
    assert pick((e, Next(ring, e))) == By(w, v, names);
    assert WellFormed(w);
    hide *;
    AnswerSent(w, n, n', v, names, (e, Next(ring, e)), pick);
    CoversIf(w, n', v, names, p, e);
  }

  /** Not so near ahead of `e`: it signed the arc of `p`. */
  lemma CoversBehind(w: World, n: Net, n': Net, ring: seq<Address>, v: Value, r: nat, e: Address, p: Address)
    requires Ringed(w, ring) && 1 <= r && r + 3 == w.cfg.relayRounds && e in ring && p in ring && e != p
    requires Answered(w, n, n', Everyone(w), (k: Pair) => LastPick(w, ring, v, r, k))
    requires p != Next(ring, e) && e !in Arc(ring, Pos(ring, p), r)
    ensures exists names :: Covers(w, n', v, (p, e), names)
  {
    var i := Pos(ring, p);
    ArcExtended(w, n, n', ring, v, r, i, e, (k: Pair) => LastPick(w, ring, v, r, k));
    InRing(w, ring, e);
    TrailFine(w, ring, i, r, e);
    assert p in Arc(ring, i, r);
    assert Covers(w, n', v, (p, e), Trail(w, ring, i, r) + [e]);
  }

  /** Who has `e` on its arc is one of the parties just ahead of it. */
  lemma AheadOrBehind(ring: seq<Address>, j: int, i: int, r: nat)
    requires ring != [] && NoDup(ring) && 1 <= r < |ring| && At(ring, i) != At(ring, j)
    requires At(ring, j) in Arc(ring, i, r)
    ensures At(ring, i) == At(ring, j + 1) || At(ring, i) in Arc(ring, j + r, r - 1)
  {
    OnArc(ring, i, r, j);
    SamePlace(ring, i, j);
    OnArc(ring, j + r, r - 1, i);
    SamePlace(ring, i, j + 1);
    Distances(i, j, r, |ring|);
  }

  lemma Distances(i: int, j: int, r: nat, m: int)
    requires 1 <= r < m && 1 <= (i - j) % m < r
    ensures (j + r - i) % m < r - 1 || (i - (j + 1)) % m == 0
  {
    var d, q := (i - j) % m, (i - j) / m;
    assert i - (j + 1) == q * m + (d - 1) && j + r - i == (-q) * m + (r - d);
    Residue(i - (j + 1), m, q, d - 1);
    Residue(j + r - i, m, -q, r - d);
  }

  lemma CoversRing(w: World, n: Net, n': Net, ring: seq<Address>, v: Value, r: nat, e: Address, p: Address)
    requires Ringed(w, ring) && 1 <= r && r + 3 == w.cfg.relayRounds && Avail(w, n, ring, v, r)
    requires Answered(w, n, n', Everyone(w), (k: Pair) => LastPick(w, ring, v, r, k))
    requires e in ring && p in ring && e != p
    ensures exists names :: Covers(w, n', v, (p, e), names)
  {
    var i, j := Pos(ring, p), Pos(ring, e);
    if p in Ahead(w, ring, r, e) {
      CoversAhead(w, n, n', ring, v, r, e, p);
    } else {
      if e in Arc(ring, i, r) {
        AheadOrBehind(ring, j, i, r);
      }
      CoversBehind(w, n, n', ring, v, r, e, p);
    }
  }

  lemma CoversAll(w: World, n: Net, n': Net, ring: seq<Address>, v: Value, r: nat)
    requires Ringed(w, ring) && 1 <= r && r + 3 == w.cfg.relayRounds && Avail(w, n, ring, v, r)
    requires Answered(w, n, n', Everyone(w), (k: Pair) => LastPick(w, ring, v, r, k))
    ensures Covered(w, n', v)
  {
    forall k | k in Everyone(w)
      ensures exists names :: Covers(w, n', v, k, names)
    {
      InRing(w, ring, k.0);
      InRing(w, ring, k.1);
      if k.0 != w.cfg.origin {
        CoversRing(w, n, n', ring, v, r, k.1, k.0);
      } else {
        var p := Next(ring, k.1);
        AfterBoth(ring, Pos(ring, k.1), 1);
        CoversRing(w, n, n', ring, v, r, k.1, p);
        var names :| Covers(w, n', v, (p, k.1), names);
        assert Covers(w, n', v, k, names);
      }
    }
  }

  /** All messages one signature short are sent, and everybody has signed one of everybody's. */
  lemma CoverStage(w: World, ring: seq<Address>, v: Value) returns (n: Net)
    requires Ringed(w, ring)
    ensures Stage(w, n, v, w.cfg.relayRounds - 2) && Covered(w, n, v)
  {
    var r := w.cfg.relayRounds - 3;
    n := ArcStages(w, ring, v, r);
    var n0, pick := n, (k: Pair) => LastPick(w, ring, v, r, k);
    forall k | k in Everyone(w)
      ensures Pickable(w, n, v, r, k, pick(k))
    {
      LastPickable(w, n, ring, v, r, k);
    }
    hide Pickable, Stage, Avail, LastPick, Covered;
    n := NextStage(w, n, v, r, pick);
    CoversAll(w, n0, n, ring, v, r);
  }

  // ---------- the standstill ----------

  /** Everybody has filled the slot of every broadcast of a code-following party. */
  ghost predicate Settled(w: World, n: Net) {
    && n.parties.Keys == w.honest
    && forall z, q :: z in n.sent && z.sender in w.honest && q in w.honest && q != z.sender ==>
         (z.sender, z.msg.round) in n.parties[q].received
  }

  /** A last message of `k.1` that `k.0` has signed. */
  ghost function CoverPick(w: World, n: Net, v: Value, k: Pair): Incoming {
    if names :| Covers(w, n, v, k, names) then By(w, v, names) else By(w, v, [w.cfg.origin])
  }

  lemma CoverPickable(w: World, n: Net, v: Value, k: Pair)
    requires WellFormed(w) && w.cfg.relayRounds >= 2 && exists names :: Covers(w, n, v, k, names)
    ensures Pickable(w, n, v, w.cfg.relayRounds - 2, k, CoverPick(w, n, v, k))
    ensures !Extends(w.cfg, k.0, k.1, CoverPick(w, n, v, k).msg)
  {
    var names :| Covers(w, n, v, k, names) && CoverPick(w, n, v, k) == By(w, v, names);
    NamesPickable(w, n, v, k, names);
    BySound(w, v, names, k.0);
  }

  /** Some message one signature short was sent. */
  lemma SomeLast(w: World, ring: seq<Address>, n: Net, v: Value) returns (names: seq<Address>)
    requires Ringed(w, ring) && Covered(w, n, v)
    ensures Fine(w, names) && |names| + 1 == w.cfg.relayRounds && By(w, v, names) in n.sent
  {
    var k := (ring[0], ring[1]);
    InRing(w, ring, k.0);
    InRing(w, ring, k.1);
    assert k in Everyone(w);
    names :| Covers(w, n, v, k, names);
  }

  /** Everybody takes a last message that it has signed: nothing new is sent. */
  lemma LastStage(w: World, n: Net, v: Value) returns (n': Net)
    requires WellFormed(w) && w.cfg.relayRounds >= 3 && Stage(w, n, v, w.cfg.relayRounds - 2) && Covered(w, n, v)
    ensures Stage(w, n', v, w.cfg.relayRounds - 1) && n'.sent == n.sent
  {
    var r, pick := w.cfg.relayRounds - 2, (k: Pair) => CoverPick(w, n, v, k);
    forall k | k in Everyone(w)
      ensures Pickable(w, n, v, r, k, pick(k)) && !Extends(w.cfg, k.0, k.1, pick(k).msg)
    {
      hide Covers, Stage, Extends, CoverPick, Pickable, Everyone;
      CoverPickable(w, n, v, k);
    }
    hide *;
    n' := NextStage(w, n, v, r, pick);
    NothingNew(w, n, n', pick);
  }

  /** All is settled, and nobody is final. */
  lemma Stops(w: World, ring: seq<Address>, v: Value) returns (n: Net, names: seq<Address>)
    requires Ringed(w, ring)
    ensures Stage(w, n, v, w.cfg.relayRounds - 1) && Settled(w, n)
    ensures Fine(w, names) && |names| + 1 == w.cfg.relayRounds && By(w, v, names) in n.sent
  {
    hide Stage, Covered, Settled, Fine, By;
    n := CoverStage(w, ring, v);
    names := SomeLast(w, ring, n, v);
    var n0 := n;
    n := LastStage(w, n, v);
    AllSettled(w, n0, n, v);
  }

  lemma NothingNew(w: World, n: Net, n': Net, pick: Pair -> Incoming)
    requires Answered(w, n, n', Everyone(w), pick)
    requires forall k :: k in Everyone(w) ==> !Extends(w.cfg, k.0, k.1, pick(k).msg)
    ensures n'.sent == n.sent
  {
    hide Extends, Onward;
  }

  lemma AllSettled(w: World, n: Net, n': Net, v: Value)
    requires w.cfg.relayRounds >= 3 && w.cfg.origin in w.honest
    requires Stage(w, n, v, w.cfg.relayRounds - 2) && Stage(w, n', v, w.cfg.relayRounds - 1) && n'.sent == n.sent
    ensures Settled(w, n')
  {
    forall z, q | z in n'.sent && z.sender in w.honest && q in w.honest && q != z.sender
      ensures (z.sender, z.msg.round) in n'.parties[q].received
    {
      assert Reached(w, n') && z.msg.round <= w.cfg.relayRounds - 2;
      HonestChain(w, n', z);
      hide Reached, UnderWay;
      assert z.msg.round == 0 <==> z.sender == w.cfg.origin;
      if z.sender != w.cfg.origin {
        assert (q, z.sender) in Everyone(w);
      }
    }
  }
}
