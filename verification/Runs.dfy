/** Building runs of the network step by step. */
module Runs {
  import opened Collections
  import opened Messages
  import opened Broadcaster
  import opened Network

  lemma ReachInit(w: World)
    requires WellFormed(w)
    ensures Reached(w, Init(w))
  {
    assert ValidRun(w, Start) && Init(w) == After(w, Start);
  }

  lemma ReachStep(w: World, n: Net, step: Step)
    requires Reached(w, n) && Enabled(w, n, step)
    ensures Reached(w, Apply(w, n, step))
  {
    var run :| ValidRun(w, run) && n == After(w, run);
    assert ValidRun(w, Then(run, step)) && Apply(w, n, step) == After(w, Then(run, step));
  }

  /** Everything code-following parties have sent. */
  ghost function HonestOut(w: World, n: Net): set<Incoming> {
    set z | z in n.sent && z.sender in w.honest
  }

  /** A message that passes the filters on session and round and whose chain is valid. */
  ghost predicate Sound(w: World, x: Incoming) {
    ChainValid(w.cfg, x.sender, x.msg) && x.msg.sessionId == w.cfg.sessionId && x.msg.round <= w.cfg.relayRounds
  }

  /** The relay that party `to` adds on processing `x`. */
  ghost function Onward(w: World, to: Address, x: Incoming): Incoming {
    Incoming(to, Extended(to, x.msg))
  }

  /** Party `p` joined on opening message `m` and has taken it from its channel. */
  ghost predicate JoinedOn(w: World, n: Net, p: Address, m: RoundMessage) {
    p in n.joined && n.joined[p] == m && (p, Incoming(w.cfg.origin, m)) in n.taken
  }

  /** Only party `p` has changed, and it did not join anew. */
  ghost predicate Only(n: Net, n': Net, p: Address) {
    n.sent <= n'.sent && n'.joined == n.joined && p in n'.parties && n'.parties == n.parties[p := n'.parties[p]]
  }

  /** Party `to` may take `x` now. */
  ghost predicate Ready(w: World, n: Net, to: Address, x: Incoming) {
    && to in w.honest && Started(w, n, to) && x in n.sent && x.sender != to
    && (x.msg.round == 0 ==> to in n.joined && x == Incoming(w.cfg.origin, n.joined[to]))
  }

  /** A party after it accepted the chain of `x`. */
  function Accepting(w: World, p: Party, to: Address, x: Incoming): Party {
    Party(p.received + {(x.sender, x.msg.round)}, AddValue(p.values, x.msg.value),
          p.finalReached || ChainCount(to, x.msg) >= w.cfg.relayRounds)
  }

  /** Delivering the first message for a (sender, round) pair. */
  lemma DeliverFirst(w: World, n: Net, to: Address, x: Incoming) returns (n': Net)
    requires Reached(w, n) && Ready(w, n, to, x) && Sound(w, x)
    requires (x.sender, x.msg.round) !in n.parties[to].received
    ensures Reached(w, n') && n.sent <= n'.sent && n'.taken == n.taken + {(to, x)} && n'.joined == n.joined
    ensures HonestOut(w, n') == if Extends(w.cfg, to, x.sender, x.msg) then HonestOut(w, n) + {Onward(w, to, x)}
                                else HonestOut(w, n)
    ensures n'.parties == n.parties[to := Accepting(w, n.parties[to], to, x)] && n'.proposal == n.proposal
    ensures n'.sent == if Extends(w.cfg, to, x.sender, x.msg) then n.sent + {Onward(w, to, x)} else n.sent
  {
    ReachStep(w, n, Deliver(to, x));
    hide Reached;
    n' := Delivered(w, n, to, x);
  }

  /** Delivering a message that is dropped: its session is another one, or its (sender, round) pair was already seen. */
  lemma DeliverDropped(w: World, n: Net, to: Address, x: Incoming) returns (n': Net)
    requires Reached(w, n) && Ready(w, n, to, x) && !Admits(w.cfg, n.parties[to], x.sender, x.msg)
    ensures Reached(w, n') && n'.sent == n.sent && n'.taken == n.taken + {(to, x)} && n'.parties == n.parties
    ensures n'.joined == n.joined && HonestOut(w, n') == HonestOut(w, n)
  {
    ReachStep(w, n, Deliver(to, x));
    n' := Delivered(w, n, to, x);
    assert n'.parties == n.parties;
  }

  /** A message with a bad chain only marks its (sender, round) pair. */
  lemma DeliverInvalid(w: World, n: Net, to: Address, x: Incoming) returns (n': Net)
    requires Reached(w, n) && Ready(w, n, to, x)
    requires Admits(w.cfg, n.parties[to], x.sender, x.msg) && !ChainValid(w.cfg, x.sender, x.msg)
    ensures Reached(w, n') && n'.sent == n.sent && n'.taken == n.taken + {(to, x)} && n'.joined == n.joined
    ensures n'.parties == n.parties[to := n.parties[to].(received := n.parties[to].received + {(x.sender, x.msg.round)})]
    ensures HonestOut(w, n') == HonestOut(w, n)
  {
    ReachStep(w, n, Deliver(to, x));
    n' := Delivered(w, n, to, x);
  }

  ghost predicate OnlyFaultySigned(w: World, x: Incoming) {
    forall i :: 0 <= i < |x.msg.signatures| ==>
      x.msg.signatures[i].value.Signed? ==> x.msg.signatures[i].value.author in Faulty(w)
  }

  /** Anything signed by faulty parties only can be sent at any time. */
  lemma InjectFaulty(w: World, n: Net, x: Incoming) returns (n': Net)
    requires Reached(w, n) && x.sender in Faulty(w) && OnlyFaultySigned(w, x)
    ensures Reached(w, n') && n'.sent == n.sent + {x} && HonestOut(w, n') == HonestOut(w, n)
    ensures n'.taken == n.taken && n'.parties == n.parties && n'.joined == n.joined
  {
    ReachStep(w, n, Inject(x));
    n' := n.(sent := n.sent + {x});
  }

  /** From `n` to `n'` each of `ts` takes `x` as the first message of its sender and round. */
  ghost predicate TakenBy(w: World, n: Net, n': Net, ts: set<Address>, x: Incoming) {
    && Reached(w, n') && n'.joined == n.joined && n'.proposal == n.proposal && n.sent <= n'.sent
    && n.parties.Keys == n'.parties.Keys == w.honest
    && (forall t :: t in w.honest ==> n'.parties[t] == if t in ts then Accepting(w, n.parties[t], t, x) else n.parties[t])
    && (forall z :: z in HonestOut(w, n') - HonestOut(w, n) ==> z.sender in ts && z == Onward(w, z.sender, x))
  }

  ghost predicate Fits(w: World, n: Net, t: Address, x: Incoming) {
    Ready(w, n, t, x) && t in n.parties && (x.sender, x.msg.round) !in n.parties[t].received
  }

  lemma TakeByOne(w: World, n: Net, n1: Net, ts: set<Address>, t: Address, x: Incoming) returns (n': Net)
    requires TakenBy(w, n, n1, ts, x) && t !in ts && Sound(w, x) && Fits(w, n, t, x)
    ensures TakenBy(w, n, n', ts + {t}, x)
  {
    hide Reached, Sound, Extends, Accepting;
    assert Ready(w, n1, t, x) && n1.parties[t] == n.parties[t];
    n' := DeliverFirst(w, n1, t, x);
  }

  lemma {:induction false} TakeByEach(w: World, n: Net, ts: set<Address>, x: Incoming) returns (n': Net)
    requires Reached(w, n) && Sound(w, x) && forall t :: t in ts ==> Fits(w, n, t, x)
    ensures TakenBy(w, n, n', ts, x)
    decreases ts
  {
    n' := n;
    if ts != {} {
      hide Reached, Sound, TakenBy;
      var t :| t in ts;
      n' := TakeByEach(w, n, ts - {t}, x);
      n' := TakeByOne(w, n, n', ts - {t}, t, x);
      assert ts - {t} + {t} == ts;
    }
  }

  // ---------- joining on what a faulty origin sends ----------

  /** A faulty origin sends `m` to `p`, which joins on it. */
  lemma Joins(w: World, n: Net, p: Address, m: RoundMessage) returns (n': Net)
    requires Reached(w, n) && p in w.honest && p !in n.joined && w.cfg.origin !in w.honest
    requires m.round == 0 && OnlyFaultySigned(w, Incoming(w.cfg.origin, m))
    ensures Reached(w, n') && n'.joined == n.joined[p := m] && n'.sent == n.sent + {Incoming(w.cfg.origin, m)}
    ensures n'.taken == n.taken && n'.parties == n.parties && HonestOut(w, n') == HonestOut(w, n)
    ensures Ready(w, n', p, Incoming(w.cfg.origin, m))
  {
    n' := InjectFaulty(w, n, Incoming(w.cfg.origin, m));
    ReachStep(w, n', Join(p, m));
    n' := n'.(joined := n'.joined[p := m]);
  }

  /** A party that has seen an opening message of no use. */
  function Waiting(cfg: Config): Party {
    Party({(cfg.origin, 0)}, map[], false)
  }

  /** An opening message whose signature is not one. */
  function Unsigned(cfg: Config, v: Value): RoundMessage {
    RoundMessage(cfg.sessionId, v, 0, [Signature(cfg.origin, Junk(0))])
  }

  /** `p` joins on an opening message with a bad signature, takes it and discards it. */
  lemma JoinsUnsigned(w: World, n: Net, p: Address, v: Value) returns (n': Net)
    requires Reached(w, n) && p in w.honest && p !in n.joined && w.cfg.origin !in w.honest && w.cfg.relayRounds >= 1
    requires n.parties[p] == FRESH
    ensures Reached(w, n') && n.sent <= n'.sent && HonestOut(w, n') == HonestOut(w, n)
    ensures n'.taken == n.taken + {(p, Incoming(w.cfg.origin, Unsigned(w.cfg, v)))}
    ensures n'.joined == n.joined[p := Unsigned(w.cfg, v)] && n'.parties.Keys == w.honest
    ensures n'.parties[p] == Waiting(w.cfg) && forall q :: q in w.honest && q != p ==> n'.parties[q] == n.parties[q]
  {
    var m := Unsigned(w.cfg, v);
    assert !LinkValid(w.cfg, m, 0);
    n' := Joins(w, n, p, m);
    n' := DeliverInvalid(w, n', p, Incoming(w.cfg.origin, m));
  }

  /** `p` joins on a good opening message, accepts its value and relays it unless there is one round only. */
  lemma JoinsOpening(w: World, n: Net, p: Address, v: Value) returns (n': Net)
    requires Reached(w, n) && p in w.honest && p !in n.joined && w.cfg.origin !in w.honest && w.cfg.relayRounds >= 2
    requires n.parties[p] == FRESH
    ensures Reached(w, n') && n.sent <= n'.sent
    ensures n'.taken == n.taken + {(p, Incoming(w.cfg.origin, Opening(w.cfg, v)))}
    ensures n'.joined == n.joined[p := Opening(w.cfg, v)]
    ensures HonestOut(w, n') == HonestOut(w, n) + {Onward(w, p, Incoming(w.cfg.origin, Opening(w.cfg, v)))}
    ensures n'.parties.Keys == w.honest && forall q :: q in w.honest && q != p ==> n'.parties[q] == n.parties[q]
    ensures n'.parties[p] == Party({(w.cfg.origin, 0)}, map[Key(v) := v], w.cfg.relayRounds <= 2)
  {
    var x := Incoming(w.cfg.origin, Opening(w.cfg, v));
    OpeningChainValid(w.cfg, v);
    n' := Joins(w, n, p, x.msg);
    assert !SignedBy(p, x.msg.signatures);
    n' := DeliverFirst(w, n', p, x);
  }

  /** The parties in `opens` have joined on opening messages of no use, and the others have done nothing. */
  ghost predicate Gathered(w: World, n: Net, opens: map<Address, Value>) {
    && Reached(w, n) && HonestOut(w, n) == {} && n.joined.Keys == opens.Keys
    && (forall p :: p in opens ==> JoinedOn(w, n, p, Unsigned(w.cfg, opens[p])))
    && (forall p :: p in w.honest ==> n.parties[p] == if p in opens then Waiting(w.cfg) else FRESH)
  }

  /** A faulty origin makes any set of parties join on opening messages they have to discard. */
  lemma {:induction false} Gather(w: World, opens: map<Address, Value>) returns (n: Net)
    requires WellFormed(w) && opens.Keys <= w.honest && w.cfg.origin !in w.honest && w.cfg.relayRounds >= 1
    ensures Gathered(w, n, opens)
    decreases |opens.Keys|
  {
    if opens.Keys == {} {
      ReachInit(w);
      n := Init(w);
    } else {
      hide Gathered;
      var p :| p in opens;
      var rest := opens - {p};
      Removed(opens, p);
      n := Gather(w, rest);
      n := GatherOne(w, n, rest, p, opens[p]);
    }
  }

  lemma Removed<K, V>(m: map<K, V>, k: K)
    requires k in m
    ensures (m - {k}).Keys == m.Keys - {k} && |(m - {k}).Keys| < |m.Keys| && (m - {k})[k := m[k]] == m
  {
    assert (m - {k}).Keys == m.Keys - {k};
  }

  lemma GatherOne(w: World, n: Net, opens: map<Address, Value>, p: Address, v: Value) returns (n': Net)
    requires Gathered(w, n, opens) && p in w.honest && p !in opens && w.cfg.origin !in w.honest && w.cfg.relayRounds >= 1
    ensures Gathered(w, n', opens[p := v])
  {
    hide Unsigned, HonestOut;
    n' := JoinsUnsigned(w, n, p, v);
  }

  // ---------- joining on what a code-following origin sends ----------

  lemma {:induction false} JoinEach(w: World, n: Net, m: RoundMessage, ps: set<Address>) returns (n': Net)
    requires Reached(w, n) && m.round == 0 && Incoming(w.cfg.origin, m) in n.sent
    requires ps <= w.honest - {w.cfg.origin} - n.joined.Keys
    ensures Reached(w, n') && n'.joined.Keys == n.joined.Keys + ps && n' == n.(joined := n'.joined)
    decreases ps
  {
    n' := n;
    if ps != {} {
      var p :| p in ps;
      ReachStep(w, n, Join(p, m));
      var n1 := n.(joined := n.joined[p := m]);
      n' := JoinEach(w, n1, m, ps - {p});
    }
  }

  /** The origin proposes and everybody joins. */
  lemma AllJoin(w: World, v: Value) returns (n: Net)
    requires WellFormed(w) && w.cfg.origin in w.honest
    ensures Reached(w, n) && n.joined.Keys == w.honest - {w.cfg.origin}
    ensures n == Proposed(w, Init(w), v).(joined := n.joined)
  {
    ReachInit(w);
    ReachStep(w, Init(w), Propose(v));
    n := JoinEach(w, Proposed(w, Init(w), v), Opening(w.cfg, v), w.honest - {w.cfg.origin});
  }

  // ---------- chains of chosen signers ----------

  /** The message for `v` signed in turn by `names`. */
  function Chained(cfg: Config, v: Value, names: seq<Address>): (m: RoundMessage)
    requires names != []
    ensures m.sessionId == cfg.sessionId && m.value == v && m.round == |names| - 1
    ensures |m.signatures| == |names|
    ensures forall i :: 0 <= i < |names| ==> m.signatures[i].signer == names[i]
    ensures forall i :: 0 <= i < |names| ==> m.signatures[i].value.Signed? && m.signatures[i].value.author == names[i]
  {
    if |names| == 1 then RoundMessage(cfg.sessionId, v, 0, [Sign(names[0], cfg.sessionId, v, [])])
    else Extended(names[|names| - 1], Chained(cfg, v, names[..|names| - 1]))
  }

  lemma {:induction false} ChainedValid(cfg: Config, v: Value, names: seq<Address>)
    requires names != [] && names[0] == cfg.origin && NoDup(names)
    requires forall i :: 0 <= i < |names| ==> names[i] in cfg.group
    ensures ChainValid(cfg, names[|names| - 1], Chained(cfg, v, names))
  {
    var last := names[|names| - 1];
    if |names| == 1 {
      OpeningChainValid(cfg, v);
    } else {
      var before := names[..|names| - 1];
      ChainedValid(cfg, v, before);
      assert !SignedBy(last, Chained(cfg, v, before).signatures);
      ExtendedChainValid(cfg, last, before[|before| - 1], Chained(cfg, v, before));
    }
  }

  /** The signatures of a chain are those of its beginning, followed by the others'. */
  lemma {:induction false} ChainedPrefix(cfg: Config, v: Value, names: seq<Address>, more: seq<Address>)
    requires names != []
    ensures Chained(cfg, v, names + more).signatures[..|names|] == Chained(cfg, v, names).signatures
  {
    if more == [] {
      assert names + more == names;
    } else {
      var before := more[..|more| - 1];
      ChainedPrefix(cfg, v, names, before);
      assert (names + more)[..|names + more| - 1] == names + before;
    }
  }

  /** What was sent can be continued by faulty parties. */
  lemma CompletionKnown(w: World, n: Net, x0: Incoming, x: Incoming)
    requires Reached(w, n) && x0 in n.sent && x.sender in Faulty(w)
    requires x0.msg.signatures <= x.msg.signatures
    requires forall i :: |x0.msg.signatures| <= i < |x.msg.signatures| ==>
               x.msg.signatures[i].value.Signed? && x.msg.signatures[i].value.author in Faulty(w)
    ensures Enabled(w, n, Inject(x))
  {
    assert Authentic(w, n) by { ReachedKeeps(w, n); }
    forall i | 0 <= i < |x.msg.signatures|
      ensures Known(w, n, x.msg.signatures[i])
    {
      if i < |x0.msg.signatures| {
        assert Known(w, n, x0.msg.signatures[i]);
      }
    }
  }

  // ---------- groups ----------

  /** The address of length `k`. */
  function Name(k: nat): (a: Address)
    ensures |a| == k
  {
    seq(k, i => 'a')
  }

  /** `count` different addresses, of lengths from `start` on. */
  function NameList(start: nat, count: nat): (names: seq<Address>)
    ensures |names| == count && forall i :: 0 <= i < count ==> |names[i]| == start + i
  {
    if count == 0 then [] else NameList(start, count - 1) + [Name(start + count - 1)]
  }

  /** A group of the given numbers of faulty and of code-following parties; the first of either is the origin. */
  lemma SomeGroup(faults: nat, followers: nat, relayRounds: int, faultyOrigin: bool)
    returns (w: World, faulty: seq<Address>, others: seq<Address>)
    requires if faultyOrigin then faults >= 1 else followers >= 1
    ensures |faulty| == faults && |others| == followers && NoDup(faulty) && NoDup(others)
    ensures Elements(faulty) !! Elements(others) && WellFormed(w)
    ensures w == World(Config("", Elements(faulty) + Elements(others), if faultyOrigin then faulty[0] else others[0],
                              relayRounds), Elements(others))
    ensures Faulty(w) == Elements(faulty) && |Faulty(w)| == faults && |w.honest| == followers
  {
    faulty, others := NameList(0, faults), NameList(faults, followers);
    w := World(Config("", Elements(faulty) + Elements(others), if faultyOrigin then faulty[0] else others[0],
                      relayRounds), Elements(others));
    assert (if faultyOrigin then faulty[0] in Elements(faulty) else others[0] in Elements(others));
    assert Faulty(w) == Elements(faulty);
    ElementsCount(faulty);
    ElementsCount(others);
  }
}
