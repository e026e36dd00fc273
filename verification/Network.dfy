/**
 All parties of one broadcast together. Code-following parties run the
 broadcaster; every other group member may send anything under its own name,
 except that it cannot make a signature of a code-following party. Messages may
 be delivered late, repeatedly, in any order, or never; a party other than the
 origin takes none of them before it has joined on an opening message.
 */
module Network {
  import opened Wrappers
  import opened Messages
  import opened Broadcaster

  datatype World = World(cfg: Config, honest: set<Address>)

  ghost predicate WellFormed(w: World) {
    w.honest <= w.cfg.group && w.cfg.origin in w.cfg.group
  }

  function Faulty(w: World): set<Address> {
    w.cfg.group - w.honest
  }

  /**
   `sent` is everything ever sent; `taken` is every message a party took from its
   channel; `processed` is the one message it processed for each (party, sender, round);
   `joined` is the opening message on which a party joined.
   */
  datatype Net = Net(
    parties: map<Address, Party>,
    sent: set<Incoming>,
    taken: set<(Address, Incoming)>,
    processed: map<(Address, Address, nat), RoundMessage>,
    joined: map<Address, RoundMessage>,
    proposal: Option<Value>)

  datatype Step =
    | Propose(v: Value)
    | Join(p: Address, m: RoundMessage)
    | Deliver(to: Address, x: Incoming)
    | Inject(x: Incoming)

  ghost function Init(w: World): Net {
    Net(map p | p in w.honest :: FRESH, {}, {}, map[], map[], None)
  }

  function Front(sigs: seq<Signature>): seq<Signature>
    requires sigs != []
  {
    sigs[..|sigs| - 1]
  }

  /** Party `h` has put its own signature on `fields` in a message it sent. */
  ghost predicate HasSigned(n: Net, h: Address, fields: seq<Field>) {
    exists m :: Incoming(h, m) in n.sent && m.signatures != []
                && fields == SignFields(m.sessionId, m.value, Front(m.signatures))
  }

  /** Unforgeability: a signature of a code-following party exists only if that party made it. */
  ghost predicate Known(w: World, n: Net, sig: Signature) {
    sig.value.Signed? && sig.value.author in w.honest ==> HasSigned(n, sig.value.author, sig.value.over)
  }

  /** The party runs its receive loop: it has proposed or joined. */
  ghost predicate Started(w: World, n: Net, p: Address) {
    if p == w.cfg.origin then n.proposal.Some? else p in n.joined
  }

  ghost predicate Enabled(w: World, n: Net, step: Step) {
    match step
    case Propose(v) => w.cfg.origin in w.honest && n.proposal.None?
    // the first round-0 message of the origin that reaches a party is the only one its broadcaster sees
    case Join(p, m) =>
      p in w.honest - {w.cfg.origin} && p !in n.joined && m.round == 0 && Incoming(w.cfg.origin, m) in n.sent
    case Deliver(to, x) =>
      && to in w.honest && x in n.sent && x.sender != to && Started(w, n, to)
      && (x.msg.round == 0 ==> to in n.joined && x == Incoming(w.cfg.origin, n.joined[to]))
    case Inject(x) =>
      x.sender in Faulty(w) && forall i :: 0 <= i < |x.msg.signatures| ==> Known(w, n, x.msg.signatures[i])
  }

  ghost function Proposed(w: World, n: Net, v: Value): Net
    requires w.cfg.origin in n.parties
  {
    n.(parties := n.parties[w.cfg.origin := Opened(w.cfg, n.parties[w.cfg.origin], v)],
       sent := n.sent + {Incoming(w.cfg.origin, Opening(w.cfg, v))},
       proposal := Some(v))
  }

  ghost function Delivered(w: World, n: Net, to: Address, x: Incoming): Net
    requires to in n.parties
  {
    var p := n.parties[to];
    var n' := n.(parties := n.parties[to := Handle(w.cfg, to, p, x.sender, x.msg)],
                 taken := n.taken + {(to, x)});
    if !Admits(w.cfg, p, x.sender, x.msg) then n'
    else
      n'.(processed := n.processed[(to, x.sender, x.msg.round) := x.msg],
          sent := n.sent + if Extends(w.cfg, to, x.sender, x.msg) then {Incoming(to, Extended(to, x.msg))} else {})
  }

  ghost function Apply(w: World, n: Net, step: Step): Net {
    match step
    case Propose(v) => if w.cfg.origin in n.parties then Proposed(w, n, v) else n
    case Join(p, m) => n.(joined := n.joined[p := m])
    case Deliver(to, x) => if to in n.parties then Delivered(w, n, to, x) else n
    case Inject(x) => n.(sent := n.sent + {x})
  }

  datatype Run = Start | Then(before: Run, step: Step)

  ghost function After(w: World, run: Run): (n: Net)
    ensures n.parties.Keys == w.honest
  {
    match run
    case Start => Init(w)
    case Then(before, step) => Apply(w, After(w, before), step)
  }

  /** Each step of the run was enabled when it was taken. */
  ghost predicate ValidRun(w: World, run: Run) {
    match run
    case Start => true
    case Then(before, step) => ValidRun(w, before) && Enabled(w, After(w, before), step)
  }

  // ---------- what every run keeps ----------

  ghost predicate Membership(w: World, n: Net) {
    && n.parties.Keys == w.honest
    && forall x :: x in n.sent ==> x.sender in w.cfg.group
  }

  ghost predicate Authentic(w: World, n: Net) {
    forall x, i :: x in n.sent && 0 <= i < |x.msg.signatures| ==> Known(w, n, x.msg.signatures[i])
  }

  ghost predicate IsOpening(w: World, n: Net, x: Incoming) {
    x.sender == w.cfg.origin && n.proposal.Some? && x.msg == Opening(w.cfg, n.proposal.value)
  }

  /** The processed message that a relayed message extends. */
  function Parent(x: Incoming): (Address, Address, nat)
    requires |x.msg.signatures| >= 2 && x.msg.round > 0
  {
    (x.sender, x.msg.signatures[|x.msg.signatures| - 2].signer, x.msg.round - 1)
  }

  ghost predicate IsRelay(w: World, n: Net, x: Incoming) {
    && x.sender != w.cfg.origin && |x.msg.signatures| >= 2 && x.msg.round > 0
    && Parent(x) in n.processed
    && Extends(w.cfg, x.sender, Parent(x).1, n.processed[Parent(x)])
    && x.msg == Extended(x.sender, n.processed[Parent(x)])
  }

  ghost predicate HonestSent(w: World, n: Net) {
    forall x :: x in n.sent && x.sender in w.honest ==> IsOpening(w, n, x) || IsRelay(w, n, x)
  }

  /** The consequences that processing message `m` from `q` has had at party `p`. */
  ghost predicate Outcome(w: World, n: Net, p: Address, q: Address, m: RoundMessage)
    requires p in n.parties
  {
    ChainValid(w.cfg, q, m) ==>
      && Key(m.value) in n.parties[p].values
      && (ChainCount(p, m) >= w.cfg.relayRounds ==> n.parties[p].finalReached)
      && (Extends(w.cfg, p, q, m) ==> Incoming(p, Extended(p, m)) in n.sent)
  }

  ghost predicate ProcessedAt(w: World, n: Net, k: (Address, Address, nat))
    requires k in n.processed
  {
    var m := n.processed[k];
    && k.0 in n.parties && k.0 != k.1
    && Incoming(k.1, m) in n.sent
    && m.round == k.2 && m.sessionId == w.cfg.sessionId && m.round <= w.cfg.relayRounds
    && Outcome(w, n, k.0, k.1, m)
  }

  ghost predicate Processing(w: World, n: Net) {
    forall k :: k in n.processed ==> ProcessedAt(w, n, k)
  }

  ghost predicate Bookkeeping(w: World, n: Net) {
    && (forall p, q, r :: p in n.parties ==> ((q, r) in n.parties[p].received <==> (p, q, r) in n.processed))
    && (forall t :: t in n.taken && t.1.msg.sessionId == w.cfg.sessionId && t.1.msg.round <= w.cfg.relayRounds
          ==> (t.0, t.1.sender, t.1.msg.round) in n.processed)
  }

  /** Party `p` processed a valid chain for value `v` from `q` at round `r`. */
  ghost predicate Backs(w: World, n: Net, p: Address, q: Address, r: nat, v: Value) {
    && (p, q, r) in n.processed
    && ChainValid(w.cfg, q, n.processed[(p, q, r)])
    && n.processed[(p, q, r)].value == v
  }

  ghost predicate Proposes(w: World, n: Net, p: Address, v: Value) {
    p == w.cfg.origin && n.proposal == Some(v)
  }

  /** Value `v` in a party's accepted set is what it proposed itself or what a valid chain brought. */
  ghost predicate Backed(w: World, n: Net, p: Address, v: Value) {
    Proposes(w, n, p, v) || exists q, r :: Backs(w, n, p, q, r, v)
  }

  ghost predicate Justified(w: World, n: Net) {
    forall p, k :: p in n.parties && k in n.parties[p].values ==>
      Key(n.parties[p].values[k]) == k && Backed(w, n, p, n.parties[p].values[k])
  }

  ghost predicate ProposalSent(w: World, n: Net) {
    n.proposal.Some? ==>
      && w.cfg.origin in n.parties
      && Incoming(w.cfg.origin, Opening(w.cfg, n.proposal.value)) in n.sent
      && Key(n.proposal.value) in n.parties[w.cfg.origin].values
      && (w.cfg.relayRounds == 1 ==> n.parties[w.cfg.origin].finalReached)
  }

  /** Party `p` processed a valid chain from `q` at round `r` that its own signature makes long enough. */
  ghost predicate Completes(w: World, n: Net, p: Address, q: Address, r: nat) {
    && (p, q, r) in n.processed
    && ChainValid(w.cfg, q, n.processed[(p, q, r)])
    && ChainCount(p, n.processed[(p, q, r)]) >= w.cfg.relayRounds
  }

  /** A final chain was reached by a long enough one, or by opening a broadcast of one round. */
  ghost predicate Finality(w: World, n: Net) {
    forall p :: p in n.parties && n.parties[p].finalReached ==>
      || (p == w.cfg.origin && w.cfg.relayRounds == 1 && n.proposal.Some?)
      || exists q, r :: Completes(w, n, p, q, r)
  }

  /** Only parties that have started take messages, and the one opening message they take is the one they joined on. */
  ghost predicate Joining(w: World, n: Net) {
    && (forall p :: p in n.joined ==>
          && p in w.honest - {w.cfg.origin} && n.joined[p].round == 0 && Incoming(w.cfg.origin, n.joined[p]) in n.sent)
    && (forall t :: t in n.taken ==> t.0 in w.honest && t.1 in n.sent && Started(w, n, t.0))
    && (forall t :: t in n.taken && t.1.msg.round == 0 ==>
          t.0 in n.joined && t.1 == Incoming(w.cfg.origin, n.joined[t.0]))
    && (forall k :: k in n.processed ==> (k.0, Incoming(k.1, n.processed[k])) in n.taken)
  }

  /** What is true of messages, records and accepted values. */
  ghost predicate Core(w: World, n: Net) {
    && Membership(w, n) && Authentic(w, n) && HonestSent(w, n)
    && Processing(w, n) && Bookkeeping(w, n) && Justified(w, n) && ProposalSent(w, n)
  }

  ghost predicate Inv(w: World, n: Net) {
    Core(w, n) && Finality(w, n) && Joining(w, n)
  }

  lemma KnownMonotone(w: World, n: Net, n': Net)
    requires n.sent <= n'.sent && Authentic(w, n)
    ensures forall x, i :: x in n.sent && 0 <= i < |x.msg.signatures| ==> Known(w, n', x.msg.signatures[i])
  {
    forall x, i | x in n.sent && 0 <= i < |x.msg.signatures|
      ensures Known(w, n', x.msg.signatures[i])
    {
      assert Known(w, n, x.msg.signatures[i]);
    }
  }

  lemma BackedMonotone(w: World, n: Net, n': Net)
    requires forall k :: k in n.processed ==> k in n'.processed && n'.processed[k] == n.processed[k]
    requires n.proposal.Some? ==> n'.proposal == n.proposal
    ensures forall p, v :: Backed(w, n, p, v) ==> Backed(w, n', p, v)
  {
    forall p, v | Backed(w, n, p, v)
      ensures Backed(w, n', p, v)
    {
      if !Proposes(w, n, p, v) {
        var q, r :| Backs(w, n, p, q, r, v);
        assert Backs(w, n', p, q, r, v);
      }
    }
  }

  lemma FinalityMonotone(w: World, n: Net, n': Net)
    requires Finality(w, n) && n'.parties.Keys == n.parties.Keys
    requires forall k :: k in n.processed ==> k in n'.processed && n'.processed[k] == n.processed[k]
    requires n.proposal.Some? ==> n'.proposal.Some?
    requires forall p :: p in n.parties && n'.parties[p].finalReached ==>
               n.parties[p].finalReached || (p == w.cfg.origin && w.cfg.relayRounds == 1 && n'.proposal.Some?)
    ensures Finality(w, n')
  {
    forall p | p in n'.parties && n'.parties[p].finalReached
               && !(p == w.cfg.origin && w.cfg.relayRounds == 1 && n'.proposal.Some?)
      ensures exists q, r :: Completes(w, n', p, q, r)
    {
      var q, r :| Completes(w, n, p, q, r);
      assert Completes(w, n', p, q, r);
    }
  }

  lemma JoinKeeps(w: World, n: Net, p: Address, m: RoundMessage)
    requires WellFormed(w) && Core(w, n) && Enabled(w, n, Join(p, m))
    ensures Core(w, n.(joined := n.joined[p := m]))
  {
    var n' := n.(joined := n.joined[p := m]);
    KnownMonotone(w, n, n');
    forall y | y in n'.sent && y.sender in w.honest
      ensures IsOpening(w, n', y) || IsRelay(w, n', y)
    {
      assert IsOpening(w, n, y) || IsRelay(w, n, y);
    }
    forall k | k in n'.processed
      ensures ProcessedAt(w, n', k)
    {
      assert ProcessedAt(w, n, k);
    }
    BackedMonotone(w, n, n');
  }

  lemma ProposeKeeps(w: World, n: Net, v: Value)
    requires WellFormed(w) && Core(w, n) && Enabled(w, n, Propose(v))
    ensures Core(w, Proposed(w, n, v))
  {
    var o := w.cfg.origin;
    var x := Incoming(o, Opening(w.cfg, v));
    var n' := Proposed(w, n, v);
    assert x in n'.sent;
    KnownMonotone(w, n, n');
    assert Front(x.msg.signatures) == [];
    assert HasSigned(n', o, SignFields(w.cfg.sessionId, v, []));
    assert IsOpening(w, n', x);
    forall y | y in n.sent && y.sender in w.honest
      ensures IsOpening(w, n', y) || IsRelay(w, n', y)
    {
      assert IsRelay(w, n, y);
    }
    forall k | k in n'.processed
      ensures ProcessedAt(w, n', k)
    {
      assert ProcessedAt(w, n, k);
    }
    BackedMonotone(w, n, n');
  }

  lemma InjectKeeps(w: World, n: Net, x: Incoming)
    requires WellFormed(w) && Core(w, n) && Enabled(w, n, Inject(x))
    ensures Core(w, n.(sent := n.sent + {x}))
  {
    var n' := n.(sent := n.sent + {x});
    KnownMonotone(w, n, n');
    forall i | 0 <= i < |x.msg.signatures|
      ensures Known(w, n', x.msg.signatures[i])
    {
      assert Known(w, n, x.msg.signatures[i]);
    }
    forall y | y in n'.sent && y.sender in w.honest
      ensures IsOpening(w, n', y) || IsRelay(w, n', y)
    {
      assert y in n.sent;
      assert IsOpening(w, n, y) || IsRelay(w, n, y);
    }
    forall k | k in n'.processed
      ensures ProcessedAt(w, n', k)
    {
      assert ProcessedAt(w, n, k);
    }
    BackedMonotone(w, n, n');
  }

  lemma DropKeeps(w: World, n: Net, to: Address, x: Incoming)
    requires WellFormed(w) && Core(w, n) && Enabled(w, n, Deliver(to, x))
    requires !Admits(w.cfg, n.parties[to], x.sender, x.msg)
    ensures Core(w, Delivered(w, n, to, x))
  {
    var n' := Delivered(w, n, to, x);
    assert n'.parties == n.parties;
    KnownMonotone(w, n, n');
    forall y | y in n'.sent && y.sender in w.honest
      ensures IsOpening(w, n', y) || IsRelay(w, n', y)
    {
      assert IsOpening(w, n, y) || IsRelay(w, n, y);
    }
    forall k | k in n'.processed
      ensures ProcessedAt(w, n', k)
    {
      assert ProcessedAt(w, n, k);
    }
    BackedMonotone(w, n, n');
  }

  /** A party that extends a chain is not its origin, and its extension ends in its own known signature. */
  lemma ExtensionSent(w: World, n: Net, to: Address, x: Incoming)
    requires WellFormed(w) && Core(w, n) && Enabled(w, n, Deliver(to, x))
    requires Relays(w.cfg, to, n.parties[to], x.sender, x.msg)
    ensures var n' := Delivered(w, n, to, x);
            var y := Incoming(to, Extended(to, x.msg));
            IsRelay(w, n', y) && forall i :: 0 <= i < |y.msg.signatures| ==> Known(w, n', y.msg.signatures[i])
  {
    hide Processing, Bookkeeping, Justified, ProposalSent, HonestSent;
    var n' := Delivered(w, n, to, x);
    var y := Incoming(to, Extended(to, x.msg));
    assert y in n'.sent;
    assert Front(y.msg.signatures) == x.msg.signatures;
    assert HasSigned(n', to, SignFields(x.msg.sessionId, x.msg.value, x.msg.signatures));
    KnownMonotone(w, n, n');
    forall i | 0 <= i < |y.msg.signatures|
      ensures Known(w, n', y.msg.signatures[i])
    {
      if i < |x.msg.signatures| {
        assert y.msg.signatures[i] == x.msg.signatures[i];
        assert Known(w, n', x.msg.signatures[i]);
      }
    }
    assert to != w.cfg.origin;
    assert Parent(y) == (to, x.sender, x.msg.round);
  }

  lemma ProcessKeepsMessages(w: World, n: Net, to: Address, x: Incoming)
    requires WellFormed(w) && Core(w, n) && Enabled(w, n, Deliver(to, x))
    requires Admits(w.cfg, n.parties[to], x.sender, x.msg)
    ensures var n' := Delivered(w, n, to, x);
            Membership(w, n') && Authentic(w, n') && HonestSent(w, n')
  {
    var n' := Delivered(w, n, to, x);
    KnownMonotone(w, n, n');
    if Extends(w.cfg, to, x.sender, x.msg) {
      ExtensionSent(w, n, to, x);
    }
    forall y | y in n.sent && y.sender in w.honest
      ensures IsOpening(w, n', y) || IsRelay(w, n', y)
    {
      if IsRelay(w, n, y) {
        assert (to, x.sender, x.msg.round) !in n.processed;
        assert n'.processed[Parent(y)] == n.processed[Parent(y)];
      }
    }
  }

  lemma ProcessKeepsRecords(w: World, n: Net, to: Address, x: Incoming)
    requires WellFormed(w) && Core(w, n) && Enabled(w, n, Deliver(to, x))
    requires Admits(w.cfg, n.parties[to], x.sender, x.msg)
    ensures Processing(w, Delivered(w, n, to, x)) && Bookkeeping(w, Delivered(w, n, to, x))
  {
    hide Justified, ProposalSent, HonestSent, Authentic;
    var n' := Delivered(w, n, to, x);
    var here := (to, x.sender, x.msg.round);
    assert here !in n.processed;
    forall k | k in n'.processed
      ensures ProcessedAt(w, n', k)
    {
      if k != here {
        assert ProcessedAt(w, n, k);
      }
    }
  }

  lemma ProcessKeepsValues(w: World, n: Net, to: Address, x: Incoming)
    requires Membership(w, n) && Bookkeeping(w, n) && Justified(w, n) && ProposalSent(w, n)
    requires Enabled(w, n, Deliver(to, x)) && Admits(w.cfg, n.parties[to], x.sender, x.msg)
    ensures Justified(w, Delivered(w, n, to, x)) && ProposalSent(w, Delivered(w, n, to, x))
  {
    hide Started;
    var n' := Delivered(w, n, to, x);
    assert (to, x.sender, x.msg.round) !in n.processed;
    BackedMonotone(w, n, n');
    if ChainValid(w.cfg, x.sender, x.msg) {
      assert Backs(w, n', to, x.sender, x.msg.round, x.msg.value);
      assert Backed(w, n', to, x.msg.value);
    }
  }

  lemma ProcessKeepsFinality(w: World, n: Net, to: Address, x: Incoming)
    requires Membership(w, n) && Bookkeeping(w, n) && Finality(w, n)
    requires Enabled(w, n, Deliver(to, x)) && Admits(w.cfg, n.parties[to], x.sender, x.msg)
    ensures Finality(w, Delivered(w, n, to, x))
  {
    hide Started;
    var n' := Delivered(w, n, to, x);
    assert (to, x.sender, x.msg.round) !in n.processed;
    forall p | p in n'.parties && n'.parties[p].finalReached
               && !(p == w.cfg.origin && w.cfg.relayRounds == 1 && n.proposal.Some?)
      ensures exists q, r :: Completes(w, n', p, q, r)
    {
      if n.parties[p].finalReached {
        var q, r :| Completes(w, n, p, q, r);
        assert Completes(w, n', p, q, r);
      } else {
        assert Completes(w, n', to, x.sender, x.msg.round);
      }
    }
  }

  lemma DeliverKeepsJoining(w: World, n: Net, to: Address, x: Incoming)
    requires Membership(w, n) && Joining(w, n) && Enabled(w, n, Deliver(to, x))
    ensures Joining(w, Delivered(w, n, to, x))
  {
    hide Handle, Extended, Extends, Admits;
    var n' := Delivered(w, n, to, x);
    assert n'.joined == n.joined && n'.proposal == n.proposal && n.sent <= n'.sent && n'.taken == n.taken + {(to, x)};
  }

  /** Steps other than deliveries keep finality and joining. */
  lemma QuietKeepsFinality(w: World, n: Net, step: Step)
    requires Membership(w, n) && Finality(w, n) && !step.Deliver?
    ensures Finality(w, Apply(w, n, step))
  {
    FinalityMonotone(w, n, Apply(w, n, step));
  }

  lemma QuietKeepsJoining(w: World, n: Net, step: Step)
    requires Joining(w, n) && Enabled(w, n, step) && !step.Deliver?
    ensures Joining(w, Apply(w, n, step))
  {
    hide Known, Opening, Opened;
    var n' := Apply(w, n, step);
    assert n'.processed == n.processed && n'.taken == n.taken && n.sent <= n'.sent;
  }

  lemma DeliverKeeps(w: World, n: Net, to: Address, x: Incoming)
    requires WellFormed(w) && Inv(w, n) && Enabled(w, n, Deliver(to, x))
    ensures Inv(w, Delivered(w, n, to, x))
  {
    DeliverKeepsJoining(w, n, to, x);
    if Admits(w.cfg, n.parties[to], x.sender, x.msg) {
      ProcessKeepsMessages(w, n, to, x);
      ProcessKeepsRecords(w, n, to, x);
      ProcessKeepsValues(w, n, to, x);
      ProcessKeepsFinality(w, n, to, x);
    } else {
      DropKeeps(w, n, to, x);
      FinalityMonotone(w, n, Delivered(w, n, to, x));
    }
  }

  /** Every state of every run satisfies the invariant. */
  lemma {:induction false} RunKeeps(w: World, run: Run)
    requires WellFormed(w) && ValidRun(w, run)
    ensures Inv(w, After(w, run))
  {
    if run.Then? {
      RunKeeps(w, run.before);
      StepKeeps(w, After(w, run.before), run.step);
    }
  }

  lemma StepKeeps(w: World, n: Net, step: Step)
    requires WellFormed(w) && Inv(w, n) && Enabled(w, n, step)
    ensures Inv(w, Apply(w, n, step))
  {
    assert Membership(w, n);
    hide Core, Finality, Joining;
    if !step.Deliver? {
      QuietKeepsFinality(w, n, step);
      QuietKeepsJoining(w, n, step);
    }
    match step {
      case Propose(v) => ProposeKeeps(w, n, v);
      case Join(p, m) => JoinKeeps(w, n, p, m);
      case Deliver(to, x) => DeliverKeeps(w, n, to, x);
      case Inject(x) => InjectKeeps(w, n, x);
    }
  }

  /** State `n` occurs in some run. */
  ghost predicate Reached(w: World, n: Net) {
    && WellFormed(w) && n.parties.Keys == w.honest
    && exists run :: ValidRun(w, run) && n == After(w, run)
  }

  lemma ReachedKeeps(w: World, n: Net)
    requires Reached(w, n)
    ensures Inv(w, n)
  {
    var run :| ValidRun(w, run) && n == After(w, run);
    RunKeeps(w, run);
  }

  lemma ProcessedFacts(w: World, n: Net, k: (Address, Address, nat))
    requires Reached(w, n) && k in n.processed
    ensures ProcessedAt(w, n, k)
  {
    ReachedKeeps(w, n);
  }

  lemma ValueFacts(w: World, n: Net, p: Address, k: string)
    requires Reached(w, n) && p in w.honest && k in n.parties[p].values
    ensures Key(n.parties[p].values[k]) == k && Backed(w, n, p, n.parties[p].values[k])
  {
    ReachedKeeps(w, n);
  }

  lemma FinalFacts(w: World, n: Net, p: Address)
    requires Reached(w, n) && p in w.honest && n.parties[p].finalReached
    ensures (p == w.cfg.origin && w.cfg.relayRounds == 1 && n.proposal.Some?) || exists q, r :: Completes(w, n, p, q, r)
  {
    ReachedKeeps(w, n);
  }

  lemma JoinedFacts(w: World, n: Net, p: Address)
    requires Reached(w, n) && p in n.joined
    ensures p in w.honest - {w.cfg.origin} && n.joined[p].round == 0 && Incoming(w.cfg.origin, n.joined[p]) in n.sent
  {
    ReachedKeeps(w, n);
  }

  lemma TakenFacts(w: World, n: Net, p: Address, x: Incoming)
    requires Reached(w, n) && (p, x) in n.taken
    ensures p in w.honest && x in n.sent && Started(w, n, p)
    ensures x.msg.round == 0 ==> p in n.joined && x == Incoming(w.cfg.origin, n.joined[p])
  {
    ReachedKeeps(w, n);
  }

  lemma ProposalFacts(w: World, n: Net)
    requires Reached(w, n) && n.proposal.Some?
    ensures w.cfg.origin in w.honest && Incoming(w.cfg.origin, Opening(w.cfg, n.proposal.value)) in n.sent
    ensures w.cfg.relayRounds == 1 ==> n.parties[w.cfg.origin].finalReached
  {
    ReachedKeeps(w, n);
  }
}
