/**
 Proposer, acceptors and their two broadcasts together: what an acceptor ends with is what
 the proposer proposed, and the committee is the one the proposer announced.
 */
module Committee {
  import opened Wrappers
  import opened Collections
  import opened Messages
  import opened Broadcaster
  import opened Network
  import opened Agreement
  import opened Decisions
  import opened Runs
  import opened Proposals
  import opened Consensus
  import Leader
  import Withdrawal
  import Coins
  import Deposits

  // ---------- an acceptor on top of the proposal broadcast ----------

  /**
   The messages an acceptor handles come from the proposal broadcast that reached state `n`: the first
   proposal is the opening message it joined on, `delivered` is the outcome of that broadcast, and
   `accepts` is the mechanism's verdict on the proposed data.
   */
  ghost predicate OnBroadcast(c: Local, msgs: seq<Msg>, w: World, n: Net, accepts: Value -> bool) {
    && Reached(w, n) && w.cfg.origin == c.proposer && c.self in w.honest - {c.proposer}
    && forall i :: First(c, msgs, i) && msgs[i].body.parsed ==>
         && c.self in n.joined && n.joined[c.self].value == msgs[i].body.value
         && (msgs[i].body.delivered <==> Decides(n.parties[c.self]))
         && (msgs[i].body.verified <==> accepts(msgs[i].body.value))
  }

  /** Stored data is the value of the opening message joined on; its broadcast decided and the mechanism accepted it. */
  lemma StoredByRun(c: Local, msgs: seq<Msg>, w: World, n: Net, accepts: Value -> bool)
    requires OnBroadcast(c, msgs, w, n, accepts) && Consensus.Outcome(c, msgs).sigData.Val?
    ensures c.self in n.joined && n.joined[c.self].value == Consensus.Outcome(c, msgs).sigData
    ensures Decides(n.parties[c.self]) && accepts(Consensus.Outcome(c, msgs).sigData)
  {
    hide Reached;
    AcceptorRuns(c, msgs);
    var i :| First(c, msgs, i) && Agreed(c, msgs[i]) && Consensus.Outcome(c, msgs).sigData == msgs[i].body.value;
  }

  /**
   Under a code-following proposer an acceptor stores nothing but the proposed data, whatever the
   other parties do and however messages are scheduled, and it is the one value its broadcast accepted.
   */
  lemma StoredIsBroadcast(c: Local, msgs: seq<Msg>, w: World, n: Net, accepts: Value -> bool)
    requires OnBroadcast(c, msgs, w, n, accepts) && c.proposer in w.honest && Consensus.Outcome(c, msgs).sigData.Val?
    ensures n.proposal == Some(Consensus.Outcome(c, msgs).sigData)
    ensures var v := Consensus.Outcome(c, msgs).sigData; n.parties[c.self].values == map[Key(v) := v]
  {
    hide Reached;
    StoredByRun(c, msgs, w, n, accepts);
    StoredIsProposed(w, n, c.self);
    OnlyProposed(w, n, c.self, Consensus.Outcome(c, msgs).sigData);
  }

  /**
   Two acceptors that joined on good opening messages store the same data even under a faulty
   proposer, whenever the broadcast tolerates the faults there are.
   */
  lemma StoredAlike(c: Local, msgs: seq<Msg>, c': Local, msgs': seq<Msg>, w: World, n: Net,
                    accepts: Value -> bool, accepts': Value -> bool, m: RoundMessage, m': RoundMessage)
    requires OnBroadcast(c, msgs, w, n, accepts) && Consensus.Outcome(c, msgs).sigData.Val?
    requires OnBroadcast(c', msgs', w, n, accepts') && Consensus.Outcome(c', msgs').sigData.Val?
    requires AllDelivered(w, n) && Tolerates(|Faulty(w)|, |w.honest|, w.cfg.relayRounds)
    requires JoinedOn(w, n, c.self, m) && GoodOpening(w, m) && JoinedOn(w, n, c'.self, m') && GoodOpening(w, m')
    ensures Key(Consensus.Outcome(c, msgs).sigData) == Key(Consensus.Outcome(c', msgs').sigData)
  {
    hide Reached;
    StoredByRun(c, msgs, w, n, accepts);
    StoredByRun(c', msgs', w, n, accepts');
    StoredAgrees(w, n, c.self, m, c'.self, m');
  }

  /**
   With a code-following proposer, up to three relay rounds and at least as many code-following
   parties, an acceptor that reads the proposal and accepts its data stores exactly what was proposed,
   however many parties are faulty.
   */
  lemma ProposalStored(c: Local, msgs: seq<Msg>, w: World, n: Net, accepts: Value -> bool, i: int)
    requires OnBroadcast(c, msgs, w, n, accepts) && AllDelivered(w, n) && c.proposer in w.honest
    requires 1 <= w.cfg.relayRounds <= 3 && |w.honest| >= w.cfg.relayRounds
    requires n.proposal.Some? && n.proposal.value.Val? && accepts(n.proposal.value)
    requires First(c, msgs, i) && msgs[i].body.parsed
    ensures Consensus.Outcome(c, msgs).sigData == n.proposal.value && Consensus.Outcome(c, msgs).acks == [true]
  {
    hide Reached, AllDelivered;
    StoredIsProposed(w, n, c.self);
    HonestOriginDelivery(w, n, c.self);
    AcceptorRuns(c, msgs);
  }

  // ---------- the committee ----------

  /** How a sign-start payload is represented in its broadcast. */
  function SignStartValue(encode: seq<Address> -> string, parties: Option<seq<Address>>): Value {
    match parties
    case None => Nil
    case Some(list) => Val(encode(list))
  }

  /**
   The sign-start an acceptor handles comes from the sign-start broadcast that reached state `n`: if it
   is readable it is the opening message the acceptor joined on, and `delivered` is the outcome of that
   broadcast.
   */
  ghost predicate OnSignStarts(c: Local, msgs: seq<Msg>, w: World, n: Net, encode: seq<Address> -> string) {
    && Reached(w, n) && w.cfg.origin == c.proposer && c.self in w.honest - {c.proposer}
    && forall i, j :: Handled(c, msgs, i, j) && msgs[j].body.parsed ==>
         && c.self in n.joined && n.joined[c.self].value == SignStartValue(encode, msgs[j].body.parties)
         && (msgs[j].body.delivered <==> Decides(n.parties[c.self]))
  }

  /** Under a code-following proposer, the sign-start an acceptor handles has the announced list. */
  lemma AnnouncedList(c: Local, msgs: seq<Msg>, w: World, n: Net, encode: seq<Address> -> string, list: seq<Address>)
    requires OnSignStarts(c, msgs, w, n, encode) && c.proposer in w.honest
    requires forall a, b :: encode(a) == encode(b) ==> a == b
    requires n.proposal == Some(Val(encode(list)))
    ensures Announced(c, msgs, list)
    ensures forall i, j :: Handled(c, msgs, i, j) && msgs[j].body.parsed ==>
              msgs[j].body.parties == Some(list) && (Carries(msgs[j], list) <==> Decides(n.parties[c.self]))
  {
    forall i, j | Handled(c, msgs, i, j) && msgs[j].body.parsed
      ensures msgs[j].body.parties == Some(list)
    {
      StoredIsProposed(w, n, c.self);
    }
  }

  /**
   One committee: a code-following proposer announces T+1 distinct members; every acceptor that ends
   with signers is one of them and arrives, with itself, at exactly these members in the same sorted
   order as the proposer. An acceptor that stored the data, knows the members and reads the next
   sign-start gets signers exactly if it is a member and the sign-start broadcast decides for it.
   */
  lemma CommitteeOfBoth(self: Address, threshold: nat, answers: seq<Msg>, signers: seq<Address>,
                        announced: seq<seq<Address>>, c: Local, msgs: seq<Msg>, w: World, n: Net,
                        encode: seq<Address> -> string, key: Leader.Key)
    requires Announces(self, threshold, answers, signers, announced) && c.proposer == self
    requires OnSignStarts(c, msgs, w, n, encode) && self in w.honest && n.proposal == Some(Val(encode(announced[0])))
    requires (forall a, b :: encode(a) == encode(b) ==> a == b) && KeysDiffer(Elements(announced[0]), key)
    ensures |Elements(announced[0])| == threshold + 1
    ensures var r := Consensus.Outcome(c, msgs).signers;
            && (c.self !in announced[0] ==> r.None?)
            && (r.Some? ==>
                  && c.self in announced[0] && |r.value| == threshold
                  && Elements([c.self] + r.value) == Elements(announced[0])
                  && Leader.SortPartyIds([c.self] + r.value, key) == Leader.SortPartyIds([self] + signers, key))
    ensures forall i, j :: Handled(c, msgs, i, j) && msgs[j].body.parsed && DistinctKnown(c, announced[0]) ==>
              (Consensus.Outcome(c, msgs).signers.Some? <==> c.self in announced[0] && Decides(n.parties[c.self]))
  {
    hide Reached;
    AnnouncedList(c, msgs, w, n, encode, announced[0]);
    OneCommittee(c, msgs, signers, key);
    forall i, j | Handled(c, msgs, i, j) && msgs[j].body.parsed
      ensures Consensus.Outcome(c, msgs).signers.Some? ==> Carries(msgs[j], announced[0])
    {
      HandledRun(c, msgs, i, j);
    }
  }

  /**
   The whole committee forms: with a code-following proposer, up to three relay rounds and at least as
   many code-following parties, every named acceptor that stored the data, knows the members and reads
   the next sign-start ends with the other T members, however many parties are faulty.
   */
  lemma CommitteeForms(self: Address, threshold: nat, answers: seq<Msg>, signers: seq<Address>,
                       announced: seq<seq<Address>>, c: Local, msgs: seq<Msg>, w: World, n: Net,
                       encode: seq<Address> -> string, key: Leader.Key, i: int, j: int)
    requires Announces(self, threshold, answers, signers, announced) && c.proposer == self && c.self in announced[0]
    requires OnSignStarts(c, msgs, w, n, encode) && self in w.honest && n.proposal == Some(Val(encode(announced[0])))
    requires (forall a, b :: encode(a) == encode(b) ==> a == b) && KeysDiffer(Elements(announced[0]), key)
    requires AllDelivered(w, n) && 1 <= w.cfg.relayRounds <= 3 && |w.honest| >= w.cfg.relayRounds
    requires Handled(c, msgs, i, j) && msgs[j].body.parsed && DistinctKnown(c, announced[0])
    ensures var r := Consensus.Outcome(c, msgs).signers;
            && r.Some? && |r.value| == threshold && Elements([c.self] + r.value) == Elements(announced[0])
            && Leader.SortPartyIds([c.self] + r.value, key) == Leader.SortPartyIds([self] + signers, key)
  {
    hide Reached, AllDelivered, Decides;
    HonestOriginDelivery(w, n, c.self);
    CommitteeOfBoth(self, threshold, answers, signers, announced, c, msgs, w, n, encode, key);
  }

  // ---------- what is agreed on ----------

  /** An acceptor's verdict on a withdrawal: the deposit is pending, or unknown and fetched, and the data is valid for it. */
  ghost predicate Judges(accepts: Value -> bool, rows: Deposits.Rows, idOf: Value -> Deposits.Identifier,
                         fetched: Value -> Option<Deposits.Deposit>, isValid: (Value, Deposits.Deposit) -> bool) {
    forall v :: accepts(v) <==> Deposits.Acceptable(rows, idOf(v), fetched(v), d => isValid(v, d))
  }

  /** Data is stored only for a deposit whose row has not left PENDING. */
  lemma StoredIsPending(c: Local, msgs: seq<Msg>, w: World, n: Net, accepts: Value -> bool, rows: Deposits.Rows,
                        idOf: Value -> Deposits.Identifier, fetched: Value -> Option<Deposits.Deposit>,
                        isValid: (Value, Deposits.Deposit) -> bool)
    requires OnBroadcast(c, msgs, w, n, accepts) && Consensus.Outcome(c, msgs).sigData.Val?
    requires Deposits.Unique(rows) && Judges(accepts, rows, idOf, fetched, isValid)
    ensures !Deposits.Settled(rows, idOf(Consensus.Outcome(c, msgs).sigData))
  {
    hide Reached;
    StoredByRun(c, msgs, w, n, accepts);
    var v := Consensus.Outcome(c, msgs).sigData;
    if Deposits.Has(rows, idOf(v)) {
      var i :| 0 <= i < |rows| && rows[i].id == idOf(v) && rows[i].status == Deposits.Pending;
      Deposits.PendingNotSettled(rows, i);
    }
  }

  /**
   A UTXO withdrawal from end to end: with up to three relay rounds and at least as many code-following
   parties, what one of them builds as proposer for a deposit from its wallet is stored and acknowledged
   by every other that has the deposit and the spent coins.
   */
  lemma WithdrawalAgreed(c: Local, msgs: seq<Msg>, w: World, n: Net, accepts: Value -> bool, i: int,
                         h: Withdrawal.Helper, deposit: Withdrawal.Deposit, wallet: seq<Coins.Coin>,
                         estimated: Option<int>, tssAddr: string, theirs: seq<Coins.Coin>,
                         hash: Withdrawal.Proposal -> string)
    requires OnBroadcast(c, msgs, w, n, accepts) && AllDelivered(w, n) && c.proposer in w.honest
    requires 1 <= w.cfg.relayRounds <= 3 && |w.honest| >= w.cfg.relayRounds
    requires First(c, msgs, i) && msgs[i].body.parsed && Withdrawal.Arranges(h) && Withdrawal.UniquePoints(theirs)
    requires var rate := Withdrawal.EstimateFeeOrDefault(estimated);
             var data := Withdrawal.FormSigningData(h, deposit, wallet, rate, tssAddr);
             && data.Some? && n.proposal == Some(Val(hash(data.value)))
             && (forall coin :: coin in wallet && coin.point in data.value.serializedTx.tx.ins ==> coin in theirs)
             && (accepts(Val(hash(data.value))) <==> Withdrawal.IsValid(h, data.value, deposit, theirs, tssAddr))
    ensures Some(Consensus.Outcome(c, msgs).sigData) == n.proposal && Consensus.Outcome(c, msgs).acks == [true]
  {
    hide Reached, AllDelivered;
    Withdrawal.ProposalAccepted(h, deposit, wallet, estimated, tssAddr, theirs);
    ProposalStored(c, msgs, w, n, accepts, i);
  }
}
