/**
 Routing of requests into the channels of one consensus session: opening messages and
 acceptances wake the party's own loop, later rounds go straight to the broadcast they belong to.
 */
module Inbox {
  import opened Wrappers
  import opened Messages
  import opened Broadcaster

  datatype Kind = ProposalKind | SignStartKind | AcceptanceKind | OtherKind

  /** A request: `sender` is none when the address does not parse, `round` when the payload does not decode. */
  datatype Submitted = Submitted(sessionId: string, sender: Option<Address>, kind: Kind, round: Option<RoundMessage>)

  predicate Reliable(k: Kind) {
    k == ProposalKind || k == SignStartKind
  }

  /** The request belongs to this session, comes from a peer and carries what its type needs. */
  predicate Accepted(sessionId: string, peers: set<Address>, r: Submitted) {
    && r.sessionId == sessionId && r.sender.Some? && r.sender.value in peers
    && (r.kind == AcceptanceKind || (Reliable(r.kind) && r.round.Some?))
  }

  /** The later-round messages of one kind among the accepted requests, in order of arrival. */
  function LaterRounds(sessionId: string, peers: set<Address>, rs: seq<Submitted>, k: Kind): seq<Incoming> {
    if rs == [] then []
    else
      var before, r := LaterRounds(sessionId, peers, rs[..|rs| - 1], k), rs[|rs| - 1];
      if Accepted(sessionId, peers, r) && r.kind == k && r.round.Some? && r.round.value.round != 0
      then before + [Incoming(r.sender.value, r.round.value)] else before
  }

  /** Acceptances and opening messages among the accepted requests, in order of arrival. */
  function ForTheLoop(sessionId: string, peers: set<Address>, rs: seq<Submitted>): seq<Submitted> {
    if rs == [] then []
    else
      var before, r := ForTheLoop(sessionId, peers, rs[..|rs| - 1]), rs[|rs| - 1];
      if Accepted(sessionId, peers, r) && (r.kind == AcceptanceKind || r.round.value.round == 0)
      then before + [r] else before
  }

  class Channels {
    const sessionId: string
    const peers: set<Address>
    var msgs: seq<Submitted>
    var proposals: seq<Incoming>
    var signStarts: seq<Incoming>
    /** Everything received so far. */
    ghost var history: seq<Submitted>

    /** Each channel holds exactly its own accepted requests, in order of arrival. */
    ghost predicate Valid()
      reads this
    {
      && msgs == ForTheLoop(sessionId, peers, history)
      && proposals == LaterRounds(sessionId, peers, history, ProposalKind)
      && signStarts == LaterRounds(sessionId, peers, history, SignStartKind)
    }

    constructor (sessionId: string, peers: set<Address>)
      ensures Valid() && this.sessionId == sessionId && this.peers == peers && history == []
    {
      this.sessionId, this.peers := sessionId, peers;
      msgs, proposals, signStarts, history := [], [], [], [];
    }

    method Receive(r: Submitted) returns (ok: bool)
      requires Valid()
      modifies this
      ensures Valid() && history == old(history) + [r]
      ensures ok <==> Accepted(sessionId, peers, r)
      ensures ok <==>
                && r.sessionId == sessionId && r.sender.Some? && r.sender.value in peers
                && match r.kind
                   case AcceptanceKind => true
                   case ProposalKind => r.round.Some?
                   case SignStartKind => r.round.Some?
                   case OtherKind => false
      // exactly one channel gets the request, the loop if it is an acceptance or an opening
      ensures msgs == old(msgs) + if ok && (r.kind == AcceptanceKind || r.round.value.round == 0) then [r] else []
      ensures proposals == old(proposals) + if ok && r.kind == ProposalKind && r.round.value.round > 0
                                            then [Incoming(r.sender.value, r.round.value)] else []
      ensures signStarts == old(signStarts) + if ok && r.kind == SignStartKind && r.round.value.round > 0
                                              then [Incoming(r.sender.value, r.round.value)] else []
    {
      history := history + [r];
      assert history[..|history| - 1] == old(history);
      if r.sessionId != sessionId || r.sender.None? || r.sender.value !in peers {
        return false;
      }
      if r.kind == AcceptanceKind {
        msgs := msgs + [r];
        return true;
      }
      if !Reliable(r.kind) || r.round.None? {
        return false;
      }
      if r.round.value.round == 0 {
        msgs := msgs + [r];
      } else if r.kind == ProposalKind {
        proposals := proposals + [Incoming(r.sender.value, r.round.value)];
      } else {
        signStarts := signStarts + [Incoming(r.sender.value, r.round.value)];
      }
      return true;
    }
  }

  /**
   What a broadcast takes from its channel was sent by a peer, so never by the party itself, and is no
   opening; no accepted request is lost or doubled.
   */
  lemma {:induction false} OnlyPeersLater(sessionId: string, peers: set<Address>, rs: seq<Submitted>, k: Kind)
    ensures forall x :: x in LaterRounds(sessionId, peers, rs, k) ==> x.sender in peers && x.msg.round > 0
    ensures |ForTheLoop(sessionId, peers, rs)| + |LaterRounds(sessionId, peers, rs, ProposalKind)|
            + |LaterRounds(sessionId, peers, rs, SignStartKind)| == |Kept(sessionId, peers, rs)|
  {
    if rs != [] {
      OnlyPeersLater(sessionId, peers, rs[..|rs| - 1], k);
    }
  }

  /** The accepted requests. */
  function Kept(sessionId: string, peers: set<Address>, rs: seq<Submitted>): seq<Submitted> {
    if rs == [] then []
    else Kept(sessionId, peers, rs[..|rs| - 1]) + if Accepted(sessionId, peers, rs[|rs| - 1]) then [rs[|rs| - 1]] else []
  }
}
