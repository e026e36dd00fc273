/**
 Consensus on what to sign and who signs it: the proposer collects answers and names
 the signers, each acceptor runs through the messages of the session.

 The outcome of a call into another component (decoding, the reliable broadcast,
 verification of the proposal, sending) is part of the message being handled.
 */
module Consensus {
  import opened Wrappers
  import opened Collections
  import opened Messages
  import Leader

  datatype Request =
    | Proposal(parsed: bool, delivered: bool, value: Value, verified: bool, sent: bool)
    | SignStart(parsed: bool, delivered: bool, parties: Option<seq<Address>>)
    | Acceptance(parsed: bool, accepted: bool)
    | Unsupported

  datatype Msg = Msg(sender: Address, body: Request)

  datatype Error =
    | BadMessage | NotDelivered | Rejected | SendFailed | BadSigners | Panicked | Timeout
    | NoProposal | BroadcastFailed | TooFewAcceptances

  /** `c.result`, and the acknowledgments handed to the transport. */
  datatype Result = Result(sigData: Value, signers: Option<seq<Address>>, err: Option<Error>, acks: seq<bool>)

  const EMPTY := Result(Nil, None, None, [])

  // ---------- proposer ----------

  /** How a party answered: its first readable acceptance message counts, later ones are ignored. */
  function FirstAnswer(msgs: seq<Msg>, p: Address): Option<bool> {
    if msgs == [] then None
    else if msgs[0].sender == p && msgs[0].body.Acceptance? && msgs[0].body.parsed then Some(msgs[0].body.accepted)
    else FirstAnswer(msgs[1..], p)
  }

  lemma {:induction false} FirstAnswerAppend(msgs: seq<Msg>, m: Msg, p: Address)
    ensures FirstAnswer(msgs + [m], p)
         == if FirstAnswer(msgs, p).Some? then FirstAnswer(msgs, p) else FirstAnswer([m], p)
  {
    if msgs == [] {
      assert [] + [m] == [m];
    } else {
      assert (msgs + [m])[1..] == msgs[1..] + [m];
      FirstAnswerAppend(msgs[1..], m, p);
    }
  }

  predicate IsAnswer(m: Msg, p: Address) {
    m.sender == p && m.body.Acceptance? && m.body.parsed
  }

  /** An answer is that of the party's first readable acceptance message; there is none exactly if it sent none. */
  lemma {:induction false} FirstAnswerIs(msgs: seq<Msg>, p: Address)
    ensures FirstAnswer(msgs, p).None? <==> forall i :: 0 <= i < |msgs| ==> !IsAnswer(msgs[i], p)
    ensures forall i :: 0 <= i < |msgs| && IsAnswer(msgs[i], p) && (forall j :: 0 <= j < i ==> !IsAnswer(msgs[j], p))
              ==> FirstAnswer(msgs, p) == Some(msgs[i].body.accepted)
  {
    if msgs != [] {
      FirstAnswerIs(msgs[1..], p);
      forall i | 0 <= i < |msgs| && IsAnswer(msgs[i], p) && (forall j :: 0 <= j < i ==> !IsAnswer(msgs[j], p))
        ensures FirstAnswer(msgs, p) == Some(msgs[i].body.accepted)
      {
        if i > 0 {
          assert !IsAnswer(msgs[0], p) && msgs[1..][i - 1] == msgs[i];
          assert forall j :: 0 <= j < i - 1 ==> msgs[1..][j] == msgs[j + 1];
        }
      }
      assert forall i :: 1 <= i < |msgs| ==> msgs[i] == msgs[1..][i - 1];
    }
  }

  /** The acceptance map that the proposer has built from `msgs`. */
  ghost predicate Collected(acceptances: map<Address, bool>, msgs: seq<Msg>) {
    forall p :: FirstAnswer(msgs, p) == if p in acceptances then Some(acceptances[p]) else None
  }

  /** The accepting parties, in the arbitrary order of a map traversal. */
  method Acceptors(acceptances: map<Address, bool>) returns (acceptors: seq<Address>)
    ensures NoDup(acceptors)
    ensures forall p :: p in acceptors <==> p in acceptances && acceptances[p]
  {
    acceptors := [];
    var rest := acceptances.Keys;
    while rest != {}
      invariant rest <= acceptances.Keys && NoDup(acceptors)
      invariant forall p :: p in acceptors <==> p in acceptances && acceptances[p] && p !in rest
      decreases |rest|
    {
      var party :| party in rest;
      rest := rest - {party};
      if acceptances[party] {
        acceptors := acceptors + [party];
      }
    }
  }

  /** What is left after deleting at one drawn position after the other. */
  function Remaining(signers: seq<Address>, draws: seq<nat>): (left: seq<Address>)
    requires |draws| <= |signers|
    ensures |left| == |signers| - |draws|
  {
    if draws == [] then signers
    else
      var before := Remaining(signers, draws[..|draws| - 1]);
      var idx := draws[|draws| - 1] % |before|;
      before[..idx] + before[idx + 1..]
  }

  lemma OneMoreDraw(signers: seq<Address>, draws: seq<nat>, d: nat)
    requires |draws| < |signers|
    ensures var before := Remaining(signers, draws);
            var idx := d % |before|;
            Remaining(signers, draws + [d]) == before[..idx] + before[idx + 1..]
  {
    assert (draws + [d])[..|draws|] == draws;
  }

  lemma DeleteOne(s: seq<Address>, idx: nat)
    requires NoDup(s) && idx < |s|
    ensures NoDup(s[..idx] + s[idx + 1..]) && Elements(s[..idx] + s[idx + 1..]) == Elements(s) - {s[idx]}
  {
    var t := s[..idx] + s[idx + 1..];
    forall x | x in s && x != s[idx]
      ensures x in t
    {
      var i :| 0 <= i < |s| && s[i] == x;
      assert t[if i < idx then i else i - 1] == x;
    }
  }

  lemma WithinRange(d: int, n: int)
    requires 0 <= d < n
    ensures d % n == d
  {
  }

  lemma DrawOut(signers: seq<Address>, draws: seq<nat>, a: Address) returns (more: seq<nat>)
    requires |draws| < |signers| && NoDup(Remaining(signers, draws)) && a in Elements(Remaining(signers, draws))
    ensures |more| == |draws| + 1 && NoDup(Remaining(signers, more))
    ensures Elements(Remaining(signers, more)) == Elements(Remaining(signers, draws)) - {a}
  {
    var before := Remaining(signers, draws);
    var idx :| 0 <= idx < |before| && before[idx] == a;
    hide NoDup, Elements, Remaining;
    DeleteOne(before, idx);
    OneMoreDraw(signers, draws, idx);
    WithinRange(idx, |before|);
    more := draws + [idx];
    assert Remaining(signers, more) == before[..idx] + before[idx + 1..];
  }

  lemma Missing(kept: set<Address>, all: set<Address>) returns (a: Address)
    requires kept <= all && kept != all
    ensures a in all && a !in kept && |kept| < |all| && |kept + {a}| == |kept| + 1
  {
    assert exists x :: x in all && x !in kept;
    a :| a in all && a !in kept;
    SubsetCount(kept + {a}, all);
  }

  /** No choice is excluded: every set of candidates is what some draws leave. */
  lemma {:induction false} AnyoneSelected(signers: seq<Address>, kept: set<Address>) returns (draws: seq<nat>)
    requires NoDup(signers) && kept <= Elements(signers)
    ensures |draws| + |kept| == |signers| && NoDup(Remaining(signers, draws)) && Elements(Remaining(signers, draws)) == kept
    decreases |Elements(signers)| - |kept|
  {
    ElementsCount(signers);
    if kept == Elements(signers) {
      draws := [];
    } else {
      var a := Missing(kept, Elements(signers));
      hide NoDup, Elements, Remaining;
      SubsetCount(kept + {a}, Elements(signers));
      draws := AnyoneSelected(signers, kept + {a});
      draws := DrawOut(signers, draws, a);
      assert kept + {a} - {a} == kept;
    }
  }

  /** The first `n` numbers drawn. */
  function Drawn(draw: nat -> nat, n: nat): (draws: seq<nat>)
    ensures |draws| == n
  {
    if n == 0 then [] else Drawn(draw, n - 1) + [draw(n - 1)]
  }

  /** Deletes signers at drawn positions until `threshold` of them are left. */
  method GetSignersSet(signers: seq<Address>, threshold: nat, draw: nat -> nat) returns (selected: seq<Address>)
    requires NoDup(signers)
    ensures |selected| == if |signers| < threshold then |signers| else threshold
    ensures NoDup(selected) && Elements(selected) <= Elements(signers)
    ensures selected == Remaining(signers, Drawn(draw, if |signers| < threshold then 0 else |signers| - threshold))
  {
    hide NoDup, Elements;
    selected := signers;
    var toRemove := |signers| - threshold;
    var i := 0;
    while i < toRemove
      invariant 0 <= i && (toRemove >= 0 ==> i <= toRemove) && (toRemove < 0 ==> i == 0)
      invariant |selected| == |signers| - i && NoDup(selected) && Elements(selected) <= Elements(signers)
      invariant selected == Remaining(signers, Drawn(draw, i))
    {
      var idx := draw(i) % |selected|;
      OneMoreDraw(signers, Drawn(draw, i), draw(i));
      DeleteOne(selected, idx);
      selected := selected[..idx] + selected[idx + 1..];
      i := i + 1;
    }
  }

  /** T distinct parties whose first answer was acceptance are announced together with the proposer, T+1 members in all. */
  predicate Announces(self: Address, threshold: nat, msgs: seq<Msg>, signers: seq<Address>, announced: seq<seq<Address>>) {
    && |signers| == threshold && announced == [signers + [self]]
    && NoDup(announced[0]) && |announced[0]| == threshold + 1
    && forall p :: p in signers ==> FirstAnswer(msgs, p) == Some(true)
  }

  lemma {:induction false} AnswerSent(msgs: seq<Msg>, p: Address)
    requires FirstAnswer(msgs, p).Some?
    ensures exists m :: m in msgs && m.sender == p
  {
    if msgs[0].sender == p {
      assert msgs[0] in msgs;
    } else {
      AnswerSent(msgs[1..], p);
      var m :| m in msgs[1..] && m.sender == p;
      assert m in msgs;
    }
  }

  /** No list of accepting parties is longer than one that holds all of them. */
  lemma TooFew(possible: seq<Address>, msgs: seq<Msg>)
    requires forall p :: FirstAnswer(msgs, p) == Some(true) ==> p in possible
    ensures forall s :: NoDup(s) && (forall p :: p in s ==> FirstAnswer(msgs, p) == Some(true)) ==> |s| <= |possible|
  {
    forall s | NoDup(s) && (forall p :: p in s ==> FirstAnswer(msgs, p) == Some(true))
      ensures |s| <= |possible|
    {
      ElementsCount(s);
      ElementsCount(possible);
      assert Elements(s) <= Elements(possible);
      SubsetCount(Elements(s), Elements(possible));
    }
  }

  class Proposer {
    const self: Address
    const threshold: nat
    var result: Result
    /** The sign-start lists handed to the reliable broadcast. */
    var announced: seq<seq<Address>>

    constructor (self: Address, threshold: nat)
      ensures this.self == self && this.threshold == threshold && result == EMPTY && announced == []
    {
      this.self, this.threshold, this.result, this.announced := self, threshold, EMPTY, [];
    }

    /**
     One session as proposer. `formed` is what the mechanism proposes (none if it failed), `msgs`
     what arrives before the acceptance boundary, `cancelled` whether the session ends before that,
     `draw` the seeded generator.
     */
    method Propose(formed: Option<Value>, proposalDelivered: bool, msgs: seq<Msg>, cancelled: bool, draw: nat -> nat,
                   startDelivered: bool)
      requires result == EMPTY && announced == []
      // only requests of peers are routed to the loop
      requires forall m :: m in msgs ==> m.sender != self
      modifies this
      ensures result.signers.Some? ==> Announces(self, threshold, msgs, result.signers.value, announced)
      ensures result.signers.Some? ==>
                && formed.Some? && formed.value.Val? && result.sigData == formed.value && proposalDelivered && !cancelled
                && (result.err.None? <==> startDelivered)
      ensures result.signers.None? ==> announced == []
      ensures result.err.None? && result.sigData.Val? ==> result.signers.Some?
      ensures result.signers.None? ==>
                && result.acks == []
                && if formed.None? then result.sigData.Nil? && result.err == Some(NoProposal)
                   else if !proposalDelivered then result.sigData.Nil? && result.err == Some(BroadcastFailed)
                   else if formed.value.Nil? then result == EMPTY
                   else if cancelled then result.sigData == formed.value && result.err == Some(Timeout)
                   else result.sigData == formed.value && result.err == Some(TooFewAcceptances)
                        && forall s :: NoDup(s) && (forall p :: p in s ==> FirstAnswer(msgs, p) == Some(true)) ==> |s| < threshold
    {
      if formed.None? {
        result := result.(err := Some(NoProposal));
        return;
      }
      if !proposalDelivered {
        result := result.(err := Some(BroadcastFailed));
        return;
      }
      if formed.value.Nil? {
        return;
      }
      result := result.(sigData := formed.value);
      var acceptances := Collect(msgs);
      if cancelled {
        result := result.(err := Some(Timeout));
        return;
      }
      var possible := Acceptors(acceptances);
      if |possible| + 1 <= threshold {
        TooFew(possible, msgs);
        result := result.(err := Some(TooFewAcceptances));
        return;
      }
      var signers := GetSignersSet(possible, threshold, draw);
      assert forall p :: p in signers ==> p in Elements(signers);
      forall p | p in signers
        ensures p != self
      {
        AnswerSent(msgs, p);
      }
      AppendNoDup(signers, self);
      result := result.(signers := Some(signers));
      announced := announced + [signers + [self]];
      if !startDelivered {
        result := result.(err := Some(BroadcastFailed));
      }
    }

    method Collect(msgs: seq<Msg>) returns (acceptances: map<Address, bool>)
      ensures Collected(acceptances, msgs)
    {
      acceptances := map[];
      var i := 0;
      assert msgs[..0] == [];
      while i < |msgs|
        invariant 0 <= i <= |msgs|
        invariant Collected(acceptances, msgs[..i])
      {
        var m := msgs[i];
        forall p
          ensures FirstAnswer(msgs[..i + 1], p)
               == if FirstAnswer(msgs[..i], p).Some? then FirstAnswer(msgs[..i], p) else FirstAnswer([m], p)
        {
          FirstAnswerAppend(msgs[..i], m, p);
          assert msgs[..i] + [m] == msgs[..i + 1];
        }
        assert forall p :: FirstAnswer([m], p) == if m.sender == p && m.body.Acceptance? && m.body.parsed
                                                  then Some(m.body.accepted) else None by {
          assert [m][1..] == [];
        }
        i := i + 1;
        if !m.body.Acceptance? || m.sender in acceptances || !m.body.parsed {
          continue;
        }
        acceptances := acceptances[m.sender := m.body.accepted];
      }
      assert msgs[..i] == msgs;
    }
  }

  // ---------- acceptor ----------

  /** What an acceptor knows before the session: itself, its peers and the session leader. */
  datatype Local = Local(self: Address, peers: set<Address>, proposer: Address)

  function Without(s: seq<Address>, a: Address): seq<Address> {
    if s == [] then []
    else if s[0] == a then Without(s[1..], a)
    else [s[0]] + Without(s[1..], a)
  }

  /** A sign-start list is accepted when it names distinct known parties. */
  predicate GoodList(c: Local, list: seq<Address>) {
    NoDup(list) && forall i :: 0 <= i < |list| ==> list[i] == c.self || list[i] in c.peers
  }

  datatype Acceptor = Acceptor(result: Result, accepted: bool, ended: bool)

  const BEGIN := Acceptor(EMPTY, false, false)

  function Fail(s: Acceptor, e: Error): Acceptor {
    s.(result := s.result.(err := Some(e)), ended := true)
  }

  function OnProposal(s: Acceptor, r: Request): Acceptor
    requires r.Proposal?
  {
    if s.accepted then s
    else if !r.parsed then Fail(s, BadMessage)
    else if !r.delivered then Fail(s, NotDelivered)
    else if r.value.Nil? then s.(ended := true)
    else if !r.verified then Fail(s.(result := s.result.(acks := s.result.acks + [false])), Rejected)
    else s.(result := s.result.(sigData := r.value, acks := s.result.acks + [true],
                                err := if r.sent then s.result.err else Some(SendFailed)),
            accepted := true)
  }

  function OnSignStart(c: Local, s: Acceptor, r: Request): Acceptor
    requires r.SignStart?
  {
    if !s.accepted then s
    else if !r.parsed then Fail(s, BadMessage)
    else if !r.delivered then Fail(s, NotDelivered)
    else if r.parties.None? then Fail(s, BadMessage)
    else if r.parties.value == [] then Fail(s, Panicked)
    else if !GoodList(c, r.parties.value) then Fail(s, BadSigners)
    else if c.self !in r.parties.value then s.(ended := true)
    else s.(result := s.result.(signers := Some(Without(r.parties.value, c.self))), ended := true)
  }

  function OnMsg(c: Local, s: Acceptor, m: Msg): Acceptor {
    if s.ended || m.sender != c.proposer then s
    else match m.body
      case Proposal(_, _, _, _, _) => OnProposal(s, m.body)
      case SignStart(_, _, _) => OnSignStart(c, s, m.body)
      case _ => s
  }

  /** The acceptor after the messages `msgs`, oldest first. */
  function AcceptRun(c: Local, msgs: seq<Msg>): Acceptor {
    if msgs == [] then BEGIN else OnMsg(c, AcceptRun(c, msgs[..|msgs| - 1]), msgs[|msgs| - 1])
  }

  /** The result once the session context is done. */
  function Outcome(c: Local, msgs: seq<Msg>): Result {
    var s := AcceptRun(c, msgs);
    if s.ended then s.result else s.result.(err := Some(Timeout))
  }

  lemma {:induction false} WithoutAppend(s: seq<Address>, b: Address, a: Address)
    ensures Without(s + [b], a) == Without(s, a) + if b == a then [] else [b]
  {
    if s != [] {
      assert (s + [b])[1..] == s[1..] + [b];
      WithoutAppend(s[1..], b, a);
    }
  }

  class Party {
    const local: Local
    var result: Result

    constructor (local: Local)
      ensures this.local == local && result == EMPTY
    {
      this.local, this.result := local, EMPTY;
    }

    method Accept(msgs: seq<Msg>)
      requires result == EMPTY
      modifies this
      ensures result == Outcome(local, msgs)
    {
      var proposalAccepted := false;
      var i := 0;
      assert msgs[..0] == [];
      while i < |msgs|
        invariant 0 <= i <= |msgs|
        invariant AcceptRun(local, msgs[..i]) == Acceptor(result, proposalAccepted, false)
        invariant proposalAccepted <==> result.sigData.Val?
      {
        var m := msgs[i];
        assert msgs[..i + 1][..i] == msgs[..i];
        i := i + 1;
        if m.sender != local.proposer {
          continue;
        }
        match m.body {
          case Proposal(_, _, _, _, _) =>
            if proposalAccepted {
              continue;
            }
            var failed := HandleProposal(m.body);
            if failed.Some? {
              result := result.(err := failed);
              EndedStays(local, msgs, i);
              return;
            }
            if result.sigData.Nil? {
              EndedStays(local, msgs, i);
              return;
            }
            proposalAccepted := true;
          case SignStart(_, _, _) =>
            if !proposalAccepted {
              continue;
            }
            var failed := HandleSignStart(m.body);
            if failed.Some? {
              result := result.(err := failed);
            }
            EndedStays(local, msgs, i);
            return;
          case _ =>
        }
      }
      assert msgs[..i] == msgs;
      result := result.(err := Some(Timeout));
    }

    method HandleProposal(r: Request) returns (failed: Option<Error>)
      requires r.Proposal? && result.sigData.Nil?
      modifies this
      ensures var s := OnProposal(Acceptor(old(result), false, false), r);
              && (failed.Some? ==> s == Fail(Acceptor(result, false, false), failed.value))
              && (failed.None? ==> s == Acceptor(result, result.sigData.Val?, result.sigData.Nil?))
    {
      if !r.parsed {
        return Some(BadMessage);
      }
      if !r.delivered {
        return Some(NotDelivered);
      }
      if r.value.Nil? {
        return None;
      }
      if !r.verified {
        result := result.(acks := result.acks + [false]);
        return Some(Rejected);
      }
      result := result.(sigData := r.value, acks := result.acks + [true]);
      if !r.sent {
        result := result.(err := Some(SendFailed));
      }
      return None;
    }

    method HandleSignStart(r: Request) returns (failed: Option<Error>)
      requires r.SignStart?
      modifies this
      ensures var s := OnSignStart(local, Acceptor(old(result), true, false), r);
              && (failed.Some? ==> s == Fail(Acceptor(result, true, false), failed.value))
              && (failed.None? ==> s == Acceptor(result, true, true))
    {
      if !r.parsed {
        return Some(BadMessage);
      }
      if !r.delivered {
        return Some(NotDelivered);
      }
      if r.parties.None? {
        return Some(BadMessage);
      }
      var list := r.parties.value;
      if |list| == 0 {
        return Some(Panicked);
      }
      var signing: seq<Address> := [];
      var distinct: set<Address> := {};
      var selfPresent := false;
      var i := 0;
      while i < |list|
        invariant 0 <= i <= |list|
        invariant result == old(result)
        invariant distinct == Elements(list[..i]) && NoDup(list[..i])
        invariant forall k :: 0 <= k < i ==> list[k] == local.self || list[k] in local.peers
        invariant selfPresent <==> local.self in list[..i]
        invariant signing == Without(list[..i], local.self)
      {
        var p := list[i];
        assert list[..i + 1] == list[..i] + [p];
        WithoutAppend(list[..i], p, local.self);
        if p in distinct {
          var k :| 0 <= k < i && list[k] == p;
          assert !NoDup(list);
          return Some(BadSigners);
        }
        distinct := distinct + {p};
        if p == local.self {
          selfPresent := true;
        } else {
          if p !in local.peers {
            assert !(list[i] == local.self || list[i] in local.peers);
            return Some(BadSigners);
          }
          signing := signing + [p];
        }
        i := i + 1;
      }
      assert list[..i] == list;
      assert GoodList(local, list);
      if selfPresent {
        result := result.(signers := Some(signing));
      }
      return None;
    }
  }

  lemma {:induction false} EndedStays(c: Local, msgs: seq<Msg>, i: nat)
    requires i <= |msgs| && AcceptRun(c, msgs[..i]).ended
    ensures AcceptRun(c, msgs) == AcceptRun(c, msgs[..i])
    decreases |msgs|
  {
    if i == |msgs| {
      assert msgs[..i] == msgs;
    } else {
      var before := msgs[..|msgs| - 1];
      assert before[..i] == msgs[..i];
      EndedStays(c, before, i);
    }
  }

  // ---------- acceptor runs ----------

  /** A proposal that makes an acceptor store and acknowledge its value. */
  predicate Agreed(c: Local, m: Msg) {
    && m.sender == c.proposer && m.body.Proposal?
    && m.body.parsed && m.body.delivered && m.body.value.Val? && m.body.verified
  }

  /** No party is listed twice, and all are the local one or its peers. */
  predicate DistinctKnown(c: Local, list: seq<Address>) {
    |Elements(list)| == |list| && Elements(list) <= c.peers + {c.self}
  }

  lemma GoodListIs(c: Local, list: seq<Address>)
    ensures GoodList(c, list) <==> DistinctKnown(c, list)
  {
    if NoDup(list) {
      ElementsCount(list);
    } else {
      var i, j :| 0 <= i < j < |list| && list[i] == list[j];
      var rest := list[..j] + list[j + 1..];
      assert forall k :: 0 <= k < |list| && k != j ==> list[k] == rest[if k < j then k else k - 1];
      assert list[j] == rest[i];
      assert Elements(list) == Elements(rest);
      ElementsAtMost(rest);
    }
    assert forall i :: 0 <= i < |list| ==> list[i] in Elements(list);
  }

  /** A sign-start message that makes an acceptor a signer. */
  predicate Names(c: Local, m: Msg) {
    && m.sender == c.proposer && m.body.SignStart? && m.body.parsed && m.body.delivered
    && m.body.parties.Some? && DistinctKnown(c, m.body.parties.value) && c.self in m.body.parties.value
  }

  /** Which message fixed the data and, if any, which later one fixed the signers. */
  ghost predicate Explained(c: Local, msgs: seq<Msg>, s: Acceptor) {
    && (s.accepted <==> s.result.sigData.Val?)
    && (s.accepted ==> s.result.acks == [true] && exists i :: Stores(c, msgs, s, i))
    && (s.result.signers.Some? ==> s.ended && s.accepted && exists j :: Starts(c, msgs, s, j))
    && (!s.accepted ==> s.result.acks == [] || (s.result.acks == [false] && s.ended))
    && (!s.accepted && !s.ended ==> s == BEGIN && forall i :: 0 <= i < |msgs| ==> !Proposes(c, msgs[i]))
  }

  /** A proposal of the proposer. */
  predicate Proposes(c: Local, m: Msg) {
    m.sender == c.proposer && m.body.Proposal?
  }

  /** Message `i` is the proposer's first proposal, the only one that is ever handled. */
  predicate First(c: Local, msgs: seq<Msg>, i: int) {
    0 <= i < |msgs| && Proposes(c, msgs[i]) && forall j :: 0 <= j < i ==> !Proposes(c, msgs[j])
  }

  predicate IsStart(c: Local, m: Msg) {
    m.sender == c.proposer && m.body.SignStart?
  }

  /** The acceptor stores proposal `i`, and `j` is the proposer's next sign-start, the only one that is ever handled. */
  predicate Handled(c: Local, msgs: seq<Msg>, i: int, j: int) {
    && First(c, msgs, i) && Agreed(c, msgs[i])
    && i < j < |msgs| && IsStart(c, msgs[j]) && forall k :: i < k < j ==> !IsStart(c, msgs[k])
  }

  ghost predicate Stores(c: Local, msgs: seq<Msg>, s: Acceptor, i: int) {
    First(c, msgs, i) && Agreed(c, msgs[i]) && msgs[i].body.value == s.result.sigData
  }

  ghost predicate Starts(c: Local, msgs: seq<Msg>, s: Acceptor, j: int) {
    && 0 <= j < |msgs| && Names(c, msgs[j]) && s.result.signers == Some(Without(msgs[j].body.parties.value, c.self))
    && exists i :: i < j && Stores(c, msgs, s, i)
  }

  lemma {:induction false} RunExplained(c: Local, msgs: seq<Msg>)
    ensures Explained(c, msgs, AcceptRun(c, msgs))
  {
    if msgs != [] {
      var before, m := msgs[..|msgs| - 1], msgs[|msgs| - 1];
      RunExplained(c, before);
      var s, s' := AcceptRun(c, before), AcceptRun(c, msgs);
      if s.accepted {
        var i :| Stores(c, before, s, i);
        assert Stores(c, msgs, s', i);
        if s.result.signers.Some? {
          var j :| Starts(c, before, s, j);
          var i' :| i' < j && Stores(c, before, s, i');
          assert Stores(c, msgs, s', i');
          assert Starts(c, msgs, s', j);
        } else if s'.result.signers.Some? {
          GoodListIs(c, m.body.parties.value);
          assert Starts(c, msgs, s', |msgs| - 1);
        }
      } else if s'.accepted {
        assert Stores(c, msgs, s', |msgs| - 1);
      }
    }
  }

  /** What comes before the first proposal changes nothing, and nothing later changes the stored data. */
  lemma {:induction false} FirstStored(c: Local, msgs: seq<Msg>, i: int)
    requires First(c, msgs, i) && Agreed(c, msgs[i])
    ensures AcceptRun(c, msgs).result.sigData == msgs[i].body.value && AcceptRun(c, msgs).accepted
    decreases |msgs|
  {
    var before := msgs[..|msgs| - 1];
    if i == |msgs| - 1 {
      NothingYet(c, before);
    } else {
      FirstStored(c, before, i);
    }
  }

  lemma {:induction false} NothingYet(c: Local, msgs: seq<Msg>)
    requires forall j :: 0 <= j < |msgs| ==> !Proposes(c, msgs[j])
    ensures AcceptRun(c, msgs) == BEGIN
  {
    if msgs != [] {
      NothingYet(c, msgs[..|msgs| - 1]);
    }
  }

  /** The acceptor once it has stored a proposal. */
  function Stored(r: Request): Acceptor
    requires r.Proposal?
  {
    Acceptor(Result(r.value, None, if r.sent then None else Some(SendFailed), [true]), true, false)
  }

  /** Until a sign-start follows, the acceptor goes on waiting. */
  lemma {:induction false} StillWaiting(c: Local, msgs: seq<Msg>, i: int)
    requires First(c, msgs, i) && Agreed(c, msgs[i]) && forall k :: i < k < |msgs| ==> !IsStart(c, msgs[k])
    ensures AcceptRun(c, msgs) == Stored(msgs[i].body)
    decreases |msgs|
  {
    var before := msgs[..|msgs| - 1];
    if i == |msgs| - 1 {
      NothingYet(c, before);
    } else {
      StillWaiting(c, before, i);
    }
  }

  /** The sign-start that is handled ends the run, with signers exactly if it names the acceptor. */
  lemma HandledRun(c: Local, msgs: seq<Msg>, i: int, j: int)
    requires Handled(c, msgs, i, j)
    ensures Outcome(c, msgs) == OnSignStart(c, Stored(msgs[i].body), msgs[j].body).result
    ensures Outcome(c, msgs).signers
         == if Names(c, msgs[j]) then Some(Without(msgs[j].body.parties.value, c.self)) else None
  {
    var before := msgs[..j];
    StillWaiting(c, before, i);
    assert msgs[..j + 1][..j] == before;
    EndedStays(c, msgs, j + 1);
    if msgs[j].body.parties.Some? {
      GoodListIs(c, msgs[j].body.parties.value);
    }
  }

  /** A first proposal that is not stored ends the run. */
  lemma StoppedRun(c: Local, msgs: seq<Msg>, i: int)
    requires First(c, msgs, i) && !Agreed(c, msgs[i])
    ensures Outcome(c, msgs) == OnProposal(BEGIN, msgs[i].body).result
  {
    var before := msgs[..i];
    NothingYet(c, before);
    assert msgs[..i + 1][..i] == before;
    EndedStays(c, msgs, i + 1);
  }

  lemma {:induction false} EarliestStart(c: Local, msgs: seq<Msg>, i: int, j: int) returns (e: int)
    requires 0 <= i < j < |msgs| && IsStart(c, msgs[j])
    ensures i < e <= j && IsStart(c, msgs[e]) && forall k :: i < k < e ==> !IsStart(c, msgs[k])
    decreases j
  {
    e := j;
    if k :| i < k < j && IsStart(c, msgs[k]) {
      e := EarliestStart(c, msgs, i, k);
    }
  }

  /** Message `i` fixed the data of the result and the later message `j` its signers. */
  ghost predicate SignersFrom(c: Local, msgs: seq<Msg>, r: Result, i: int, j: int) {
    && Handled(c, msgs, i, j) && Names(c, msgs[j]) && r.sigData == msgs[i].body.value
    && r.signers == Some(Without(msgs[j].body.parties.value, c.self))
  }

  /** A run that ends with signers handled a sign-start. */
  lemma SignersHandled(c: Local, msgs: seq<Msg>) returns (i: int, j: int)
    requires Outcome(c, msgs).signers.Some?
    ensures Handled(c, msgs, i, j)
  {
    RunExplained(c, msgs);
    var s := AcceptRun(c, msgs);
    j :| Starts(c, msgs, s, j);
    i :| i < j && Stores(c, msgs, s, i);
    j := EarliestStart(c, msgs, i, j);
  }

  /**
   Acceptor runs: over any message sequence a party ends with signers exactly when the proposer's
   first proposal is reliably delivered, verified and not nil and the proposer's next sign-start is
   reliably delivered and names it in a list of distinct known parties, and they are that list
   without itself; it acknowledges at most once, and positively exactly when it stores the data,
   which it does exactly when the proposer's first proposal is delivered, verified and not nil.
   */
  lemma AcceptorRuns(c: Local, msgs: seq<Msg>)
    ensures var r := Outcome(c, msgs);
            && (r.signers.Some? ==> exists i, j :: SignersFrom(c, msgs, r, i, j))
            && (forall i, j :: Handled(c, msgs, i, j) && Names(c, msgs[j]) ==> SignersFrom(c, msgs, r, i, j))
            && (r.sigData.Val? <==> r.acks == [true])
            && (r.acks == [] || r.acks == [true] || r.acks == [false])
            && (r.sigData.Val? ==> exists i :: First(c, msgs, i) && Agreed(c, msgs[i]) && r.sigData == msgs[i].body.value)
            && (forall i :: First(c, msgs, i) && Agreed(c, msgs[i]) ==> r.sigData == msgs[i].body.value)
  {
    RunExplained(c, msgs);
    var s := AcceptRun(c, msgs);
    forall i | First(c, msgs, i) && Agreed(c, msgs[i])
      ensures s.result.sigData == msgs[i].body.value
    {
      FirstStored(c, msgs, i);
    }
    forall i, j | Handled(c, msgs, i, j)
      ensures Names(c, msgs[j]) <==> SignersFrom(c, msgs, Outcome(c, msgs), i, j)
      ensures !Names(c, msgs[j]) ==> s.result.signers.None?
    {
      HandledRun(c, msgs, i, j);
    }
    if s.accepted {
      var i :| Stores(c, msgs, s, i);
      assert Agreed(c, msgs[i]) && s.result.sigData == msgs[i].body.value;
    }
    if s.result.signers.Some? {
      var i, j := SignersHandled(c, msgs);
      assert SignersFrom(c, msgs, Outcome(c, msgs), i, j);
    }
  }

  // ---------- how a run ends ----------

  /** The first proposal is stored and no sign-start follows. */
  predicate Waits(c: Local, msgs: seq<Msg>, i: int) {
    First(c, msgs, i) && Agreed(c, msgs[i]) && forall k :: i < k < |msgs| ==> !IsStart(c, msgs[k])
  }

  /** A proposal that was read and delivered, and then judged. */
  predicate Judged(r: Request) {
    r.Proposal? && r.parsed && r.delivered && r.value.Val?
  }

  /** A delivered sign-start list. */
  predicate Listed(r: Request) {
    r.SignStart? && r.parsed && r.delivered && r.parties.Some?
  }

  /** A list of distinct known parties, at least one. */
  predicate Usable(c: Local, r: Request) {
    Listed(r) && r.parties.value != [] && DistinctKnown(c, r.parties.value)
  }

  lemma {:induction false} EarliestProposal(c: Local, msgs: seq<Msg>, j: int) returns (i: int)
    requires 0 <= j < |msgs| && Proposes(c, msgs[j])
    ensures First(c, msgs, i)
    decreases j
  {
    i := j;
    if k :| 0 <= k < j && Proposes(c, msgs[k]) {
      i := EarliestProposal(c, msgs, k);
    }
  }

  lemma FirstOnly(c: Local, msgs: seq<Msg>, i: int)
    requires First(c, msgs, i)
    ensures forall k :: First(c, msgs, k) ==> k == i
  {
  }

  lemma HandledOnly(c: Local, msgs: seq<Msg>, i: int, j: int)
    requires Handled(c, msgs, i, j)
    ensures forall k, l :: Handled(c, msgs, k, l) ==> k == i && l == j
    ensures !Waits(c, msgs, i)
  {
    FirstOnly(c, msgs, i);
  }

  /** How the run of an acceptor ends: without a proposal, at the proposal, waiting, or at a sign-start. */
  datatype Ending = Silent | AtProposal(i: int) | Waiting(i: int) | AtStart(i: int, j: int)

  ghost predicate EndsAt(c: Local, msgs: seq<Msg>, e: Ending) {
    match e
    case Silent => forall i :: !First(c, msgs, i)
    case AtProposal(i) => First(c, msgs, i) && !Agreed(c, msgs[i])
    case Waiting(i) => Waits(c, msgs, i)
    case AtStart(i, j) => Handled(c, msgs, i, j)
  }

  lemma SomeEnding(c: Local, msgs: seq<Msg>) returns (e: Ending)
    ensures EndsAt(c, msgs, e)
  {
    e := Silent;
    if i :| First(c, msgs, i) {
      e := if Agreed(c, msgs[i]) then Waiting(i) else AtProposal(i);
      if j :| Agreed(c, msgs[i]) && i < j < |msgs| && IsStart(c, msgs[j]) {
        var k := EarliestStart(c, msgs, i, j);
        e := AtStart(i, k);
      }
    }
  }

  /** The result for each ending. */
  lemma EndingOutcome(c: Local, msgs: seq<Msg>, e: Ending)
    requires EndsAt(c, msgs, e)
    ensures var r := Outcome(c, msgs);
            match e
            case Silent => r == EMPTY.(err := Some(Timeout))
            case AtProposal(i) => r == OnProposal(BEGIN, msgs[i].body).result
            case Waiting(i) => r == Stored(msgs[i].body).result.(err := Some(Timeout))
            case AtStart(i, j) => r == OnSignStart(c, Stored(msgs[i].body), msgs[j].body).result
  {
    match e
    case Silent =>
      if j :| 0 <= j < |msgs| && Proposes(c, msgs[j]) {
        var i := EarliestProposal(c, msgs, j);
      }
      NothingYet(c, msgs);
    case AtProposal(i) => StoppedRun(c, msgs, i);
    case Waiting(i) => StillWaiting(c, msgs, i);
    case AtStart(i, j) => HandledRun(c, msgs, i, j);
  }

  /** All other endings are excluded. */
  lemma OneEnding(c: Local, msgs: seq<Msg>, e: Ending)
    requires EndsAt(c, msgs, e)
    ensures forall i :: First(c, msgs, i) ==> e != Silent && e.i == i
    ensures forall i :: Waits(c, msgs, i) ==> e == Waiting(i)
    ensures forall i, j :: Handled(c, msgs, i, j) ==> e == AtStart(i, j)
  {
    if !e.Silent? {
      FirstOnly(c, msgs, e.i);
      if e.AtStart? {
        HandledOnly(c, msgs, e.i, e.j);
      }
    }
  }

  // The causes of the errors.

  ghost predicate NothingToSign(c: Local, msgs: seq<Msg>) {
    exists i :: First(c, msgs, i) && msgs[i].body.parsed && msgs[i].body.delivered && msgs[i].body.value.Nil?
  }

  ghost predicate Rejects(c: Local, msgs: seq<Msg>) {
    exists i :: First(c, msgs, i) && Judged(msgs[i].body) && !msgs[i].body.verified
  }

  /** A sign-start with a usable list was handled, and the acknowledgment was sent or not. */
  ghost predicate StartsSigning(c: Local, msgs: seq<Msg>, acknowledged: bool) {
    exists i, j :: Handled(c, msgs, i, j) && Usable(c, msgs[j].body) && msgs[i].body.sent == acknowledged
  }

  ghost predicate Undelivered(c: Local, msgs: seq<Msg>) {
    || (exists i :: First(c, msgs, i) && msgs[i].body.parsed && !msgs[i].body.delivered)
    || (exists i, j :: Handled(c, msgs, i, j) && msgs[j].body.parsed && !msgs[j].body.delivered)
  }

  ghost predicate Unreadable(c: Local, msgs: seq<Msg>) {
    || (exists i :: First(c, msgs, i) && !msgs[i].body.parsed)
    || (exists i, j :: Handled(c, msgs, i, j)
                       && (!msgs[j].body.parsed || (msgs[j].body.delivered && msgs[j].body.parties.None?)))
  }

  ghost predicate EmptyList(c: Local, msgs: seq<Msg>) {
    exists i, j :: Handled(c, msgs, i, j) && Listed(msgs[j].body) && msgs[j].body.parties.value == []
  }

  ghost predicate BadList(c: Local, msgs: seq<Msg>) {
    exists i, j :: Handled(c, msgs, i, j) && Listed(msgs[j].body) && !DistinctKnown(c, msgs[j].body.parties.value)
  }

  ghost predicate TimesOut(c: Local, msgs: seq<Msg>) {
    (forall i :: !First(c, msgs, i)) || (exists i :: Waits(c, msgs, i))
  }

  lemma CausesAtProposal(c: Local, msgs: seq<Msg>, e: Ending)
    requires EndsAt(c, msgs, e) && !e.AtStart?
    ensures !StartsSigning(c, msgs, true) && !StartsSigning(c, msgs, false) && !EmptyList(c, msgs) && !BadList(c, msgs)
    ensures TimesOut(c, msgs) <==> e.Silent? || e.Waiting?
    ensures NothingToSign(c, msgs) <==>
              e.AtProposal? && var r := msgs[e.i].body; r.parsed && r.delivered && r.value.Nil?
    ensures Rejects(c, msgs) <==> e.AtProposal? && Judged(msgs[e.i].body) && !msgs[e.i].body.verified
    ensures Undelivered(c, msgs) <==> e.AtProposal? && msgs[e.i].body.parsed && !msgs[e.i].body.delivered
    ensures Unreadable(c, msgs) <==> e.AtProposal? && !msgs[e.i].body.parsed
  {
    OneEnding(c, msgs, e);
  }

  lemma CausesAtStart(c: Local, msgs: seq<Msg>, i: int, j: int)
    requires Handled(c, msgs, i, j)
    ensures !TimesOut(c, msgs) && !NothingToSign(c, msgs) && !Rejects(c, msgs)
    ensures var r := msgs[j].body;
            && (StartsSigning(c, msgs, true) <==> Usable(c, r) && msgs[i].body.sent)
            && (StartsSigning(c, msgs, false) <==> Usable(c, r) && !msgs[i].body.sent)
            && (Undelivered(c, msgs) <==> r.parsed && !r.delivered)
            && (Unreadable(c, msgs) <==> !r.parsed || (r.delivered && r.parties.None?))
            && (EmptyList(c, msgs) <==> Listed(r) && r.parties.value == [])
            && (BadList(c, msgs) <==> Listed(r) && !DistinctKnown(c, r.parties.value))
  {
    OneEnding(c, msgs, AtStart(i, j));
    hide DistinctKnown;
  }

  /**
   Over any message sequence, which message causes which error: there is none exactly if nothing is to be
   signed or the acknowledgment was sent and the next sign-start lists distinct known parties; it is a
   timeout exactly if no proposal came, or one was stored and no sign-start followed; a rejection exactly
   if the first proposal was delivered and not verified, and then alone the acknowledgment is negative.
   */
  lemma AcceptorErrors(c: Local, msgs: seq<Msg>)
    ensures var r := Outcome(c, msgs);
            && (r.err == None <==> NothingToSign(c, msgs) || StartsSigning(c, msgs, true))
            && (r.err == None && r.sigData.Val? <==> StartsSigning(c, msgs, true))
            && (r.err == Some(Timeout) <==> TimesOut(c, msgs))
            && (r.err == Some(Rejected) <==> Rejects(c, msgs)) && (r.acks == [false] <==> Rejects(c, msgs))
            && (r.err == Some(SendFailed) <==> StartsSigning(c, msgs, false))
            && (r.err == Some(NotDelivered) <==> Undelivered(c, msgs))
            && (r.err == Some(BadMessage) <==> Unreadable(c, msgs))
            && (r.err == Some(Panicked) <==> EmptyList(c, msgs))
            && (r.err == Some(BadSigners) <==> BadList(c, msgs))
  {
    var e := SomeEnding(c, msgs);
    EndingOutcome(c, msgs, e);
    if e.AtStart? && msgs[e.j].body.parties.Some? {
      GoodListIs(c, msgs[e.j].body.parties.value);
    }
    hide Outcome, GoodList, DistinctKnown, First, Handled, Waits, NothingToSign, Rejects, StartsSigning, Undelivered;
    hide Unreadable, EmptyList, BadList, TimesOut;
    if e.AtStart? {
      CausesAtStart(c, msgs, e.i, e.j);
    } else {
      CausesAtProposal(c, msgs, e);
    }
  }

  // ---------- one committee ----------

  lemma {:induction false} WithoutFacts(s: seq<Address>, a: Address)
    requires NoDup(s)
    ensures NoDup(Without(s, a)) && Elements(Without(s, a)) == Elements(s) - {a}
    ensures |Without(s, a)| == if a in s then |s| - 1 else |s|
  {
    if s != [] {
      WithoutFacts(s[1..], a);
      var rest := Without(s[1..], a);
      assert Elements(s) == {s[0]} + Elements(s[1..]);
      assert s[0] !in s[1..] && s[0] !in Elements(rest);
      assert forall x :: x in rest ==> x in Elements(rest);
      if s[0] != a {
        assert Elements([s[0]] + rest) == {s[0]} + Elements(rest);
      }
    }
  }

  /** A handled sign-start that names this party carries the one list the proposer announced. */
  ghost predicate Announced(c: Local, msgs: seq<Msg>, list: seq<Address>) {
    forall i, j :: Handled(c, msgs, i, j) && Names(c, msgs[j]) ==> msgs[j].body.parties.value == list
  }

  /** A reliably delivered sign-start with this list. */
  predicate Carries(m: Msg, list: seq<Address>) {
    m.body.SignStart? && m.body.parsed && m.body.delivered && m.body.parties == Some(list)
  }

  ghost predicate KeysDiffer(group: set<Address>, key: Leader.Key) {
    forall a, b :: a in group && b in group && a != b ==> key(a) != key(b)
  }

  /** A list of distinct members with differing keys has pairwise different keys. */
  lemma ListKeys(list: seq<Address>, key: Leader.Key)
    requires NoDup(list) && KeysDiffer(Elements(list), key)
    ensures Leader.DistinctKeys(list, key)
  {
    forall i, j | 0 <= i < j < |list|
      ensures key(list[i]) != key(list[j])
    {
      assert list[i] in Elements(list) && list[j] in Elements(list);
    }
  }

  lemma PrependFacts(a: Address, s: seq<Address>)
    requires NoDup(s) && a !in s
    ensures NoDup([a] + s) && Elements([a] + s) == Elements(s) + {a}
  {
  }

  lemma RotateFacts(s: seq<Address>, a: Address)
    requires NoDup(s + [a])
    ensures NoDup([a] + s) && Elements([a] + s) == Elements(s + [a])
  {
    var t := s + [a];
    assert forall i :: 0 <= i < |s| ==> t[i] == s[i] && t[i] != t[|s|];
  }

  lemma SameElements(s: seq<Address>, t: seq<Address>)
    requires Elements(s) == Elements(t)
    ensures forall x :: x in s <==> x in t
  {
    forall x
      ensures x in s <==> x in t
    {
      assert x in Elements(s) <==> x in Elements(t);
    }
  }

  lemma SameCommittee(self: Address, proposer: Address, signers: seq<Address>, key: Leader.Key)
    requires NoDup(signers + [proposer]) && self in signers + [proposer]
    requires KeysDiffer(Elements(signers + [proposer]), key)
    ensures var others := Without(signers + [proposer], self);
            && self !in others && |others| == |signers|
            && Elements([self] + others) == Elements(signers + [proposer])
            && Leader.SortPartyIds([self] + others, key) == Leader.SortPartyIds([proposer] + signers, key)
  {
    var list := signers + [proposer];
    var others := Without(list, self);
    WithoutFacts(list, self);
    assert self !in others by { assert self !in Elements(others); }
    PrependFacts(self, others);
    RotateFacts(signers, proposer);
    ListKeys([self] + others, key);
    ListKeys([proposer] + signers, key);
    SameElements([self] + others, [proposer] + signers);
    Leader.SameOrder([self] + others, [proposer] + signers, key);
  }

  /**
   One committee: with the proposer's signers and itself announced, a party that ends with signers
   arrives at the same committee of one member more than the signers, in the same sorted order that
   every member hands to the signing protocol; a party that is not named gets none, and one that
   knows the members and handles the announced list gets them exactly if it is named.
   */
  lemma OneCommittee(c: Local, msgs: seq<Msg>, signers: seq<Address>, key: Leader.Key)
    requires NoDup(signers + [c.proposer]) && Announced(c, msgs, signers + [c.proposer])
    requires KeysDiffer(Elements(signers + [c.proposer]), key)
    ensures var r := Outcome(c, msgs).signers;
            var committee := Elements(signers + [c.proposer]);
            && |committee| == |signers| + 1
            && (c.self !in signers + [c.proposer] ==> r.None?)
            && (r.Some? ==>
                  && c.self !in r.value && |r.value| == |signers|
                  && Elements([c.self] + r.value) == committee
                  && Leader.SortPartyIds([c.self] + r.value, key) == Leader.SortPartyIds([c.proposer] + signers, key))
    ensures forall i, j ::
              && Handled(c, msgs, i, j) && Carries(msgs[j], signers + [c.proposer])
              && DistinctKnown(c, signers + [c.proposer]) ==>
                (Outcome(c, msgs).signers.Some? <==> c.self in signers + [c.proposer])
  {
    ElementsCount(signers + [c.proposer]);
    AcceptorRuns(c, msgs);
    var r := Outcome(c, msgs);
    if r.signers.Some? {
      var i, j :| SignersFrom(c, msgs, r, i, j);
      SameCommittee(c.self, c.proposer, signers, key);
    }
  }
}
