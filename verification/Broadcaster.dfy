/**
 One party of the reliable broadcast: what it does with each message taken from
 its channel, first as functions on its state and then as the class that
 updates that state in place.
 */
module Broadcaster {
  import opened Messages

  /** What all parties of one broadcast share. */
  datatype Config = Config(sessionId: string, group: set<Address>, origin: Address, relayRounds: int)

  /** The mutable part of a broadcaster; `received` holds the (sender, round) pairs already seen. */
  datatype Party = Party(received: set<(Address, nat)>, values: map<string, Value>, finalReached: bool)

  datatype Incoming = Incoming(sender: Address, msg: RoundMessage)

  const FRESH := Party({}, map[], false)

  predicate Distinct(sigs: seq<Signature>) {
    forall i, j :: 0 <= i < j < |sigs| ==> sigs[i].signer != sigs[j].signer
  }

  /** The signature at index `i` is by a group member and valid over the chain before it. */
  predicate LinkValid(cfg: Config, m: RoundMessage, i: nat)
    requires i < |m.signatures|
  {
    && m.signatures[i].signer in cfg.group
    && SignatureValid(m.sessionId, m.value, m.signatures[..i], m.signatures[i])
  }

  /** A chain of Round+1 signatures by distinct members, from the origin to the sender, each covering its prefix. */
  predicate ChainValid(cfg: Config, sender: Address, m: RoundMessage) {
    && |m.signatures| == m.round + 1
    && m.signatures[0].signer == cfg.origin
    && m.signatures[m.round].signer == sender
    && Distinct(m.signatures)
    && forall i :: 0 <= i < |m.signatures| ==> LinkValid(cfg, m, i)
  }

  predicate SignedBy(self: Address, sigs: seq<Signature>) {
    exists i :: 0 <= i < |sigs| && sigs[i].signer == self
  }

  function AddValue(values: map<string, Value>, v: Value): map<string, Value> {
    if Key(v) in values then values else values[Key(v) := v]
  }

  /** The filters of the receive loop: session, round bound, first message of this sender for this round. */
  predicate Admits(cfg: Config, p: Party, sender: Address, m: RoundMessage) {
    && m.sessionId == cfg.sessionId
    && m.round <= cfg.relayRounds
    && (sender, m.round) !in p.received
  }

  /** The chain length counted by a party, its own acknowledgment included. */
  function ChainCount(self: Address, m: RoundMessage): nat {
    |m.signatures| + if SignedBy(self, m.signatures) then 0 else 1
  }

  function Process(cfg: Config, self: Address, p: Party, sender: Address, m: RoundMessage): Party {
    if !ChainValid(cfg, sender, m) then p
    else p.(values := AddValue(p.values, m.value),
            finalReached := p.finalReached || ChainCount(self, m) >= cfg.relayRounds)
  }

  function Handle(cfg: Config, self: Address, p: Party, sender: Address, m: RoundMessage): Party {
    if !Admits(cfg, p, sender, m) then p
    else Process(cfg, self, p.(received := p.received + {(sender, m.round)}), sender, m)
  }

  /** Whether processing a message makes the party broadcast its own extension of it. */
  predicate Extends(cfg: Config, self: Address, sender: Address, m: RoundMessage) {
    ChainValid(cfg, sender, m) && !SignedBy(self, m.signatures) && m.round + 1 != cfg.relayRounds
  }

  function Extended(self: Address, m: RoundMessage): RoundMessage {
    RoundMessage(m.sessionId, m.value, m.round + 1,
                 m.signatures + [Sign(self, m.sessionId, m.value, m.signatures)])
  }

  predicate Relays(cfg: Config, self: Address, p: Party, sender: Address, m: RoundMessage) {
    Admits(cfg, p, sender, m) && Extends(cfg, self, sender, m)
  }

  /** The message with which the origin opens a broadcast. */
  function Opening(cfg: Config, v: Value): RoundMessage {
    RoundMessage(cfg.sessionId, v, 0, [Sign(cfg.origin, cfg.sessionId, v, [])])
  }

  /** The origin's state right after its opening message. */
  function Opened(cfg: Config, p: Party, v: Value): Party {
    p.(values := AddValue(p.values, v), finalReached := p.finalReached || cfg.relayRounds == 1)
  }

  predicate Decides(p: Party) {
    |p.values| == 1 && p.finalReached
  }

  function HandleAll(cfg: Config, self: Address, p: Party, msgs: seq<Incoming>): Party
    decreases |msgs|
  {
    if msgs == [] then p
    else HandleAll(cfg, self, Handle(cfg, self, p, msgs[0].sender, msgs[0].msg), msgs[1..])
  }

  function RelayAll(cfg: Config, self: Address, p: Party, msgs: seq<Incoming>): seq<RoundMessage>
    decreases |msgs|
  {
    if msgs == [] then []
    else (if Relays(cfg, self, p, msgs[0].sender, msgs[0].msg) then [Extended(self, msgs[0].msg)] else [])
         + RelayAll(cfg, self, Handle(cfg, self, p, msgs[0].sender, msgs[0].msg), msgs[1..])
  }

  lemma {:induction false} HandleAllAppend(cfg: Config, self: Address, p: Party, msgs: seq<Incoming>, x: Incoming)
    ensures HandleAll(cfg, self, p, msgs + [x])
         == Handle(cfg, self, HandleAll(cfg, self, p, msgs), x.sender, x.msg)
    ensures RelayAll(cfg, self, p, msgs + [x])
         == RelayAll(cfg, self, p, msgs)
          + if Relays(cfg, self, HandleAll(cfg, self, p, msgs), x.sender, x.msg) then [Extended(self, x.msg)] else []
    decreases |msgs|
  {
    if msgs == [] {
      assert [x][1..] == [];
    } else {
      assert (msgs + [x])[1..] == msgs[1..] + [x];
      HandleAllAppend(cfg, self, Handle(cfg, self, p, msgs[0].sender, msgs[0].msg), msgs[1..], x);
    }
  }

  /** A relayed message is itself a valid chain ending at the relaying party. */
  lemma ExtendedChainValid(cfg: Config, self: Address, sender: Address, m: RoundMessage)
    requires ChainValid(cfg, sender, m) && self in cfg.group && !SignedBy(self, m.signatures)
    ensures ChainValid(cfg, self, Extended(self, m))
  {
    var m' := Extended(self, m);
    forall i | 0 <= i < |m'.signatures|
      ensures LinkValid(cfg, m', i)
    {
      assert m'.signatures[..i] == m.signatures[..i];
      assert i < |m.signatures| ==> LinkValid(cfg, m, i);
      assert i == |m.signatures| ==> m.signatures[..i] == m.signatures;
    }
  }

  lemma OpeningChainValid(cfg: Config, v: Value)
    requires cfg.origin in cfg.group
    ensures ChainValid(cfg, cfg.origin, Opening(cfg, v))
  {
    var m := Opening(cfg, v);
    assert m.signatures[..0] == [];
  }

  class ReliableBroadcaster {
    const sessionId: string
    const self: Address
    const relayRounds: int
    const partiesMap: set<Address>

    var originMsgSender: Address
    var receivedMsgs: set<(Address, nat)>
    var values: map<string, Value>
    var finalSigChainReached: bool
    /** Messages handed to the transport, oldest first. */
    var outbox: seq<RoundMessage>

    function Cfg(): Config
      reads this
    {
      Config(sessionId, partiesMap, originMsgSender, relayRounds)
    }

    function View(): Party
      reads this
    {
      Party(receivedMsgs, values, finalSigChainReached)
    }

    constructor (sessionId: string, parties: set<Address>, self: Address, maxMaliciousParties: int)
      ensures this.sessionId == sessionId && this.self == self
      ensures partiesMap == parties + {self} && relayRounds == maxMaliciousParties + 1
      ensures View() == FRESH && outbox == []
    {
      this.sessionId := sessionId;
      this.self := self;
      this.relayRounds := maxMaliciousParties + 1;
      this.partiesMap := parties + {self};
      this.originMsgSender := "";
      this.receivedMsgs, this.values, this.finalSigChainReached, this.outbox := {}, map[], false, [];
    }

    /** Opens a broadcast as its origin, then processes the messages that arrive before the window closes. */
    method Broadcast(msg: Value, arrived: seq<Incoming>) returns (delivered: bool)
      modifies this
      ensures originMsgSender == self
      ensures View() == HandleAll(Cfg(), self, Opened(Cfg(), old(View()), msg), arrived)
      ensures outbox == old(outbox) + [Opening(Cfg(), msg)]
                      + RelayAll(Cfg(), self, Opened(Cfg(), old(View()), msg), arrived)
      ensures delivered <==> Decides(View())
    {
      AddToValuesSet(msg);
      originMsgSender := self;
      outbox := outbox + [RoundMessage(sessionId, msg, 0, [Sign(self, sessionId, msg, [])])];
      if relayRounds == 1 {
        finalSigChainReached := true;
      }
      StartRounds(arrived);
      delivered := DecideValid();
    }

    /** Joins a broadcast on its opening message; `earlier` was already waiting in the channel. */
    method EnsureValid(sender: Address, msg: RoundMessage, earlier: seq<Incoming>, later: seq<Incoming>)
      returns (delivered: bool)
      modifies this
      ensures originMsgSender == sender
      ensures View() == HandleAll(Cfg(), self, old(View()), earlier + [Incoming(sender, msg)] + later)
      ensures outbox == old(outbox)
                      + RelayAll(Cfg(), self, old(View()), earlier + [Incoming(sender, msg)] + later)
      ensures delivered <==> Decides(View())
    {
      originMsgSender := sender;
      StartRounds(earlier + [Incoming(sender, msg)] + later);
      delivered := DecideValid();
    }

    method StartRounds(arrived: seq<Incoming>)
      modifies this
      ensures originMsgSender == old(originMsgSender)
      ensures View() == HandleAll(Cfg(), self, old(View()), arrived)
      ensures outbox == old(outbox) + RelayAll(Cfg(), self, old(View()), arrived)
    {
      var i := 0;
      assert arrived[..0] == [];
      while i < |arrived|
        invariant 0 <= i <= |arrived|
        invariant originMsgSender == old(originMsgSender)
        invariant View() == HandleAll(Cfg(), self, old(View()), arrived[..i])
        invariant outbox == old(outbox) + RelayAll(Cfg(), self, old(View()), arrived[..i])
      {
        var x := arrived[i];
        HandleAllAppend(Cfg(), self, old(View()), arrived[..i], x);
        assert arrived[..i + 1] == arrived[..i] + [x];
        i := i + 1;
        if x.msg.sessionId != sessionId || x.msg.round > relayRounds || (x.sender, x.msg.round) in receivedMsgs {
          continue;
        }
        receivedMsgs := receivedMsgs + {(x.sender, x.msg.round)};
        ProcessMsg(x.sender, x.msg);
      }
      assert arrived[..i] == arrived;
    }

    method ProcessMsg(sender: Address, msg: RoundMessage)
      modifies this
      ensures originMsgSender == old(originMsgSender)
      ensures View() == Process(Cfg(), self, old(View()), sender, msg)
      ensures outbox == old(outbox)
                      + if Extends(Cfg(), self, sender, msg) then [Extended(self, msg)] else []
    {
      var valid, selfSigned := ValidateSignatures(sender, msg);
      if !valid {
        return;
      }
      AddToValuesSet(msg.value);
      var count := |msg.signatures|;
      if !selfSigned {
        count := count + 1;
      }
      if count >= relayRounds {
        finalSigChainReached := true;
      }
      if selfSigned || msg.round + 1 == relayRounds {
        return;
      }
      outbox := outbox + [Extended(self, msg)];
    }

    method AddToValuesSet(v: Value)
      modifies this`values
      ensures values == AddValue(old(values), v)
      ensures values.Keys == old(values).Keys + {Key(v)} && forall k :: k in old(values) ==> values[k] == old(values)[k]
      ensures Key(v) !in old(values) ==> values[Key(v)] == v
    {
      if Key(v) !in values {
        values := values[Key(v) := v];
      }
    }

    method DecideValid() returns (valid: bool)
      ensures valid <==> Decides(View())
    {
      if |values| == 0 || |values| > 1 {
        return false;
      }
      return finalSigChainReached;
    }

    /** Checks a chain from its last signature back to its first. */
    method ValidateSignatures(sender: Address, msg: RoundMessage) returns (valid: bool, selfSigned: bool)
      ensures valid <==> ChainValid(Cfg(), sender, msg)
      ensures valid ==> (selfSigned <==> SignedBy(self, msg.signatures))
    {
      var sigs := msg.signatures;
      selfSigned := false;
      if |sigs| != msg.round + 1 || sigs[0].signer != originMsgSender || sigs[|sigs| - 1].signer != sender {
        return false, selfSigned;
      }
      var checked: set<Address> := {};
      var i := |sigs|;
      while i > 0
        invariant 0 <= i <= |sigs|
        invariant checked == set k | i <= k < |sigs| :: sigs[k].signer
        invariant forall j, k :: i <= j < k < |sigs| ==> sigs[j].signer != sigs[k].signer
        invariant forall k :: i <= k < |sigs| ==> LinkValid(Cfg(), msg, k)
        invariant selfSigned <==> exists k :: i <= k < |sigs| && sigs[k].signer == self
      {
        i := i - 1;
        var signature := sigs[i];
        if signature.signer !in partiesMap {
          assert !LinkValid(Cfg(), msg, i);
          return false, selfSigned;
        }
        if signature.signer in checked {
          assert !Distinct(sigs);
          return false, selfSigned;
        }
        if !SignatureValid(msg.sessionId, msg.value, sigs[..i], signature) {
          assert !LinkValid(Cfg(), msg, i);
          return false, selfSigned;
        }
        checked := checked + {signature.signer};
        if signature.signer == self {
          selfSigned := true;
        }
      }
      return true, selfSigned;
    }
  }
}
