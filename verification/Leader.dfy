/**
 The ordered party list that each member builds from its own view of the group, and
 the session leader read off that list.
 */
module Leader {
  import opened Collections
  import opened Messages

  /** The number a party identifier is sorted by. */
  type Key = Address -> nat

  predicate Strict(ids: seq<Address>, key: Key) {
    forall i, j :: 0 <= i < j < |ids| ==> key(ids[i]) < key(ids[j])
  }

  predicate DistinctKeys(ids: seq<Address>, key: Key) {
    forall i, j :: 0 <= i < j < |ids| ==> key(ids[i]) != key(ids[j])
  }

  function Insert(a: Address, ids: seq<Address>, key: Key): seq<Address> {
    if ids == [] || key(a) <= key(ids[0]) then [a] + ids else [ids[0]] + Insert(a, ids[1..], key)
  }

  /** The library sort: ascending by key. */
  function SortPartyIds(ids: seq<Address>, key: Key): seq<Address> {
    if ids == [] then [] else Insert(ids[0], SortPartyIds(ids[1..], key), key)
  }

  lemma {:induction false} InsertMembers(a: Address, ids: seq<Address>, key: Key)
    ensures |Insert(a, ids, key)| == |ids| + 1
    ensures forall x :: x in Insert(a, ids, key) <==> x == a || x in ids
  {
    if !(ids == [] || key(a) <= key(ids[0])) {
      InsertMembers(a, ids[1..], key);
      assert forall x :: x in ids <==> x == ids[0] || x in ids[1..];
    }
  }

  lemma {:induction false} InsertStrict(a: Address, ids: seq<Address>, key: Key)
    requires Strict(ids, key) && forall x :: x in ids ==> key(x) != key(a)
    ensures Strict(Insert(a, ids, key), key)
  {
    if !(ids == [] || key(a) <= key(ids[0])) {
      InsertStrict(a, ids[1..], key);
      InsertMembers(a, ids[1..], key);
      var rest := Insert(a, ids[1..], key);
      forall i | 0 <= i < |rest|
        ensures key(ids[0]) < key(rest[i])
      {
        assert rest[i] in rest;
      }
    }
  }

  lemma {:induction false} SortMembers(ids: seq<Address>, key: Key)
    ensures |SortPartyIds(ids, key)| == |ids|
    ensures forall x :: x in SortPartyIds(ids, key) <==> x in ids
  {
    if ids != [] {
      SortMembers(ids[1..], key);
      InsertMembers(ids[0], SortPartyIds(ids[1..], key), key);
      assert forall x :: x in ids <==> x == ids[0] || x in ids[1..];
    }
  }

  lemma {:induction false} SortStrict(ids: seq<Address>, key: Key)
    requires DistinctKeys(ids, key)
    ensures Strict(SortPartyIds(ids, key), key)
  {
    if ids != [] {
      SortStrict(ids[1..], key);
      SortMembers(ids[1..], key);
      InsertStrict(ids[0], SortPartyIds(ids[1..], key), key);
    }
  }

  /** Fills the identifier list peer by peer, the local party last, and sorts it. */
  method SortAllParties(parties: seq<Address>, self: Address, key: Key) returns (sorted: seq<Address>)
    ensures sorted == SortPartyIds(parties + [self], key)
  {
    var ids := new Address[|parties| + 1];
    var idx := 0;
    while idx < |parties|
      invariant 0 <= idx <= |parties|
      invariant forall i :: 0 <= i < idx ==> ids[i] == parties[i]
    {
      ids[idx] := parties[idx];
      idx := idx + 1;
    }
    ids[|parties|] := self;
    assert ids[..] == parties + [self];
    sorted := SortPartyIds(ids[..], key);
  }

  lemma {:induction false} StrictUnique(a: seq<Address>, b: seq<Address>, key: Key)
    requires Strict(a, key) && Strict(b, key)
    requires forall x :: x in a <==> x in b
    ensures a == b
  {
    if a == [] {
      assert forall i :: 0 <= i < |b| ==> b[i] in b;
    } else {
      assert a[0] in b;
      assert b[0] in a;
      assert a[0] == b[0];
      forall x
        ensures x in a[1..] <==> x in b[1..]
      {
        assert x in a[1..] <==> x in a && x != a[0];
        assert x in b[1..] <==> x in b && x != b[0];
      }
      StrictUnique(a[1..], b[1..], key);
    }
  }

  /** Two lists of the same parties with distinct keys sort alike, whatever their order. */
  lemma SameOrder(a: seq<Address>, b: seq<Address>, key: Key)
    requires DistinctKeys(a, key) && DistinctKeys(b, key) && forall x :: x in a <==> x in b
    ensures SortPartyIds(a, key) == SortPartyIds(b, key)
  {
    SortMembers(a, key);
    SortMembers(b, key);
    SortStrict(a, key);
    SortStrict(b, key);
    StrictUnique(SortPartyIds(a, key), SortPartyIds(b, key), key);
  }

  /** The leader of a session; `draw` is the first number of the generator seeded with its identifier. */
  function DetermineLeader(sessionId: string, ids: seq<Address>, draw: string -> nat): Address
    requires ids != []
  {
    ids[draw(sessionId) % |ids|]
  }

  /** A member's own view of the group: its peers in some order, and itself. */
  ghost predicate ViewOf(peers: seq<Address>, self: Address, group: set<Address>, key: Key) {
    DistinctKeys(peers + [self], key) && forall x :: x in peers + [self] <==> x in group
  }

  /**
   Leader agreement: two members of a group with distinct keys, each starting from its own
   peers in any order and itself, find the same leader for every session, and it is a member.
   */
  lemma LeaderAgreement(group: set<Address>, key: Key, draw: string -> nat, sessionId: string,
                        peers: seq<Address>, self: Address, peers': seq<Address>, self': Address)
    requires ViewOf(peers, self, group, key) && ViewOf(peers', self', group, key)
    ensures var ids, ids' := SortPartyIds(peers + [self], key), SortPartyIds(peers' + [self'], key);
            && ids == ids' && ids != []
            && DetermineLeader(sessionId, ids, draw) == DetermineLeader(sessionId, ids', draw)
            && DetermineLeader(sessionId, ids, draw) in group
  {
    SameOrder(peers + [self], peers' + [self'], key);
    SortMembers(peers + [self], key);
    var ids := SortPartyIds(peers + [self], key);
    assert DetermineLeader(sessionId, ids, draw) in ids;
  }

  /** In a list sorted by key, the members with smaller keys are those before. */
  lemma RankIs(ids: seq<Address>, k: nat, group: set<Address>, key: Key)
    requires Strict(ids, key) && k < |ids| && forall x :: x in ids <==> x in group
    ensures |set a | a in group && key(a) < key(ids[k])| == k && |ids| == |group|
  {
    ElementsCount(ids);
    ElementsCount(ids[..k]);
    assert Elements(ids) == group;
    forall a
      ensures a in group && key(a) < key(ids[k]) <==> a in Elements(ids[..k])
    {
      if a in group {
        var i :| 0 <= i < |ids| && ids[i] == a;
        assert key(a) < key(ids[k]) <==> i < k;
      }
    }
    assert (set a | a in group && key(a) < key(ids[k])) == Elements(ids[..k]);
  }

  /** The leader is the member whose rank by key is the draw of the session modulo the size of the group. */
  lemma LeaderRank(group: set<Address>, key: Key, draw: string -> nat, sessionId: string, peers: seq<Address>, self: Address)
    requires ViewOf(peers, self, group, key)
    ensures SortPartyIds(peers + [self], key) != []
    ensures var leader := DetermineLeader(sessionId, SortPartyIds(peers + [self], key), draw);
            && self in group && leader in group
            && |set a | a in group && key(a) < key(leader)| == draw(sessionId) % |group|
  {
    var ids := SortPartyIds(peers + [self], key);
    SortMembers(peers + [self], key);
    SortStrict(peers + [self], key);
    RankIs(ids, draw(sessionId) % |ids|, group, key);
    assert DetermineLeader(sessionId, ids, draw) in ids;
  }
}
