/**
 Unspent outputs of the bridge wallet: arranging them largest first, drawing them one
 by one as transaction inputs, and finding them again from a transaction.
 */
module Coins {
  import opened Collections

  datatype OutPoint = OutPoint(txid: string, index: nat)

  /** One unspent output, in satoshis; `readable` when its transaction hash and script decode. */
  datatype Coin = Coin(point: OutPoint, amount: nat, script: string, readable: bool)

  function Total(coins: seq<Coin>): nat {
    if coins == [] then 0 else Total(coins[..|coins| - 1]) + coins[|coins| - 1].amount
  }

  function Points(coins: seq<Coin>): (ps: seq<OutPoint>)
    ensures |ps| == |coins|
  {
    seq(|coins|, i requires 0 <= i < |coins| => coins[i].point)
  }

  function Amounts(coins: seq<Coin>): (vs: seq<nat>)
    ensures |vs| == |coins|
  {
    seq(|coins|, i requires 0 <= i < |coins| => coins[i].amount)
  }

  function Scripts(coins: seq<Coin>): (ss: seq<string>)
    ensures |ss| == |coins|
  {
    seq(|coins|, i requires 0 <= i < |coins| => coins[i].script)
  }

  lemma NextCoin(coins: seq<Coin>, k: nat)
    requires k < |coins|
    ensures Total(coins[..k + 1]) == Total(coins[..k]) + coins[k].amount
    ensures Points(coins[..k + 1]) == Points(coins[..k]) + [coins[k].point]
    ensures Amounts(coins[..k + 1]) == Amounts(coins[..k]) + [coins[k].amount]
    ensures Scripts(coins[..k + 1]) == Scripts(coins[..k]) + [coins[k].script]
  {
    assert coins[..k + 1][..k] == coins[..k];
  }

  // ---------- arranging ----------

  predicate LargestFirst(coins: seq<Coin>) {
    forall i, j :: 0 <= i < j < |coins| ==> coins[i].amount >= coins[j].amount
  }

  /** All that is relied on of the library sort: a largest-first permutation that leaves an arranged list alone. */
  ghost predicate Arrangement(coins: seq<Coin>, arranged: seq<Coin>) {
    && LargestFirst(arranged) && multiset(arranged) == multiset(coins)
    && (LargestFirst(coins) ==> arranged == coins)
  }

  method Swap(a: array<Coin>, j: nat)
    requires 0 < j < a.Length
    modifies a
    ensures a[..] == old(a[..])[j - 1 := old(a[j])][j := old(a[j - 1])]
    ensures multiset(a[..]) == multiset(old(a[..]))
  {
    a[j - 1], a[j] := a[j], a[j - 1];
  }

  /** Every pair up to index `i` is in order, except that the coin at `j` may be too far back. */
  predicate OrderedBut(s: seq<Coin>, i: nat, j: nat)
    requires j <= i < |s|
  {
    forall x, y :: 0 <= x < y <= i && y != j ==> s[x].amount >= s[y].amount
  }

  lemma SwapKeepsOrder(s: seq<Coin>, i: nat, j: nat)
    requires 0 < j <= i < |s| && OrderedBut(s, i, j) && s[j - 1].amount < s[j].amount
    ensures OrderedBut(s[j - 1 := s[j]][j := s[j - 1]], i, j - 1)
  {
  }

  /** Moves the coin at `i` down to its place among the arranged coins before it. */
  method PlaceNext(a: array<Coin>, i: nat)
    requires i < a.Length && LargestFirst(a[..i])
    modifies a
    ensures LargestFirst(a[..i + 1]) && multiset(a[..]) == multiset(old(a[..]))
    ensures LargestFirst(old(a[..i + 1])) ==> a[..] == old(a[..])
  {
    var j := i;
    assert OrderedBut(a[..], i, j);
    while j > 0 && a[j - 1].amount < a[j].amount
      invariant 0 <= j <= i
      invariant multiset(a[..]) == multiset(old(a[..]))
      invariant OrderedBut(a[..], i, j)
      invariant a[..] == old(a[..]) || !LargestFirst(old(a[..i + 1]))
    {
      SwapKeepsOrder(a[..], i, j);
      assert a[..] == old(a[..]) ==> old(a[..i + 1])[j - 1].amount < old(a[..i + 1])[j].amount;
      Swap(a, j);
      j := j - 1;
    }
  }

  /** Arranges the caller's own list, largest coin first. */
  method ArrangeOutputs(outs: array<Coin>)
    modifies outs
    ensures Arrangement(old(outs[..]), outs[..])
  {
    var i := 0;
    while i < outs.Length
      invariant 0 <= i <= outs.Length
      invariant LargestFirst(outs[..i]) && multiset(outs[..]) == multiset(old(outs[..]))
      invariant LargestFirst(old(outs[..])) ==> outs[..] == old(outs[..])
    {
      PlaceNext(outs, i);
      i := i + 1;
    }
    assert outs[..i] == outs[..];
  }

  function Placed(coin: Coin, arranged: seq<Coin>): seq<Coin> {
    if arranged == [] || coin.amount >= arranged[0].amount then [coin] + arranged
    else [arranged[0]] + Placed(coin, arranged[1..])
  }

  /** One way of arranging a list. */
  function Arranged(coins: seq<Coin>): seq<Coin> {
    if coins == [] then [] else Placed(coins[0], Arranged(coins[1..]))
  }

  lemma {:induction false} PlacedCoins(coin: Coin, arranged: seq<Coin>)
    ensures multiset(Placed(coin, arranged)) == multiset([coin]) + multiset(arranged)
  {
    if !(arranged == [] || coin.amount >= arranged[0].amount) {
      PlacedCoins(coin, arranged[1..]);
      assert arranged == [arranged[0]] + arranged[1..];
    }
  }

  lemma {:induction false} PlacedBelow(coin: Coin, arranged: seq<Coin>, most: nat)
    requires coin.amount <= most && forall i :: 0 <= i < |arranged| ==> arranged[i].amount <= most
    ensures forall i :: 0 <= i < |Placed(coin, arranged)| ==> Placed(coin, arranged)[i].amount <= most
  {
    if !(arranged == [] || coin.amount >= arranged[0].amount) {
      PlacedBelow(coin, arranged[1..], most);
    }
  }

  lemma {:induction false} PlacedOrder(coin: Coin, arranged: seq<Coin>)
    requires LargestFirst(arranged)
    ensures LargestFirst(Placed(coin, arranged))
  {
    if !(arranged == [] || coin.amount >= arranged[0].amount) {
      PlacedOrder(coin, arranged[1..]);
      PlacedBelow(coin, arranged[1..], arranged[0].amount);
    }
  }

  lemma {:induction false} ArrangedFacts(coins: seq<Coin>)
    ensures Arrangement(coins, Arranged(coins))
  {
    if coins != [] {
      var rest := coins[1..];
      ArrangedFacts(rest);
      PlacedCoins(coins[0], Arranged(rest));
      PlacedOrder(coins[0], Arranged(rest));
      assert coins == [coins[0]] + rest;
      if LargestFirst(coins) {
        assert Arranged(rest) == rest;
        assert rest != [] ==> coins[0].amount >= rest[0].amount;
      }
    }
  }

  // ---------- totals ----------

  lemma {:induction false} TotalConcat(a: seq<Coin>, b: seq<Coin>)
    ensures Total(a + b) == Total(a) + Total(b)
  {
    if b == [] {
      assert a + b == a;
    } else {
      assert (a + b)[..|a + b| - 1] == a + b[..|b| - 1];
      TotalConcat(a, b[..|b| - 1]);
    }
  }

  lemma TotalWithout(coins: seq<Coin>, j: nat)
    requires j < |coins|
    ensures Total(coins) == Total(coins[..j] + coins[j + 1..]) + coins[j].amount
  {
    assert coins == coins[..j + 1] + coins[j + 1..] && coins[..j + 1][..j] == coins[..j];
    TotalConcat(coins[..j + 1], coins[j + 1..]);
    TotalConcat(coins[..j], coins[j + 1..]);
  }

  /** Coins of a wallet, each taken once, are worth no more than the wallet. */
  lemma {:induction false} TotalOnce(spent: seq<Coin>, wallet: seq<Coin>)
    requires NoDup(spent) && forall c :: c in spent ==> c in wallet
    ensures Total(spent) <= Total(wallet)
  {
    if spent != [] {
      var n := |spent| - 1;
      var c := spent[n];
      assert c in wallet;
      var j :| 0 <= j < |wallet| && wallet[j] == c;
      var rest := wallet[..j] + wallet[j + 1..];
      forall b | b in spent[..n]
        ensures b in rest
      {
        assert b in wallet && b != c;
        var i :| 0 <= i < |wallet| && wallet[i] == b;
        assert rest[if i < j then i else i - 1] == b;
      }
      TotalOnce(spent[..n], rest);
      TotalWithout(wallet, j);
    }
  }

  // ---------- drawing inputs ----------

  /** How many coins are drawn when `k` are drawn already and `target` is asked for. */
  function Reach(coins: seq<Coin>, k: nat, target: int): (k': nat)
    requires k <= |coins|
    ensures k <= k' <= |coins|
    decreases |coins| - k
  {
    if Total(coins[..k]) < target && k < |coins| && coins[k].readable then Reach(coins, k + 1, target) else k
  }

  /** The source answers unless it got stuck on a coin that does not parse. */
  predicate Answers(coins: seq<Coin>, k: nat, target: int)
    requires k <= |coins|
  {
    var k' := Reach(coins, k, target);
    Total(coins[..k']) >= target || k' == |coins|
  }

  lemma {:induction false} ReachFacts(coins: seq<Coin>, k: nat, target: int)
    requires k <= |coins|
    ensures forall i :: k <= i < Reach(coins, k, target) ==> Total(coins[..i]) < target && coins[i].readable
    decreases |coins| - k
  {
    if Total(coins[..k]) < target && k < |coins| && coins[k].readable {
      ReachFacts(coins, k + 1, target);
    }
  }

  lemma {:induction false} TotalMonotone(coins: seq<Coin>, i: nat, j: nat)
    requires i <= j <= |coins|
    ensures Total(coins[..i]) <= Total(coins[..j])
    decreases j
  {
    if i < j {
      assert coins[..j][..j - 1] == coins[..j - 1];
      TotalMonotone(coins, i, j - 1);
    }
  }

  /** Asking twice is asking once for the larger target. */
  lemma {:induction false} ReachTwice(coins: seq<Coin>, k: nat, t: int, u: int)
    requires k <= |coins|
    ensures Reach(coins, Reach(coins, k, t), u) == Reach(coins, k, if t < u then u else t)
    decreases |coins| - k
  {
    if Total(coins[..k]) < t && k < |coins| && coins[k].readable {
      ReachTwice(coins, k + 1, t, u);
      if t >= u {
        var m := Reach(coins, k, t);
        ReachFacts(coins, k, t);
      }
    }
  }

  /** The source draws the shortest prefix that reaches the target; it stops short only at the end or at an unreadable coin. */
  lemma ShortestPrefix(coins: seq<Coin>, target: int)
    ensures var k := Reach(coins, 0, target);
            && (forall i :: 0 <= i < k ==> Total(coins[..i]) < target && coins[i].readable)
            && (Total(coins[..k]) >= target || k == |coins| || !coins[k].readable)
    ensures target <= Total(coins) && (forall c :: c in coins ==> c.readable) ==>
              Total(coins[..Reach(coins, 0, target)]) >= target
  {
    ReachFacts(coins, 0, target);
    ReachStops(coins, 0, target);
    assert coins[..|coins|] == coins;
  }

  lemma {:induction false} ReachStops(coins: seq<Coin>, k: nat, target: int)
    requires k <= |coins|
    ensures var k' := Reach(coins, k, target);
            Total(coins[..k']) >= target || k' == |coins| || !coins[k'].readable
    decreases |coins| - k
  {
    if Total(coins[..k]) < target && k < |coins| && coins[k].readable {
      ReachStops(coins, k + 1, target);
    }
  }

  /** Coins drawn after asking for `targets` in turn. */
  function DrawnAfter(coins: seq<Coin>, targets: seq<int>): (k: nat)
    ensures k <= |coins|
  {
    if targets == [] then 0
    else Reach(coins, DrawnAfter(coins, targets[..|targets| - 1]), targets[|targets| - 1])
  }

  function Highest(targets: seq<int>): int {
    if targets == [] then 0
    else
      var h, t := Highest(targets[..|targets| - 1]), targets[|targets| - 1];
      if h < t then t else h
  }

  /** After any sequence of targets the source is where asking once for the highest of them would have brought it. */
  lemma {:induction false} DrawnIsHighest(coins: seq<Coin>, targets: seq<int>)
    ensures DrawnAfter(coins, targets) == Reach(coins, 0, Highest(targets))
  {
    if targets != [] {
      var before := targets[..|targets| - 1];
      DrawnIsHighest(coins, before);
      ReachTwice(coins, 0, Highest(before), targets[|targets| - 1]);
    }
  }

  /** Drawing within a prefix goes on as in the whole list while the target is met inside the prefix. */
  lemma {:induction false} ReachInPrefix(coins: seq<Coin>, n: nat, k: nat, target: int)
    requires k <= n <= |coins| && Reach(coins, k, target) <= n && Total(coins[..Reach(coins, k, target)]) >= target
    ensures Reach(coins[..n], k, target) == Reach(coins, k, target)
    decreases n - k
  {
    assert coins[..n][..k] == coins[..k];
    if Total(coins[..k]) < target && k < |coins| && coins[k].readable {
      ReachInPrefix(coins, n, k + 1, target);
    }
  }

  /**
   Replaying a sequence of targets that were all satisfied on just the coins they drew draws the same
   coins at every step.
   */
  lemma ReplayInPrefix(coins: seq<Coin>, targets: seq<int>, i: nat)
    requires i <= |targets| && Total(coins[..DrawnAfter(coins, targets)]) >= Highest(targets)
    ensures DrawnAfter(coins[..DrawnAfter(coins, targets)], targets[..i]) == DrawnAfter(coins, targets[..i])
  {
    var n := DrawnAfter(coins, targets);
    HighestGrows(targets, i);
    DrawnIsHighest(coins, targets);
    DrawnIsHighest(coins, targets[..i]);
    DrawnIsHighest(coins[..n], targets[..i]);
    var t, t' := Highest(targets[..i]), Highest(targets);
    ReachTwice(coins, 0, t, t');
    var k := Reach(coins, 0, t);
    if Total(coins[..k]) < t {
      // an unsatisfied target would have stopped the source for good
      ReachStops(coins, 0, t);
    }
    ReachInPrefix(coins, n, 0, t);
  }

  lemma {:induction false} HighestGrows(targets: seq<int>, i: nat)
    requires i <= |targets|
    ensures Highest(targets[..i]) <= Highest(targets)
    decreases |targets|
  {
    if i == |targets| {
      assert targets[..i] == targets;
    } else {
      var before := targets[..|targets| - 1];
      assert before[..i] == targets[..i];
      HighestGrows(before, i);
    }
  }

  class InputSource {
    var outputs: seq<Coin>
    var currentTotal: int
    var currentInputs: seq<OutPoint>
    var currentScripts: seq<string>
    var currentInputValues: seq<nat>
    /** The arranged coins the source was made from, how many are drawn, and the largest target asked for. */
    ghost const all: seq<Coin>
    ghost var drawn: nat
    ghost var highest: int

    /** The lists run parallel and hold the first `drawn` coins. */
    ghost predicate Aligned()
      reads this
    {
      && drawn <= |all| && outputs == all[drawn..] && currentTotal == Total(all[..drawn])
      && currentInputs == Points(all[..drawn]) && currentInputValues == Amounts(all[..drawn])
      && currentScripts == Scripts(all[..drawn])
    }

    /** The source holds the shortest prefix reaching the largest target so far, or all coins it can read. */
    ghost predicate Valid()
      reads this
    {
      Aligned() && highest >= 0 && drawn == Reach(all, 0, highest)
    }

    constructor (arranged: seq<Coin>)
      ensures Valid() && all == arranged && drawn == 0 && highest == 0
    {
      all, outputs, drawn, highest := arranged, arranged, 0, 0;
      currentTotal, currentInputs, currentScripts, currentInputValues := 0, [], [], [];
    }

    /** Takes the next coin into the parallel lists. */
    method Draw()
      requires Aligned() && outputs != []
      modifies this
      ensures Aligned() && drawn == old(drawn) + 1 && highest == old(highest)
    {
      var out := outputs[0];
      NextCoin(all, drawn);
      currentInputs := currentInputs + [out.point];
      currentScripts := currentScripts + [out.script];
      currentTotal := currentTotal + out.amount;
      currentInputValues := currentInputValues + [out.amount];
      outputs := outputs[1..];
      drawn := drawn + 1;
    }

    /** Answers a target with the inputs drawn so far, drawing more while they do not reach it. */
    method Fetch(target: int) returns (ok: bool, total: int, inputs: seq<OutPoint>, values: seq<nat>, scripts: seq<string>)
      requires Valid()
      modifies this
      ensures Valid() && highest == if old(highest) < target then target else old(highest)
      ensures drawn == Reach(all, old(drawn), target)
      ensures ok <==> Answers(all, old(drawn), target)
      ensures ok ==> total == Total(all[..drawn]) && inputs == Points(all[..drawn])
      ensures ok ==> values == Amounts(all[..drawn]) && scripts == Scripts(all[..drawn])
    {
      ghost var k0, h0 := drawn, highest;
      highest := if highest < target then target else highest;
      ReachTwice(all, 0, h0, target);
      while currentTotal < target && outputs != []
        invariant Aligned()
        invariant highest == if h0 < target then target else h0
        invariant Reach(all, drawn, target) == Reach(all, k0, target)
        decreases |outputs|
      {
        var out := outputs[0];
        if !out.readable {
          return false, 0, [], [], [];
        }
        Draw();
      }
      return true, currentTotal, currentInputs, currentInputValues, currentScripts;
    }
  }
}
