/**
 Consolidation of the wallet when shares move to a new group: all coins go into a few
 equal outputs, and every other party rebuilds the transaction from the coins it spends.
 */
module Consolidation {
  import opened Wrappers
  import opened Collections
  import opened Coins
  import opened Withdrawal

  datatype Params = Params(feeRate: int, inputsThreshold: int, outputsCount: nat)

  /** The transaction and its signature hashes. */
  datatype Built = Built(tx: Tx, hashes: seq<string>)

  // Integer division as the source language defines it, rounding toward zero.
  function TruncDiv(a: int, b: int): int
    requires b > 0
  {
    if a >= 0 then a / b else -((-a) / b)
  }

  function TruncMod(a: int, b: int): int
    requires b > 0
  {
    a - b * TruncDiv(a, b)
  }

  function Repeat<T>(item: T, n: nat): (items: seq<T>)
    ensures |items| == n && forall i :: 0 <= i < n ==> items[i] == item
  {
    seq(n, i => item)
  }

  predicate AllReadable(coins: seq<Coin>) {
    forall i :: 0 <= i < |coins| ==> coins[i].readable
  }

  /** The transaction whose size decides the fee: all coins in, the outputs still empty. */
  function Draft(coins: seq<Coin>, script: string, n: nat): (tx: Tx)
    ensures |tx.ins| == |coins| && forall i :: 0 <= i < |coins| ==> tx.ins[i] == coins[i].point
    ensures |tx.outs| == n && forall i :: 0 <= i < n ==> tx.outs[i] == TxOut(0, script)
  {
    Tx(Points(coins), Repeat(TxOut(0, script), n))
  }

  /** `n` outputs for `amount`: equal ones, the first with the remainder. */
  function Shares(amount: int, n: nat, script: string): seq<TxOut>
    requires n >= 1
  {
    [TxOut(TruncDiv(amount, n) + TruncMod(amount, n), script)] + Repeat(TxOut(TruncDiv(amount, n), script), n - 1)
  }

  function Consolidated(h: Helper, p: Params, script: string, coins: seq<Coin>): (r: Option<Built>)
    requires p.outputsCount >= 1
  {
    var n := p.outputsCount;
    var amount := Total(coins) - h.estimate(Draft(coins, script, n), p.feeRate);
    if !AllReadable(coins) || !WithdrawalAmountValid(TruncDiv(amount, n)) then None
    else
      var tx := Tx(Points(coins), Shares(amount, n, script));
      var hashes := HashesUpTo(h, Authored(tx, Scripts(coins), Amounts(coins), Total(coins), -1), |coins|);
      if hashes.None? then None else Some(Built(tx, hashes.value))
  }

  /** Arranges the wallet list in place and builds from it; inputs are read through the caller's own list. */
  method ConsolidateOutputs(h: Helper, p: Params, script: string, unspent: array<Coin>) returns (r: Option<Built>)
    requires p.outputsCount >= 1
    modifies unspent
    ensures Arrangement(old(unspent[..]), unspent[..])
    ensures r == Consolidated(h, p, script, unspent[..])
  {
    ArrangeOutputs(unspent);
    var arranged := unspent;
    ghost var coins := unspent[..];
    var n := p.outputsCount;
    var ins, total, readable := CollectInputs(unspent);
    if !readable {
      return None;
    }
    var outs := Repeat(TxOut(0, script), n);
    var fees := h.estimate(Tx(ins, outs), p.feeRate);
    var amount := total - fees;
    var each := TruncDiv(amount, n);
    if !WithdrawalAmountValid(each) {
      return None;
    }
    outs := Repeat(TxOut(each, script), n);
    outs := outs[0 := TxOut(outs[0].value + TruncMod(amount, n), script)];
    assert outs == Shares(amount, n, script);
    var tx := Tx(ins, outs);
    var t := Authored(tx, Scripts(arranged[..]), Amounts(arranged[..]), total, -1);
    var hashes := FormSignatureHashes(h, t);
    if hashes.None? {
      return None;
    }
    return Some(Built(tx, hashes.value));
  }

  /** The inputs, their total, and whether all of them could be read. */
  method CollectInputs(unspent: array<Coin>) returns (ins: seq<OutPoint>, total: int, readable: bool)
    ensures readable <==> AllReadable(unspent[..])
    ensures readable ==> ins == Points(unspent[..]) && total == Total(unspent[..])
  {
    ins, total, readable := [], 0, true;
    var i := 0;
    while i < unspent.Length
      invariant 0 <= i <= unspent.Length
      invariant ins == Points(unspent[..i]) && total == Total(unspent[..i])
      invariant forall j :: 0 <= j < i ==> unspent[j].readable
    {
      if !unspent[i].readable {
        assert !unspent[..][i].readable;
        return [], 0, false;
      }
      NextCoin(unspent[..], i);
      assert unspent[..][..i] == unspent[..i] && unspent[..][..i + 1] == unspent[..i + 1];
      ins := ins + [unspent[i].point];
      total := total + unspent[i].amount;
      i := i + 1;
    }
    assert unspent[..i] == unspent[..];
  }

  lemma {:induction false} RepeatTotal(out: TxOut, first: TxOut, n: nat)
    ensures OutsTotal([first] + Repeat(out, n)) == first.value + n * out.value
  {
    var outs := [first] + Repeat(out, n);
    if n == 0 {
      assert outs == [first] && [first][..0] == [];
    } else {
      RepeatTotal(out, first, n - 1);
      assert outs[..n] == [first] + Repeat(out, n - 1);
    }
  }

  /** Outputs to the same script that are equal, except that the first has less than one unit per output more. */
  ghost predicate Even(outs: seq<TxOut>, script: string) {
    && (forall i :: 0 <= i < |outs| ==> outs[i].script == script && 0 <= outs[0].value - outs[i].value < |outs|)
    && (forall i, j :: 1 <= i < |outs| && 1 <= j < |outs| ==> outs[i] == outs[j])
  }

  /** The shares are even and add up to the amount; all are above dust exactly if there is enough for all. */
  lemma SharesExact(amount: int, n: nat, script: string)
    requires n >= 1
    ensures TruncDiv(amount, n) >= DUST <==> amount >= n * DUST
    ensures amount >= n * DUST ==>
              var outs := Shares(amount, n, script);
              && |outs| == n && OutsTotal(outs) == amount && Even(outs, script)
              && forall i :: 0 <= i < n ==> outs[i].value >= DUST
  {
    EnoughForAll(amount, n);
    if amount >= n * DUST {
      var outs, each := Shares(amount, n, script), TruncDiv(amount, n);
      DivisionExact(amount, n);
      RepeatTotal(TxOut(each, script), outs[0], n - 1);
      SplitOff(n, each);
    }
  }

  lemma EnoughForAll(amount: int, n: int)
    requires n >= 1
    ensures TruncDiv(amount, n) >= DUST <==> amount >= n * DUST
  {
    if amount >= 0 {
      var q, r := amount / n, amount % n;
      assert amount == n * q + r;
      if q >= DUST {
        Scaled(n, DUST, q);
      } else {
        Scaled(n, q, DUST - 1);
      }
    }
  }

  lemma Scaled(n: int, a: int, b: int)
    requires n >= 0 && a <= b
    ensures n * a <= n * b
  {
  }

  /**
   A consolidation is exact: outputs and estimated fee add up to the coins spent, the outputs are even and
   each is at least the dust limit, all coins are spent, and hash `i` is that of the coin spent by input `i`.
   */
  lemma ConsolidationExact(h: Helper, p: Params, script: string, coins: seq<Coin>)
    requires p.outputsCount >= 1 && Consolidated(h, p, script, coins).Some?
    ensures var b := Consolidated(h, p, script, coins).value;
            && OutsTotal(b.tx.outs) + h.estimate(Draft(coins, script, p.outputsCount), p.feeRate) == Total(coins)
            && |b.tx.outs| == p.outputsCount && Even(b.tx.outs, script)
            && (forall i :: 0 <= i < |b.tx.outs| ==> b.tx.outs[i].value >= DUST)
            && b.tx.ins == Points(coins) && |b.hashes| == |coins|
            && forall i :: 0 <= i < |coins| ==>
                 coins[i].readable && h.sigHash(coins[i].script, b.tx, i, coins[i].amount) == Some(b.hashes[i])
  {
    var b := Consolidated(h, p, script, coins).value;
    SharesExact(Total(coins) - h.estimate(Draft(coins, script, p.outputsCount), p.feeRate), p.outputsCount, script);
    hide Shares, TruncDiv, Even, OutsTotal;
    HashesMatch(h, Authored(b.tx, Scripts(coins), Amounts(coins), Total(coins), -1), |coins|);
  }

  /**
   And it succeeds exactly if all coins can be read, what they leave after the fee is enough for every
   output to be above dust, and every input can be hashed.
   */
  lemma ConsolidatedWhen(h: Helper, p: Params, script: string, coins: seq<Coin>)
    requires p.outputsCount >= 1
    ensures var amount := Total(coins) - h.estimate(Draft(coins, script, p.outputsCount), p.feeRate);
            var tx := Tx(Points(coins), Shares(amount, p.outputsCount, script));
            Consolidated(h, p, script, coins).Some? <==>
              && AllReadable(coins) && amount >= p.outputsCount * DUST
              && Hashable(h, Authored(tx, Scripts(coins), Amounts(coins), Total(coins), -1))
  {
    var n := p.outputsCount;
    var amount := Total(coins) - h.estimate(Draft(coins, script, n), p.feeRate);
    var tx := Tx(Points(coins), Shares(amount, n, script));
    SharesExact(amount, n, script);
    hide Shares, TruncDiv;
    FormedWhen(h, Authored(tx, Scripts(coins), Amounts(coins), Total(coins), -1));
  }

  lemma DivisionExact(a: int, n: int)
    requires n > 0 && TruncDiv(a, n) > 0
    ensures a >= 0 && 0 <= TruncMod(a, n) < n && n * TruncDiv(a, n) + TruncMod(a, n) == a
  {
    assert TruncMod(a, n) == a % n;
  }

  lemma SplitOff(n: int, x: int)
    ensures x + (n - 1) * x == n * x
  {
  }

  // ---------- proposing and checking ----------

  datatype Data = Data(serializedTx: Serialized, sigData: seq<string>)

  method FormProposalData(h: Helper, p: Params, script: string, unspent: array<Coin>) returns (data: Option<Data>)
    requires p.outputsCount >= 1
    modifies unspent
    ensures data.Some? ==>
              && unspent.Length >= p.inputsThreshold && Arrangement(old(unspent[..]), unspent[..])
              && var b := Consolidated(h, p, script, unspent[..]);
                 b.Some? && data.value == Data(Encoded(b.value.tx), b.value.hashes)
    ensures data.None? ==>
              || (unspent.Length < p.inputsThreshold && unspent[..] == old(unspent[..]))
              || (Arrangement(old(unspent[..]), unspent[..]) && Consolidated(h, p, script, unspent[..]).None?)
  {
    if unspent.Length < p.inputsThreshold {
      return None;
    }
    var b := ConsolidateOutputs(h, p, script, unspent);
    if b.None? {
      return None;
    }
    return Some(Data(Encoded(b.value.tx), b.value.hashes));
  }

  /** The check of a proposal, for one way of arranging the coins it spends. */
  predicate Verifies(h: Helper, p: Params, script: string, data: Data, unspent: seq<Coin>, arranged: seq<Coin>)
    requires p.outputsCount >= 1
  {
    && data.serializedTx.Encoded? && |data.serializedTx.tx.ins| >= p.inputsThreshold
    && UsedInputs(data.serializedTx.tx.ins, Mapped(unspent)).Some?
    && Consolidated(h, p, script, arranged) == Some(Built(data.serializedTx.tx, data.sigData))
  }

  method VerifyProposedData(h: Helper, p: Params, script: string, data: Data, unspent: seq<Coin>) returns (ok: bool)
    requires p.outputsCount >= 1
    ensures data.serializedTx.Garbage? ==> !ok
    ensures data.serializedTx.Encoded? ==>
              var used := UsedInputs(data.serializedTx.tx.ins, Mapped(unspent));
              if used.None? then !ok
              else exists arranged :: Arrangement(used.value, arranged)
                                      && (ok <==> Verifies(h, p, script, data, unspent, arranged))
  {
    if data.serializedTx.Garbage? {
      return false;
    }
    var tx := data.serializedTx.tx;
    var used := FindUsedInputs(tx.ins, unspent);
    if used.None? {
      return false;
    }
    var list := new Coin[|used.value|](i requires 0 <= i < |used.value| => used.value[i]);
    assert list[..] == used.value;
    var b := ConsolidateOutputs(h, p, script, list);
    assert Arrangement(used.value, list[..]);
    ok := |tx.ins| >= p.inputsThreshold && b == Some(Built(tx, data.sigData));
    assert ok <==> Verifies(h, p, script, data, unspent, list[..]);
  }

  /**
   Completeness: what a proposer builds from its arranged wallet, every party with the same coins and
   unique outpoints in its own view rebuilds to the same transaction and hashes, however its own
   sort treats coins of equal amount.
   */
  lemma ConsolidationAccepted(h: Helper, p: Params, script: string, unspent: seq<Coin>, arranged: seq<Coin>, theirs: seq<Coin>)
    requires p.outputsCount >= 1 && |unspent| >= p.inputsThreshold && Arrangement(unspent, arranged)
    requires Consolidated(h, p, script, arranged).Some?
    requires UniquePoints(theirs) && forall c :: c in arranged ==> c in theirs
    ensures var b := Consolidated(h, p, script, arranged).value;
            && UsedInputs(b.tx.ins, Mapped(theirs)) == Some(arranged)
            && forall again :: Arrangement(arranged, again) ==>
                 Verifies(h, p, script, Data(Encoded(b.tx), b.hashes), theirs, again)
  {
    var ins := Points(arranged);
    MappedFacts(theirs);
    forall i | 0 <= i < |ins|
      ensures ins[i] in Mapped(theirs) && Mapped(theirs)[ins[i]] == arranged[i]
    {
      assert arranged[i] in arranged;
    }
    assert UsedInputs(ins, Mapped(theirs)).value == arranged;
    assert |arranged| == |multiset(arranged)| == |multiset(unspent)| == |unspent|;
  }

  /**
   Soundness: an accepted consolidation spends coins of the checking party's own wallet view, pays the
   new wallet only, in the configured number of even outputs of at least the dust limit, and loses nothing
   but the estimated fee of the coins listed. Each coin is counted once, and the outputs are covered by
   the wallet, exactly when no input is repeated.
   */
  lemma VerifiedIsExact(h: Helper, p: Params, script: string, data: Data, unspent: seq<Coin>, arranged: seq<Coin>)
    requires p.outputsCount >= 1 && Verifies(h, p, script, data, unspent, arranged)
    requires Arrangement(UsedInputs(data.serializedTx.tx.ins, Mapped(unspent)).value, arranged)
    ensures forall c :: c in arranged ==> c in unspent
    ensures var tx := data.serializedTx.tx;
            && tx.ins == Points(arranged) && |tx.ins| >= p.inputsThreshold && |tx.outs| == p.outputsCount
            && OutsTotal(tx.outs) + h.estimate(Draft(arranged, script, p.outputsCount), p.feeRate) == Total(arranged)
            && Even(tx.outs, script) && (forall i :: 0 <= i < |tx.outs| ==> tx.outs[i].value >= DUST)
            && |data.sigData| == |arranged|
            && (forall i :: 0 <= i < |arranged| ==>
                  h.sigHash(arranged[i].script, tx, i, arranged[i].amount) == Some(data.sigData[i]))
            && (NoDup(arranged) <==> NoDup(tx.ins))
            && (NoDup(tx.ins) ==> OutsTotal(tx.outs) <= Total(unspent))
  {
    var used := UsedInputs(data.serializedTx.tx.ins, Mapped(unspent)).value;
    SameCoins(used, arranged);
    WalletCoins(data.serializedTx.tx.ins, unspent, arranged);
    ConsolidationExact(h, p, script, arranged);
    hide Consolidated, UsedInputs, Mapped, NoDup, Even;
  }

  lemma SameCoins(coins: seq<Coin>, arranged: seq<Coin>)
    requires Arrangement(coins, arranged)
    ensures forall c :: c in arranged ==> c in coins
  {
    forall c | c in arranged
      ensures c in coins
    {
      assert c in multiset(arranged);
    }
  }

  // ---------- repeated inputs ----------

  lemma {:induction false} CopiesTotal(c: Coin, k: nat)
    ensures Total(Repeat(c, k)) == k * c.amount
  {
    if k > 0 {
      CopiesTotal(c, k - 1);
      assert Repeat(c, k)[..k - 1] == Repeat(c, k - 1);
      SplitOff(k, c.amount);
    }
  }

  /**
   Whatever is built from copies of one coin, enough of them for the threshold on the number of inputs,
   is accepted by a party whose whole wallet is that coin. The outputs and the estimated fee add up to
   all the copies, so the wallet covers the outputs exactly if the fee makes up for the copies after the first.
   */
  lemma RepeatVerified(h: Helper, c: Coin, p: Params, script: string, k: nat)
    requires p.outputsCount >= 1 && k >= p.inputsThreshold && Consolidated(h, p, script, Repeat(c, k)).Some?
    ensures var b, fee := Consolidated(h, p, script, Repeat(c, k)).value,
                          h.estimate(Draft(Repeat(c, k), script, p.outputsCount), p.feeRate);
            && UsedInputs(b.tx.ins, Mapped([c])) == Some(Repeat(c, k))
            && (forall again :: Arrangement(Repeat(c, k), again) ==>
                  Verifies(h, p, script, Data(Encoded(b.tx), b.hashes), [c], again))
            && OutsTotal(b.tx.outs) + fee == k * c.amount
            && (OutsTotal(b.tx.outs) <= Total([c]) <==> fee >= (k - 1) * c.amount)
  {
    var coins := Repeat(c, k);
    CopiesTotal(c, k);
    CopiesTotal(c, 1);
    assert Repeat(c, 1) == [c];
    ConsolidationExact(h, p, script, coins);
    assert LargestFirst(coins);
    ConsolidationAccepted(h, p, script, coins, coins, [c]);
    SplitOff(k, c.amount);
  }

  /**
   The condition on repeated inputs is needed: whatever the fee estimate, if copies of a coin leave
   outputs above the dust limit and more than the fee beyond the first copy, a proposal that lists them
   pays out more than the coin is worth and is accepted by a party whose whole wallet is that coin.
   */
  lemma RepeatUncovered(c: Coin, p: Params, script: string, k: nat, fee: (Tx, int) -> nat) returns (h: Helper, data: Data)
    requires p.outputsCount >= 1 && c.readable && k >= p.inputsThreshold
    requires fee(Draft(Repeat(c, k), script, p.outputsCount), p.feeRate) < (k - 1) * c.amount
    requires k * c.amount - fee(Draft(Repeat(c, k), script, p.outputsCount), p.feeRate) >= p.outputsCount * DUST
    ensures h.estimate == fee && data.serializedTx.Encoded?
    ensures UsedInputs(data.serializedTx.tx.ins, Mapped([c])) == Some(Repeat(c, k))
    ensures forall again :: Arrangement(Repeat(c, k), again) ==> Verifies(h, p, script, data, [c], again)
    ensures OutsTotal(data.serializedTx.tx.outs) > Total([c])
  {
    h := SimpleHelper(fee);
    CopiesConsolidated(c, p, script, k, fee);
    var b := Consolidated(h, p, script, Repeat(c, k)).value;
    data := Data(Encoded(b.tx), b.hashes);
    RepeatVerified(h, c, p, script, k);
  }

  lemma CopiesConsolidated(c: Coin, p: Params, script: string, k: nat, fee: (Tx, int) -> nat)
    requires p.outputsCount >= 1 && c.readable
    requires k * c.amount - fee(Draft(Repeat(c, k), script, p.outputsCount), p.feeRate) >= p.outputsCount * DUST
    ensures Consolidated(SimpleHelper(fee), p, script, Repeat(c, k)).Some?
  {
    CopiesTotal(c, k);
    ConsolidatedWhen(SimpleHelper(fee), p, script, Repeat(c, k));
  }
}
