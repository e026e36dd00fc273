/**
 Withdrawals from the UTXO wallet: building the transaction to be signed, moving the
 miner fee from the bridge to the receiver, and the independent rebuild by which every
 other party checks the proposal.
 */
module Withdrawal {
  import opened Wrappers
  import opened Collections
  import opened Coins

  datatype TxOut = TxOut(value: int, script: string)
  datatype Tx = Tx(ins: seq<OutPoint>, outs: seq<TxOut>)

  /** `txauthor.AuthoredTx`. */
  datatype Authored = Authored(tx: Tx, prevScripts: seq<string>, prevValues: seq<nat>, totalInput: int, changeIndex: int)

  /** What the transaction author does on seeing the inputs fetched so far. */
  datatype Decision = Ask(target: int) | Build(change: Option<int>) | Abort

  /**
   The components a withdrawal is built with. `arrange` is the library sort, `payTo` makes the
   script of an address (none for a bad address), `estimate` is the fee of a transaction at a
   rate, `firstTarget` and `decide` are the authoring library, `sigHash` the signature hash.
   */
  datatype Helper = Helper(
    arrange: seq<Coin> -> seq<Coin>,
    payTo: string -> Option<string>,
    estimate: (Tx, int) -> nat,
    firstTarget: (int, seq<TxOut>) -> int,
    decide: (int, seq<TxOut>, seq<Coin>) -> Decision,
    sigHash: (string, Tx, nat, int) -> Option<string>)

  /** The sort is an arrangement of its argument. */
  ghost predicate Arranges(h: Helper) {
    forall coins :: Arrangement(coins, h.arrange(coins))
  }

  /**
   The contract of the authoring library: it asks again only for more than it has, and what it
   builds spends no more than its inputs.
   */
  ghost predicate Authors(h: Helper) {
    forall rate, outs, coins ::
      var d := h.decide(rate, outs, coins);
      && (d.Ask? ==> d.target > Total(coins))
      && (d.Build? ==> OutsTotal(outs) + (if d.change.Some? then d.change.value else 0) <= Total(coins))
      && (d.Build? && d.change.Some? ==> d.change.value >= 0)
  }

  function OutsTotal(outs: seq<TxOut>): int {
    if outs == [] then 0 else OutsTotal(outs[..|outs| - 1]) + outs[|outs| - 1].value
  }

  const DUST := 547
  const DEFAULT_FEE_RATE := 1000
  const MAX_FEE_RATE := 5000

  predicate WithdrawalAmountValid(amount: int) {
    amount >= DUST
  }

  predicate FeeRateValid(rate: int) {
    DEFAULT_FEE_RATE <= rate <= MAX_FEE_RATE
  }

  function Distance(a: int, b: int): nat {
    if a <= b then b - a else a - b
  }

  /** The node's estimate, or the allowed rate next to it; the lowest one if the node gives none. */
  function EstimateFeeOrDefault(estimated: Option<int>): (rate: int)
    ensures FeeRateValid(rate) && (estimated.None? ==> forall r :: FeeRateValid(r) ==> rate <= r)
    ensures estimated.Some? ==> forall r :: FeeRateValid(r) ==> Distance(rate, estimated.value) <= Distance(r, estimated.value)
  {
    if estimated.None? || estimated.value < DEFAULT_FEE_RATE then DEFAULT_FEE_RATE
    else if estimated.value > MAX_FEE_RATE then MAX_FEE_RATE
    else estimated.value
  }

  // ---------- authoring ----------

  datatype Selection = Selection(count: nat, change: Option<int>)

  /** The authoring loop once `k` coins have been fetched. */
  function AuthorFrom(h: Helper, rate: int, outs: seq<TxOut>, coins: seq<Coin>, k: nat): (r: Option<Selection>)
    requires k <= |coins|
    ensures r.Some? ==> k <= r.value.count <= |coins|
    decreases |coins| - k
  {
    match h.decide(rate, outs, coins[..k])
    case Abort => None
    case Build(change) => Some(Selection(k, change))
    case Ask(t) =>
      var k' := Reach(coins, k, t);
      if Total(coins[..k']) < t || k' <= k then None else AuthorFrom(h, rate, outs, coins, k')
  }

  /** How many of the arranged coins the author spends, and its change output if it makes one. */
  function Select(h: Helper, rate: int, outs: seq<TxOut>, coins: seq<Coin>): (r: Option<Selection>)
    ensures r.Some? ==> r.value.count <= |coins|
  {
    var t := h.firstTarget(rate, outs);
    var k := Reach(coins, 0, t);
    if Total(coins[..k]) < t then None else AuthorFrom(h, rate, outs, coins, k)
  }

  lemma {:induction false} AuthorReplays(h: Helper, rate: int, outs: seq<TxOut>, coins: seq<Coin>, k: nat, n: nat)
    requires k <= n <= |coins|
    requires AuthorFrom(h, rate, outs, coins, k).Some? && AuthorFrom(h, rate, outs, coins, k).value.count == n
    ensures AuthorFrom(h, rate, outs, coins[..n], k) == AuthorFrom(h, rate, outs, coins, k)
    decreases |coins| - k
  {
    assert coins[..n][..k] == coins[..k];
    var d := h.decide(rate, outs, coins[..k]);
    if d.Ask? {
      var k' := Reach(coins, k, d.target);
      ReachInPrefix(coins, n, k, d.target);
      assert coins[..n][..k'] == coins[..k'];
      AuthorReplays(h, rate, outs, coins, k', n);
    }
  }

  /** Selecting again from exactly the selected coins makes the same selection. */
  lemma SelectReplays(h: Helper, rate: int, outs: seq<TxOut>, coins: seq<Coin>)
    requires Select(h, rate, outs, coins).Some?
    ensures var n := Select(h, rate, outs, coins).value.count;
            Select(h, rate, outs, coins[..n]) == Select(h, rate, outs, coins)
  {
    var n := Select(h, rate, outs, coins).value.count;
    var t := h.firstTarget(rate, outs);
    var k := Reach(coins, 0, t);
    ReachInPrefix(coins, n, 0, t);
    assert coins[..n][..k] == coins[..k];
    AuthorReplays(h, rate, outs, coins, k, n);
  }

  function NewUnsignedTransaction(h: Helper, unspent: seq<Coin>, rate: int, outs: seq<TxOut>, changeAddr: string)
    : (r: Option<Authored>)
  {
    var changeScript := h.payTo(changeAddr);
    if changeScript.None? then None
    else
      var arranged := h.arrange(unspent);
      var s := Select(h, rate, outs, arranged);
      if s.None? then None
      else
        var taken := arranged[..s.value.count];
        var change := if s.value.change.Some? then [TxOut(s.value.change.value, changeScript.value)] else [];
        Some(Authored(Tx(Points(taken), outs + change), Scripts(taken), Amounts(taken), Total(taken),
                      if change == [] then -1 else |outs|))
  }

  /** The author spent `spent` and made the change that it decided on for just these coins. */
  ghost predicate AuthoredFrom(h: Helper, t: Authored, outs: seq<TxOut>, spent: seq<Coin>, change: Option<int>,
                               rate: int, bridge: string) {
    && h.decide(rate, outs, spent) == Build(change)
    && t.tx.ins == Points(spent) && t.prevScripts == Scripts(spent) && t.prevValues == Amounts(spent)
    && t.totalInput == Total(spent)
    && (change.None? ==> t.tx.outs == outs && t.changeIndex == -1)
    && (change.Some? ==> t.tx.outs == outs + [TxOut(change.value, bridge)] && t.changeIndex == |outs|)
  }

  lemma {:induction false} AuthorDecided(h: Helper, rate: int, outs: seq<TxOut>, coins: seq<Coin>, k: nat)
    requires k <= |coins| && AuthorFrom(h, rate, outs, coins, k).Some?
    ensures var s := AuthorFrom(h, rate, outs, coins, k).value;
            h.decide(rate, outs, coins[..s.count]) == Build(s.change)
    decreases |coins| - k
  {
    var d := h.decide(rate, outs, coins[..k]);
    if d.Ask? {
      AuthorDecided(h, rate, outs, coins, Reach(coins, k, d.target));
    }
  }

  /**
   The authored transaction spends the arranged coins on which the author decided, has the given outputs
   and exactly the change decided on, paid to the change address, and leaves the rest to the miner: with an
   author that keeps its contract, nothing negative.
   */
  lemma AuthoredExact(h: Helper, unspent: seq<Coin>, rate: int, outs: seq<TxOut>, changeAddr: string)
    returns (spent: seq<Coin>, change: Option<int>)
    requires NewUnsignedTransaction(h, unspent, rate, outs, changeAddr).Some?
    ensures var t := NewUnsignedTransaction(h, unspent, rate, outs, changeAddr).value;
            && h.payTo(changeAddr).Some? && spent <= h.arrange(unspent)
            && AuthoredFrom(h, t, outs, spent, change, rate, h.payTo(changeAddr).value)
            && MinerFee(t) == Total(spent) - OutsTotal(outs) - Given(change)
            && (Authors(h) ==> MinerFee(t) >= 0 && Given(change) >= 0)
  {
    var arranged := h.arrange(unspent);
    var s := Select(h, rate, outs, arranged).value;
    AuthorDecided(h, rate, outs, arranged, Reach(arranged, 0, h.firstTarget(rate, outs)));
    spent, change := arranged[..s.count], s.change;
    if change.Some? {
      assert (outs + [TxOut(change.value, h.payTo(changeAddr).value)])[..|outs|] == outs;
    } else {
      assert outs + [] == outs;
    }
  }

  function Given(change: Option<int>): int {
    if change.Some? then change.value else 0
  }

  /** The last of the targets was reached. */
  predicate Met(coins: seq<Coin>, targets: seq<int>)
    requires targets != []
  {
    Total(coins[..DrawnAfter(coins, targets)]) >= targets[|targets| - 1]
  }

  /** What the author decides after fetching for `targets`. */
  function After(h: Helper, rate: int, outs: seq<TxOut>, coins: seq<Coin>, targets: seq<int>): Decision {
    h.decide(rate, outs, coins[..DrawnAfter(coins, targets)])
  }

  /** The author fetches for `targets` in turn: each is what it asks for once the one before is met. */
  ghost predicate Asked(h: Helper, rate: int, outs: seq<TxOut>, coins: seq<Coin>, targets: seq<int>) {
    && targets != [] && targets[0] == h.firstTarget(rate, outs)
    && forall i :: 1 <= i < |targets| ==>
         Met(coins, targets[..i]) && After(h, rate, outs, coins, targets[..i]) == Ask(targets[i])
  }

  lemma AskedNext(h: Helper, rate: int, outs: seq<TxOut>, coins: seq<Coin>, targets: seq<int>, t: int)
    requires Asked(h, rate, outs, coins, targets) && Met(coins, targets) && After(h, rate, outs, coins, targets) == Ask(t)
    ensures Asked(h, rate, outs, coins, targets + [t])
    ensures DrawnAfter(coins, targets + [t]) == Reach(coins, DrawnAfter(coins, targets), t)
  {
    var more := targets + [t];
    assert more[..|targets|] == targets;
    forall i | 1 <= i < |more|
      ensures Met(coins, more[..i]) && After(h, rate, outs, coins, more[..i]) == Ask(more[i])
    {
      assert more[..i] == targets[..i];
      if i == |targets| {
        assert targets[..i] == targets;
      }
    }
  }

  /** The author goes on from met targets until one is not met or it stops asking. */
  lemma {:induction false} AuthorAsks(h: Helper, rate: int, outs: seq<TxOut>, coins: seq<Coin>, targets: seq<int>)
    returns (all: seq<int>)
    requires Authors(h) && Asked(h, rate, outs, coins, targets) && Met(coins, targets)
    ensures Asked(h, rate, outs, coins, all)
    ensures Ends(h, rate, outs, coins, all, AuthorFrom(h, rate, outs, coins, DrawnAfter(coins, targets)))
    decreases |coins| - DrawnAfter(coins, targets)
  {
    all := targets;
    var d := After(h, rate, outs, coins, targets);
    if d.Ask? {
      AskedNext(h, rate, outs, coins, targets, d.target);
      all := targets + [d.target];
      if Met(coins, all) {
        all := AuthorAsks(h, rate, outs, coins, all);
      }
    }
  }

  /** Fetching for `targets` ended authoring with this selection, or with none because funds or the author gave out. */
  ghost predicate Ends(h: Helper, rate: int, outs: seq<TxOut>, coins: seq<Coin>, targets: seq<int>, r: Option<Selection>)
    requires targets != []
  {
    var d := After(h, rate, outs, coins, targets);
    && (r.Some? <==> Met(coins, targets) && d.Build?)
    && (r.None? <==> !Met(coins, targets) || d.Abort?)
    && (r.Some? ==> r.value == Selection(DrawnAfter(coins, targets), d.change))
  }

  /**
   Authoring is the input source asked for one target after the other: it selects exactly the coins drawn
   when the author stops asking, and fails exactly if a target cannot be met or the author gives up.
   */
  lemma SelectionExact(h: Helper, rate: int, outs: seq<TxOut>, coins: seq<Coin>) returns (targets: seq<int>)
    requires Authors(h)
    ensures Asked(h, rate, outs, coins, targets) && Ends(h, rate, outs, coins, targets, Select(h, rate, outs, coins))
  {
    var t := h.firstTarget(rate, outs);
    targets := [t];
    DrawnOnce(coins, t);
    hide Reach, DrawnAfter, AuthorFrom, Authors, Total;
    assert Asked(h, rate, outs, coins, targets);
    if Met(coins, targets) {
      targets := AuthorAsks(h, rate, outs, coins, targets);
    }
  }

  lemma DrawnOnce(coins: seq<Coin>, t: int)
    ensures DrawnAfter(coins, [t]) == Reach(coins, 0, t)
  {
    assert [t][..0] == [];
  }

  // ---------- the fee ----------

  /** One receiver output, and a change output or none. */
  predicate Shaped(t: Authored) {
    (t.changeIndex == -1 && |t.tx.outs| == 1) || (t.changeIndex == 1 && |t.tx.outs| == 2)
  }

  function Script(s: Option<string>): string {
    if s.Some? then s.value else ""
  }

  function Lower(out: TxOut, fee: int): TxOut {
    out.(value := out.value - fee)
  }

  function WithChange(h: Helper, tx: Tx, tssAddr: string): Tx {
    tx.(outs := tx.outs + [TxOut(0, Script(h.payTo(tssAddr)))])
  }

  /** The transaction after moving the miner fee from the bridge's funds to the withdrawn amount. */
  function SubtractFee(h: Helper, t: Authored, rate: int, tssAddr: string): Authored
    requires Shaped(t)
  {
    var fee := h.estimate(t.tx, rate);
    var out := t.tx.outs[0];
    if !WithdrawalAmountValid(out.value - fee) then t
    else if t.changeIndex != -1 then
      var change := t.tx.outs[1];
      t.(tx := t.tx.(outs := [Lower(out, fee), change.(value := change.value + fee)]))
    else
      var extended := WithChange(h, t.tx, tssAddr);
      var fee' := h.estimate(extended, rate);
      var change := t.totalInput - (out.value - fee') - fee';
      if !WithdrawalAmountValid(out.value - fee') then t
      else if !WithdrawalAmountValid(change) then t.(tx := t.tx.(outs := [Lower(out, fee)]))
      else t.(tx := extended.(outs := [Lower(out, fee'), extended.outs[1].(value := change)]), changeIndex := 1)
  }

  /** The transaction as authored: the payment, and the author's change if it makes one. */
  function Paying(ins: seq<OutPoint>, payment: TxOut, change: Option<int>, bridge: string): Tx {
    Tx(ins, [payment] + if change.Some? then [TxOut(change.value, bridge)] else [])
  }

  /**
   Who pays the miner. The receiver does, by exactly the estimated fee, unless that would leave it dust.
   With change the bridge gets the fee back there. Without, a change output is added if what the inputs
   leave is no dust, and the fee is then that of the longer transaction.
   */
  predicate Pays(h: Helper, tx: Tx, payment: TxOut, change: Option<int>, bridge: string, total: int, rate: int) {
    var amount, fee := payment.value, h.estimate(Paying(tx.ins, payment, change, bridge), rate);
    var fee' := h.estimate(Paying(tx.ins, payment, Some(0), bridge), rate);
    && (change.Some? && amount - fee >= DUST ==>
          tx.outs == [TxOut(amount - fee, payment.script), TxOut(change.value + fee, bridge)])
    && (change.Some? && amount - fee < DUST ==> tx.outs == [payment, TxOut(change.value, bridge)])
    && (change.None? && (amount - fee < DUST || amount - fee' < DUST) ==> tx.outs == [payment])
    && (change.None? && amount - fee >= DUST && amount - fee' >= DUST ==>
          tx.outs == if total - amount >= DUST then [TxOut(amount - fee', payment.script), TxOut(total - amount, bridge)]
                     else [TxOut(amount - fee, payment.script)])
  }

  function MinerFee(t: Authored): int {
    t.totalInput - OutsTotal(t.tx.outs)
  }

  /**
   Fee shifting moves exactly the estimated fee from the receiver, in exactly the cases of `Pays`, and
   conserves money: outputs never exceed inputs, the receiver is never lowered below the dust limit, an
   existing change output never loses, the miner fee stays the same when change existed and is exactly
   the with-change estimate when change is added; inputs are untouched.
   */
  lemma FeeConserves(h: Helper, t: Authored, rate: int, tssAddr: string)
    requires Shaped(t) && MinerFee(t) >= 0
    ensures var t' := SubtractFee(h, t, rate, tssAddr);
            && Shaped(t') && MinerFee(t') >= 0
            && t'.tx.ins == t.tx.ins && t'.totalInput == t.totalInput
            && t'.prevScripts == t.prevScripts && t'.prevValues == t.prevValues
            && t'.tx.outs[0].script == t.tx.outs[0].script && t'.tx.outs[0].value <= t.tx.outs[0].value
            && (t'.tx.outs[0].value < t.tx.outs[0].value ==> t'.tx.outs[0].value >= DUST)
            && Pays(h, t'.tx, t.tx.outs[0], OwnChange(t), ChangeScript(h, t, tssAddr), t.totalInput, rate)
            && (t.changeIndex == 1 ==>
                  && MinerFee(t') == MinerFee(t) && t'.changeIndex == 1
                  && t'.tx.outs[1].script == t.tx.outs[1].script && t'.tx.outs[1].value >= t.tx.outs[1].value
                  && t'.tx.outs[0].value + t'.tx.outs[1].value == t.tx.outs[0].value + t.tx.outs[1].value)
            && (t.changeIndex == -1 && t'.changeIndex == 1 ==>
                  && MinerFee(t') == h.estimate(WithChange(h, t.tx, tssAddr), rate)
                  && t'.tx.outs[1] == TxOut(t.totalInput - t.tx.outs[0].value, Script(h.payTo(tssAddr)))
                  && t'.tx.outs[1].value >= DUST)
            && (t.changeIndex == -1 && t'.changeIndex == -1 ==>
                  MinerFee(t') == MinerFee(t) || MinerFee(t') == MinerFee(t) + h.estimate(t.tx, rate))
  {
    var t' := SubtractFee(h, t, rate, tssAddr);
    OutsTotalSmall(t.tx.outs);
    OutsTotalSmall(t'.tx.outs);
    ShiftExact(h, t, rate, tssAddr);
  }

  function OwnChange(t: Authored): Option<int>
    requires Shaped(t)
  {
    if t.changeIndex == 1 then Some(t.tx.outs[1].value) else None
  }

  /** Where change goes: where it went so far, or to the bridge. */
  function ChangeScript(h: Helper, t: Authored, tssAddr: string): string
    requires Shaped(t)
  {
    if t.changeIndex == 1 then t.tx.outs[1].script else Script(h.payTo(tssAddr))
  }

  lemma ShiftExact(h: Helper, t: Authored, rate: int, tssAddr: string)
    requires Shaped(t)
    ensures var t' := SubtractFee(h, t, rate, tssAddr);
            Pays(h, t'.tx, t.tx.outs[0], OwnChange(t), ChangeScript(h, t, tssAddr), t.totalInput, rate)
  {
    assert Paying(t.tx.ins, t.tx.outs[0], OwnChange(t), ChangeScript(h, t, tssAddr)) == t.tx;
    if t.changeIndex == -1 {
      assert Paying(t.tx.ins, t.tx.outs[0], Some(0), ChangeScript(h, t, tssAddr)) == WithChange(h, t.tx, tssAddr);
    }
  }

  lemma OutsTotalSmall(outs: seq<TxOut>)
    requires 1 <= |outs| <= 2
    ensures OutsTotal(outs) == outs[0].value + if |outs| == 2 then outs[1].value else 0
  {
    assert outs[..1] == [outs[0]] && outs[..0] == [];
    assert [outs[0]][..0] == [];
  }

  /** A transaction under construction, updated in place. */
  class MsgTx {
    var ins: seq<OutPoint>
    var outs: seq<TxOut>

    constructor (tx: Tx)
      ensures View() == tx
    {
      ins, outs := tx.ins, tx.outs;
    }

    function View(): Tx
      reads this
    {
      Tx(ins, outs)
    }
  }

  class AuthoredTx {
    var tx: MsgTx
    var changeIndex: int
    const prevScripts: seq<string>
    const prevValues: seq<nat>
    const totalInput: int

    constructor (t: Authored)
      ensures View() == t && fresh(tx)
    {
      tx := new MsgTx(t.tx);
      changeIndex, prevScripts, prevValues, totalInput := t.changeIndex, t.prevScripts, t.prevValues, t.totalInput;
    }

    function View(): Authored
      reads this, tx
    {
      Authored(tx.View(), prevScripts, prevValues, totalInput, changeIndex)
    }

    method SubtractFeeFromWithdrawal(h: Helper, rate: int, tssAddr: string)
      requires Shaped(View())
      modifies this, tx
      ensures View() == SubtractFee(h, old(View()), rate, tssAddr)
    {
      var fee := h.estimate(tx.View(), rate);
      if !WithdrawalAmountValid(tx.outs[0].value - fee) {
        return;
      }
      if changeIndex != -1 {
        tx.outs := tx.outs[0 := Lower(tx.outs[0], fee)];
        tx.outs := tx.outs[changeIndex := tx.outs[changeIndex].(value := tx.outs[changeIndex].value + fee)];
        return;
      }
      var txWithChange := new MsgTx(tx.View());
      txWithChange.outs := txWithChange.outs + [TxOut(0, Script(h.payTo(tssAddr)))];
      var feeWithChange := h.estimate(txWithChange.View(), rate);
      var amountWithChange := tx.outs[0].value - feeWithChange;
      if !WithdrawalAmountValid(amountWithChange) {
        return;
      }
      var change := totalInput - amountWithChange - feeWithChange;
      if !WithdrawalAmountValid(change) {
        tx.outs := tx.outs[0 := Lower(tx.outs[0], fee)];
        return;
      }
      txWithChange.outs := txWithChange.outs[0 := Lower(txWithChange.outs[0], feeWithChange)];
      txWithChange.outs := txWithChange.outs[1 := txWithChange.outs[1].(value := change)];
      tx := txWithChange;
      changeIndex := 1;
    }
  }

  // ---------- signature hashes ----------

  /** The hashes of the first `k` inputs; none as soon as one of them fails. */
  function HashesUpTo(h: Helper, t: Authored, k: nat): (r: Option<seq<string>>)
    requires k <= |t.prevScripts| == |t.prevValues|
    ensures r.Some? ==> |r.value| == k
  {
    if k == 0 then Some([])
    else
      var before := HashesUpTo(h, t, k - 1);
      var hash := h.sigHash(t.prevScripts[k - 1], t.tx, k - 1, t.prevValues[k - 1]);
      if before.None? || hash.None? then None else Some(before.value + [hash.value])
  }

  function SignatureHashes(h: Helper, t: Authored): Option<seq<string>>
    requires |t.prevScripts| == |t.prevValues|
  {
    HashesUpTo(h, t, |t.prevScripts|)
  }

  method FormSignatureHashes(h: Helper, t: Authored) returns (hashes: Option<seq<string>>)
    requires |t.prevScripts| == |t.prevValues| == |t.tx.ins|
    ensures hashes == SignatureHashes(h, t)
    ensures hashes.Some? ==> |hashes.value| == |t.tx.ins| && forall i :: 0 <= i < |t.tx.ins| ==>
              h.sigHash(t.prevScripts[i], t.tx, i, t.prevValues[i]) == Some(hashes.value[i])
  {
    var filled: seq<string> := [];
    var i := 0;
    while i < |t.prevScripts|
      invariant 0 <= i <= |t.prevScripts|
      invariant HashesUpTo(h, t, i) == Some(filled)
      invariant forall j :: 0 <= j < i ==> h.sigHash(t.prevScripts[j], t.tx, j, t.prevValues[j]) == Some(filled[j])
    {
      var hash := h.sigHash(t.prevScripts[i], t.tx, i, t.prevValues[i]);
      if hash.None? {
        NoHash(h, t, i + 1, |t.prevScripts|);
        return None;
      }
      filled := filled + [hash.value];
      i := i + 1;
    }
    return Some(filled);
  }

  lemma {:induction false} NoHash(h: Helper, t: Authored, k: nat, n: nat)
    requires k <= n <= |t.prevScripts| == |t.prevValues| && HashesUpTo(h, t, k).None?
    ensures HashesUpTo(h, t, n).None?
    decreases n
  {
    if k < n {
      NoHash(h, t, k, n - 1);
    }
  }

  // ---------- finding spent coins ----------

  /** The wallet's coins by outpoint; a later entry replaces an earlier one. */
  function Mapped(unspent: seq<Coin>): map<OutPoint, Coin> {
    if unspent == [] then map[]
    else Mapped(unspent[..|unspent| - 1])[unspent[|unspent| - 1].point := unspent[|unspent| - 1]]
  }

  method MapUnspent(unspent: seq<Coin>) returns (m: map<OutPoint, Coin>)
    ensures m == Mapped(unspent)
  {
    m := map[];
    var i := 0;
    while i < |unspent|
      invariant 0 <= i <= |unspent|
      invariant m == Mapped(unspent[..i])
    {
      m := m[unspent[i].point := unspent[i]];
      i := i + 1;
      assert unspent[..i][..i - 1] == unspent[..i - 1];
    }
    assert unspent[..i] == unspent;
  }

  predicate UniquePoints(unspent: seq<Coin>) {
    forall c, d :: c in unspent && d in unspent && c.point == d.point ==> c == d
  }

  lemma {:induction false} MappedFacts(unspent: seq<Coin>)
    ensures forall p :: p in Mapped(unspent) ==> Mapped(unspent)[p] in unspent && Mapped(unspent)[p].point == p
    ensures forall c :: c in unspent ==> c.point in Mapped(unspent)
    ensures UniquePoints(unspent) ==> forall c :: c in unspent ==> Mapped(unspent)[c.point] == c
  {
    if unspent != [] {
      MappedFacts(unspent[..|unspent| - 1]);
    }
  }

  /** Of several entries with one outpoint the last is found. */
  lemma {:induction false} LastIsFound(unspent: seq<Coin>, i: nat)
    requires i < |unspent| && forall j :: i < j < |unspent| ==> unspent[j].point != unspent[i].point
    ensures unspent[i].point in Mapped(unspent) && Mapped(unspent)[unspent[i].point] == unspent[i]
    decreases |unspent|
  {
    if i < |unspent| - 1 {
      LastIsFound(unspent[..|unspent| - 1], i);
    }
  }

  /** The coins behind the inputs of a transaction, in input order; none if one is unknown. */
  function UsedInputs(ins: seq<OutPoint>, m: map<OutPoint, Coin>): (r: Option<seq<Coin>>)
    ensures r.Some? <==> forall i :: 0 <= i < |ins| ==> ins[i] in m
    ensures r.Some? ==> |r.value| == |ins| && forall i :: 0 <= i < |ins| ==> r.value[i] == m[ins[i]]
  {
    if forall i :: 0 <= i < |ins| ==> ins[i] in m
    then Some(seq(|ins|, i requires 0 <= i < |ins| && ins[i] in m => m[ins[i]])) else None
  }

  method FindUsedInputs(ins: seq<OutPoint>, unspent: seq<Coin>) returns (used: Option<seq<Coin>>)
    ensures used == UsedInputs(ins, Mapped(unspent))
  {
    var m := MapUnspent(unspent);
    var found: seq<Coin> := [];
    var i := 0;
    while i < |ins|
      invariant 0 <= i <= |ins| && |found| == i
      invariant forall j :: 0 <= j < i ==> ins[j] in m && found[j] == m[ins[j]]
    {
      if ins[i] !in m {
        return None;
      }
      found := found + [m[ins[i]]];
      i := i + 1;
    }
    assert UsedInputs(ins, m).Some? && UsedInputs(ins, m).value == found;
    return Some(found);
  }

  // ---------- proposing and checking ----------

  /** The parts of a deposit record that a withdrawal uses; the amount is none when it does not parse. */
  datatype Deposit = Deposit(id: string, withdrawalAmount: Option<int>, receiver: string)

  datatype Serialized = Encoded(tx: Tx) | Garbage(raw: nat)

  datatype Proposal = Proposal(depositId: string, serializedTx: Serialized, feeRate: int, sigData: seq<string>)

  /** The low 64 bits as a signed number. */
  function Int64(x: int): int {
    (x + 0x8000_0000_0000_0000) % 0x1_0000_0000_0000_0000 - 0x8000_0000_0000_0000
  }

  /** It differs by a multiple of the range and lies in it, so numbers of 64 bits are kept. */
  lemma Int64Exact(x: int) returns (q: int)
    ensures x == Int64(x) + q * 0x1_0000_0000_0000_0000
    ensures -0x8000_0000_0000_0000 <= Int64(x) < 0x8000_0000_0000_0000
    ensures -0x8000_0000_0000_0000 <= x < 0x8000_0000_0000_0000 ==> Int64(x) == x
  {
    q := (x + 0x8000_0000_0000_0000) / 0x1_0000_0000_0000_0000;
  }

  /** The transaction that pays a deposit from the given coins. */
  function Rebuilt(h: Helper, deposit: Deposit, coins: seq<Coin>, rate: int, tssAddr: string): (r: Option<Authored>)
    ensures r.Some? ==> |r.value.prevScripts| == |r.value.prevValues| == |r.value.tx.ins|
  {
    var script := h.payTo(deposit.receiver);
    if deposit.withdrawalAmount.None? || script.None? then None
    else
      var outs := [TxOut(Int64(deposit.withdrawalAmount.value), script.value)];
      var t := NewUnsignedTransaction(h, coins, rate, outs, tssAddr);
      if t.None? then None else Some(SubtractFee(h, t.value, rate, tssAddr))
  }

  function FormSigningData(h: Helper, deposit: Deposit, unspent: seq<Coin>, rate: int, tssAddr: string)
    : Option<Proposal>
  {
    var t := Rebuilt(h, deposit, unspent, rate, tssAddr);
    if t.None? then None
    else
      var hashes := SignatureHashes(h, t.value);
      if hashes.None? then None else Some(Proposal(deposit.id, Encoded(t.value.tx), rate, hashes.value))
  }

  predicate IsValid(h: Helper, data: Proposal, deposit: Deposit, unspent: seq<Coin>, tssAddr: string) {
    && data.serializedTx.Encoded? && FeeRateValid(data.feeRate)
    && var used := UsedInputs(data.serializedTx.tx.ins, Mapped(unspent));
       used.Some? &&
       var t := Rebuilt(h, deposit, used.value, data.feeRate, tssAddr);
       t.Some? && t.value.tx == data.serializedTx.tx && SignatureHashes(h, t.value) == Some(data.sigData)
  }

  /** What building from a list of coins spends: a prefix of the arranged list. */
  lemma RebuiltFrom(h: Helper, deposit: Deposit, coins: seq<Coin>, rate: int, tssAddr: string) returns (taken: seq<Coin>)
    requires Arranges(h) && Rebuilt(h, deposit, coins, rate, tssAddr).Some?
    ensures Rebuilt(h, deposit, coins, rate, tssAddr).value.tx.ins == Points(taken)
    ensures forall c :: c in taken ==> c in coins
    ensures Rebuilt(h, deposit, taken, rate, tssAddr) == Rebuilt(h, deposit, coins, rate, tssAddr)
  {
    var outs := [TxOut(Int64(deposit.withdrawalAmount.value), h.payTo(deposit.receiver).value)];
    var arranged := h.arrange(coins);
    assert Arrangement(coins, arranged);
    var n := Select(h, rate, outs, arranged).value.count;
    taken := arranged[..n];
    assert Arrangement(taken, h.arrange(taken)) && LargestFirst(taken);
    SelectReplays(h, rate, outs, arranged);
    assert taken[..n] == taken;
    forall c | c in taken
      ensures c in coins
    {
      assert c in multiset(arranged);
    }
  }

  /**
   Completeness: whatever a proposer builds from its coins at an allowed fee rate, every party that
   knows the deposit and has the spent coins in its own wallet view, with unique outpoints, accepts.
   */
  lemma ProposalAccepted(h: Helper, deposit: Deposit, unspent: seq<Coin>, estimated: Option<int>, tssAddr: string,
                         theirs: seq<Coin>)
    requires Arranges(h)
    requires FormSigningData(h, deposit, unspent, EstimateFeeOrDefault(estimated), tssAddr).Some?
    requires UniquePoints(theirs)
    requires var data := FormSigningData(h, deposit, unspent, EstimateFeeOrDefault(estimated), tssAddr).value;
             forall c :: c in unspent && c.point in data.serializedTx.tx.ins ==> c in theirs
    ensures IsValid(h, FormSigningData(h, deposit, unspent, EstimateFeeOrDefault(estimated), tssAddr).value,
                    deposit, theirs, tssAddr)
  {
    var rate := EstimateFeeOrDefault(estimated);
    var taken := RebuiltFrom(h, deposit, unspent, rate, tssAddr);
    var ins := Points(taken);
    MappedFacts(theirs);
    forall i | 0 <= i < |ins|
      ensures ins[i] in Mapped(theirs) && Mapped(theirs)[ins[i]] == taken[i]
    {
      assert taken[i] in taken && taken[i].point == ins[i] && ins[i] in ins;
    }
    assert UsedInputs(ins, Mapped(theirs)).value == taken;
  }

  /**
   What the other parties may rely on once a withdrawal transaction passed the check: it spends coins on
   which the author decided, pays receiver, bridge and miner as `Pays` says, and carries the right hashes.
   */
  ghost predicate Honest(h: Helper, tx: Tx, sigData: seq<string>, deposit: Deposit, spent: seq<Coin>, change: Option<int>,
                         rate: int, tssAddr: string) {
    && deposit.withdrawalAmount.Some? && h.payTo(deposit.receiver).Some? && h.payTo(tssAddr).Some?
    && var payment := TxOut(Int64(deposit.withdrawalAmount.value), h.payTo(deposit.receiver).value);
       var bridge := h.payTo(tssAddr).value;
       && h.decide(rate, [payment], spent) == Build(change)
       && tx.ins == Points(spent) && Pays(h, tx, payment, change, bridge, Total(spent), rate)
       && MinerPaid(h, tx, payment, change, bridge, Total(spent), rate) && OutsTotal(tx.outs) <= Total(spent)
       && 1 <= |tx.outs| <= 2 && tx.outs[0].script == payment.script && tx.outs[0].value <= payment.value
       && (|tx.outs| == 2 ==> tx.outs[1].script == bridge)
       && |sigData| == |spent|
       && forall i :: 0 <= i < |spent| ==> h.sigHash(spent[i].script, tx, i, spent[i].amount) == Some(sigData[i])
  }

  /** The miner gets what the author left, or the estimate for the added change output, or what the receiver gave up as well. */
  predicate MinerPaid(h: Helper, tx: Tx, payment: TxOut, change: Option<int>, bridge: string, total: int, rate: int) {
    var miner := total - OutsTotal(tx.outs);
    if change.Some? then miner == total - payment.value - change.value
    else if |tx.outs| == 2 then miner == h.estimate(Paying(tx.ins, payment, Some(0), bridge), rate)
    else |tx.outs| == 1 && miner == total - tx.outs[0].value
  }

  lemma {:induction false} HashesMatch(h: Helper, t: Authored, k: nat)
    requires k <= |t.prevScripts| == |t.prevValues| && HashesUpTo(h, t, k).Some?
    ensures forall i :: 0 <= i < k ==>
              h.sigHash(t.prevScripts[i], t.tx, i, t.prevValues[i]) == Some(HashesUpTo(h, t, k).value[i])
  {
    if k > 0 {
      HashesMatch(h, t, k - 1);
    }
  }

  /** Every transaction built for a deposit pays the receiver and at most the bridge itself, from the coins it spends. */
  lemma RebuiltHonest(h: Helper, deposit: Deposit, coins: seq<Coin>, rate: int, tssAddr: string, sigData: seq<string>)
    returns (spent: seq<Coin>, change: Option<int>)
    requires Authors(h) && Rebuilt(h, deposit, coins, rate, tssAddr).Some?
    requires SignatureHashes(h, Rebuilt(h, deposit, coins, rate, tssAddr).value) == Some(sigData)
    ensures spent <= h.arrange(coins)
    ensures Honest(h, Rebuilt(h, deposit, coins, rate, tssAddr).value.tx, sigData, deposit, spent, change, rate, tssAddr)
  {
    var outs := [TxOut(Int64(deposit.withdrawalAmount.value), h.payTo(deposit.receiver).value)];
    var t := NewUnsignedTransaction(h, coins, rate, outs, tssAddr).value;
    spent, change := AuthoredExact(h, coins, rate, outs, tssAddr);
    OutsTotalSmall(outs);
    OutsTotalSmall(t.tx.outs);
    FeeConserves(h, t, rate, tssAddr);
    var t' := SubtractFee(h, t, rate, tssAddr);
    OutsTotalSmall(t'.tx.outs);
    HashesMatch(h, t', |t'.prevScripts|);
  }

  lemma ArrangedCoins(h: Helper, coins: seq<Coin>, spent: seq<Coin>)
    requires Arranges(h) && spent <= h.arrange(coins)
    ensures forall c :: c in spent ==> c in coins
  {
    assert Arrangement(coins, h.arrange(coins));
    forall c | c in spent
      ensures c in coins
    {
      assert c in multiset(h.arrange(coins));
    }
  }

  /** All inputs could be hashed. */
  ghost predicate Hashable(h: Helper, t: Authored)
    requires |t.prevScripts| == |t.prevValues|
  {
    forall i :: 0 <= i < |t.prevScripts| ==> h.sigHash(t.prevScripts[i], t.tx, i, t.prevValues[i]).Some?
  }

  lemma {:induction false} HashesExist(h: Helper, t: Authored, k: nat)
    requires k <= |t.prevScripts| == |t.prevValues|
    requires forall i :: 0 <= i < k ==> h.sigHash(t.prevScripts[i], t.tx, i, t.prevValues[i]).Some?
    ensures HashesUpTo(h, t, k).Some?
  {
    if k > 0 {
      HashesExist(h, t, k - 1);
    }
  }

  /**
   What a proposer forms, and when: exactly if the amount and both addresses parse, the wallet funds the
   payment and every input can be hashed; it names the deposit and the rate and is honest about them.
   */
  lemma FormedIsHonest(h: Helper, deposit: Deposit, unspent: seq<Coin>, rate: int, tssAddr: string)
    returns (spent: seq<Coin>, change: Option<int>)
    requires Arranges(h) && Authors(h)
    ensures var data, t := FormSigningData(h, deposit, unspent, rate, tssAddr), Rebuilt(h, deposit, unspent, rate, tssAddr);
            && (data.Some? <==> t.Some? && Hashable(h, t.value))
            && (t.Some? <==>
                  && deposit.withdrawalAmount.Some? && h.payTo(deposit.receiver).Some? && h.payTo(tssAddr).Some?
                  && Select(h, rate, [TxOut(Int64(deposit.withdrawalAmount.value), h.payTo(deposit.receiver).value)],
                            h.arrange(unspent)).Some?)
            && (data.Some? ==>
                  && data.value.depositId == deposit.id && data.value.feeRate == rate && data.value.serializedTx.Encoded?
                  && spent <= h.arrange(unspent) && (forall c :: c in spent ==> c in unspent)
                  && Honest(h, data.value.serializedTx.tx, data.value.sigData, deposit, spent, change, rate, tssAddr))
  {
    spent, change := [], None;
    var t := Rebuilt(h, deposit, unspent, rate, tssAddr);
    if t.Some? {
      FormedWhen(h, t.value);
      var hashes := SignatureHashes(h, t.value);
      if hashes.Some? {
        spent, change := RebuiltHonest(h, deposit, unspent, rate, tssAddr, hashes.value);
        ArrangedCoins(h, unspent, spent);
      }
    }
  }

  lemma FormedWhen(h: Helper, t: Authored)
    requires |t.prevScripts| == |t.prevValues|
    ensures SignatureHashes(h, t).Some? <==> Hashable(h, t)
  {
    if Hashable(h, t) {
      HashesExist(h, t, |t.prevScripts|);
    }
    if SignatureHashes(h, t).Some? {
      HashesMatch(h, t, |t.prevScripts|);
    }
  }

  /**
   Soundness of the check: an accepted proposal spends coins of the checking party's own wallet view, on
   which the author decided; the receiver gets the withdrawal amount less exactly the estimated fee unless
   that would be dust, the bridge the author's change and that fee, the miner exactly what is left;
   nobody else is paid, no money is created beyond the coins listed, the fee rate is an allowed one, and
   each input has the signature hash of the coin it spends. Each coin is counted once, and the outputs
   are covered by the wallet, exactly when no input is repeated.
   */
  lemma AcceptedIsHonest(h: Helper, data: Proposal, deposit: Deposit, unspent: seq<Coin>, tssAddr: string)
    returns (spent: seq<Coin>, change: Option<int>)
    requires Arranges(h) && Authors(h) && IsValid(h, data, deposit, unspent, tssAddr)
    ensures forall c :: c in spent ==> c in unspent
    ensures Honest(h, data.serializedTx.tx, data.sigData, deposit, spent, change, data.feeRate, tssAddr)
    ensures FeeRateValid(data.feeRate)
    ensures NoDup(spent) <==> NoDup(data.serializedTx.tx.ins)
    ensures NoDup(data.serializedTx.tx.ins) ==> OutsTotal(data.serializedTx.tx.outs) <= Total(unspent)
  {
    var used := UsedInputs(data.serializedTx.tx.ins, Mapped(unspent)).value;
    spent, change := RebuiltHonest(h, deposit, used, data.feeRate, tssAddr, data.sigData);
    ArrangedCoins(h, used, spent);
    WalletCoins(data.serializedTx.tx.ins, unspent, spent);
  }

  /** Coins found for the inputs of a transaction are wallet coins, and worth no more than the wallet unless repeated. */
  lemma WalletCoins(ins: seq<OutPoint>, unspent: seq<Coin>, spent: seq<Coin>)
    requires UsedInputs(ins, Mapped(unspent)).Some? && forall c :: c in spent ==> c in UsedInputs(ins, Mapped(unspent)).value
    ensures forall c :: c in spent ==> c in unspent
    ensures NoDup(spent) <==> NoDup(Points(spent))
    ensures NoDup(spent) ==> Total(spent) <= Total(unspent)
  {
    var used := UsedInputs(ins, Mapped(unspent)).value;
    MappedFacts(unspent);
    forall c | c in spent
      ensures c in unspent && c.point in Mapped(unspent) && Mapped(unspent)[c.point] == c
    {
      var i :| 0 <= i < |used| && used[i] == c;
    }
    OncePerPoint(spent, Mapped(unspent));
    if NoDup(spent) {
      TotalOnce(spent, unspent);
    }
  }

  /** Coins found in an index repeat exactly when their outpoints do. */
  lemma OncePerPoint(spent: seq<Coin>, m: map<OutPoint, Coin>)
    requires forall c :: c in spent ==> c.point in m && m[c.point] == c
    ensures NoDup(spent) <==> NoDup(Points(spent))
  {
    forall i, j | 0 <= i < j < |spent|
      ensures spent[i] == spent[j] <==> Points(spent)[i] == Points(spent)[j]
    {
      assert spent[i] in spent && spent[j] in spent;
    }
  }

  // ---------- repeated inputs ----------

  /** Whatever is built from copies of one coin is accepted by a party whose whole wallet is that coin. */
  lemma RepeatAccepted(h: Helper, deposit: Deposit, c: Coin, copies: seq<Coin>, estimated: Option<int>, tssAddr: string)
    requires Arranges(h) && forall d :: d in copies ==> d == c
    requires FormSigningData(h, deposit, copies, EstimateFeeOrDefault(estimated), tssAddr).Some?
    ensures var data := FormSigningData(h, deposit, copies, EstimateFeeOrDefault(estimated), tssAddr).value;
            IsValid(h, data, deposit, [c], tssAddr) && forall p :: p in data.serializedTx.tx.ins ==> p == c.point
  {
    var taken := RebuiltFrom(h, deposit, copies, EstimateFeeOrDefault(estimated), tssAddr);
    forall p | p in Points(taken)
      ensures p == c.point
    {
      var i :| 0 <= i < |taken| && Points(taken)[i] == p;
      assert taken[i] in taken;
    }
    ProposalAccepted(h, deposit, copies, estimated, tssAddr, [c]);
  }

  /** A wallet with a given fee estimate, whose author takes coins until they cover the outputs and the fee. */
  function SimpleHelper(fee: (Tx, int) -> nat): Helper {
    Helper(
      Arranged,
      (addr: string) => Some(addr),
      fee,
      (rate: int, outs: seq<TxOut>) => OutsTotal(outs),
      (rate: int, outs: seq<TxOut>, coins: seq<Coin>) =>
        if OutsTotal(outs) + fee(Tx(Points(coins), outs), rate) <= Total(coins) then Build(None) else Abort,
      (script: string, tx: Tx, i: nat, amount: int) => Some(script))
  }

  lemma SimpleHelperFits(fee: (Tx, int) -> nat)
    ensures Arranges(SimpleHelper(fee)) && Authors(SimpleHelper(fee))
  {
    forall coins
      ensures Arrangement(coins, SimpleHelper(fee).arrange(coins))
    {
      ArrangedFacts(coins);
    }
    forall rate, outs, coins
      ensures var d := SimpleHelper(fee).decide(rate, outs, coins);
              !d.Ask? && (d.Build? ==> d.change.None? && OutsTotal(outs) <= Total(coins))
    {
      var f: nat := fee(Tx(Points(coins), outs), rate);
    }
  }

  lemma {:induction false} SimpleHashes(fee: (Tx, int) -> nat, t: Authored, k: nat)
    requires k <= |t.prevScripts| == |t.prevValues|
    ensures HashesUpTo(SimpleHelper(fee), t, k).Some?
  {
    if k > 0 {
      SimpleHashes(fee, t, k - 1);
    }
  }

  lemma SimpleHashed(fee: (Tx, int) -> nat, t: Authored)
    requires |t.prevScripts| == |t.prevValues|
    ensures SignatureHashes(SimpleHelper(fee), t).Some?
  {
    SimpleHashes(fee, t, |t.prevScripts|);
  }

  lemma TwiceSelected(c: Coin, rate: int, outs: seq<TxOut>, fee: (Tx, int) -> nat)
    requires c.readable && c.amount < OutsTotal(outs)
    requires OutsTotal(outs) + fee(Tx(Points([c, c]), outs), rate) <= 2 * c.amount
    ensures Select(SimpleHelper(fee), rate, outs, [c, c]) == Some(Selection(2, None))
  {
    TwiceDrawn(c, OutsTotal(outs));
    hide Reach, Total, OutsTotal, Arranged, Select, AuthorFrom;
    BuiltAtOnce(SimpleHelper(fee), rate, outs, [c, c]);
  }

  /** All coins are drawn for the first target, and the author builds on them. */
  lemma BuiltAtOnce(h: Helper, rate: int, outs: seq<TxOut>, coins: seq<Coin>)
    requires Reach(coins, 0, h.firstTarget(rate, outs)) == |coins| && Total(coins) >= h.firstTarget(rate, outs)
    requires h.decide(rate, outs, coins).Build?
    ensures Select(h, rate, outs, coins) == Some(Selection(|coins|, h.decide(rate, outs, coins).change))
  {
    hide Reach;
    assert coins[..|coins|] == coins;
  }

  lemma TwiceDrawn(c: Coin, target: int)
    requires c.readable && c.amount < target <= 2 * c.amount
    ensures Total([c]) == c.amount && Total([c, c]) == 2 * c.amount && Reach([c, c], 0, target) == 2
    ensures Arranged([c, c]) == [c, c]
  {
    var coins := [c, c];
    assert coins[..0] == [] && coins[..1] == [c] && coins[..2] == coins;
    assert [c][..0] == [];
    assert Total([c]) == Total([]) + c.amount;
    assert Total(coins) == Total([c]) + c.amount;
    assert Reach(coins, 2, target) == 2;
    assert Reach(coins, 1, target) == 2;
    ArrangedFacts(coins);
  }

  /** A transaction with two inputs and at most two outputs costs at most `most`. */
  ghost predicate FeeAtMost(fee: (Tx, int) -> nat, rate: int, most: nat) {
    forall tx: Tx :: |tx.ins| == 2 && |tx.outs| <= 2 ==> fee(tx, rate) <= most
  }

  /** The fee shift leaves the outputs within twice the fee of the inputs if the amount was within the fee of them. */
  lemma ShiftedTotal(h: Helper, t: Authored, rate: int, tssAddr: string, most: nat)
    requires t.changeIndex == -1 && |t.tx.ins| == 2 && |t.tx.outs| == 1 && FeeAtMost(h.estimate, rate, most)
    requires t.tx.outs[0].value + most == t.totalInput
    ensures OutsTotal(SubtractFee(h, t, rate, tssAddr).tx.outs) + 2 * most >= t.totalInput
    ensures SubtractFee(h, t, rate, tssAddr).tx.ins == t.tx.ins
  {
    var t' := SubtractFee(h, t, rate, tssAddr);
    assert h.estimate(t.tx, rate) <= most && h.estimate(WithChange(h, t.tx, tssAddr), rate) <= most;
    OutsTotalSmall(t'.tx.outs);
  }

  /** What such a wallet authors when one coin is listed twice. */
  lemma TwiceAuthored(c: Coin, tssAddr: string, rate: int, fee: (Tx, int) -> nat, outs: seq<TxOut>)
    requires c.readable && c.amount < OutsTotal(outs)
    requires OutsTotal(outs) + fee(Tx(Points([c, c]), outs), rate) <= 2 * c.amount
    ensures NewUnsignedTransaction(SimpleHelper(fee), [c, c], rate, outs, tssAddr)
         == Some(Authored(Tx([c.point, c.point], outs), Scripts([c, c]), Amounts([c, c]), 2 * c.amount, -1))
  {
    TwiceDrawn(c, OutsTotal(outs));
    TwiceSelected(c, rate, outs, fee);
    hide Select, Reach;
    assert [c, c][..2] == [c, c] && Points([c, c]) == [c.point, c.point] && outs + [] == outs;
  }

  /** What it makes of that transaction. */
  lemma TwiceShifted(c: Coin, tssAddr: string, rate: int, fee: (Tx, int) -> nat, most: nat, outs: seq<TxOut>)
    requires c.readable && 2 * most < c.amount && FeeAtMost(fee, rate, most) && outs == [TxOut(2 * c.amount - most, "")]
    ensures var t := NewUnsignedTransaction(SimpleHelper(fee), [c, c], rate, outs, tssAddr);
            && t.Some? && t.value.tx.outs == outs && t.value.changeIndex == -1
            && var t' := SubtractFee(SimpleHelper(fee), t.value, rate, tssAddr);
               && t'.tx.ins == [c.point, c.point] && |t'.prevScripts| == |t'.prevValues| == 2
               && OutsTotal(t'.tx.outs) + 2 * most >= 2 * c.amount
  {
    OutsTotalSmall(outs);
    assert fee(Tx(Points([c, c]), outs), rate) <= most;
    TwiceAuthored(c, tssAddr, rate, fee, outs);
    var t := NewUnsignedTransaction(SimpleHelper(fee), [c, c], rate, outs, tssAddr).value;
    hide NewUnsignedTransaction, OutsTotal;
    assert SimpleHelper(fee).estimate == fee;
    ShiftedTotal(SimpleHelper(fee), t, rate, tssAddr, most);
  }

  /** And what it proposes. */
  lemma TwiceBuilt(c: Coin, tssAddr: string, rate: int, fee: (Tx, int) -> nat, most: nat)
    requires c.readable && 2 * most < c.amount < 0x4000_0000_0000_0000
    requires FeeAtMost(fee, rate, most)
    ensures var d := FormSigningData(SimpleHelper(fee), Deposit("", Some(2 * c.amount - most), ""), [c, c], rate, tssAddr);
            && d.Some? && d.value.serializedTx.Encoded? && d.value.serializedTx.tx.ins == [c.point, c.point]
            && OutsTotal(d.value.serializedTx.tx.outs) + 2 * most >= 2 * c.amount
  {
    var h, amount := SimpleHelper(fee), 2 * c.amount - most;
    var outs := [TxOut(amount, "")];
    var _ := Int64Exact(amount);
    assert h.payTo("") == Some("");
    hide NewUnsignedTransaction, SubtractFee, SignatureHashes, HashesUpTo, FormSigningData, SimpleHelper, OutsTotal, Int64;
    TwiceShifted(c, tssAddr, rate, fee, most, outs);
    SimpleHashed(fee, SubtractFee(h, NewUnsignedTransaction(h, [c, c], rate, outs, tssAddr).value, rate, tssAddr));
    FormedFrom(h, Deposit("", Some(amount), ""), [c, c], rate, tssAddr, outs);
  }

  lemma FormedFrom(h: Helper, deposit: Deposit, coins: seq<Coin>, rate: int, tssAddr: string, outs: seq<TxOut>)
    requires deposit.withdrawalAmount.Some? && h.payTo(deposit.receiver).Some?
    requires outs == [TxOut(Int64(deposit.withdrawalAmount.value), h.payTo(deposit.receiver).value)]
    requires NewUnsignedTransaction(h, coins, rate, outs, tssAddr).Some?
    requires var t := SubtractFee(h, NewUnsignedTransaction(h, coins, rate, outs, tssAddr).value, rate, tssAddr);
             |t.prevScripts| == |t.prevValues| && SignatureHashes(h, t).Some?
    ensures var t := SubtractFee(h, NewUnsignedTransaction(h, coins, rate, outs, tssAddr).value, rate, tssAddr);
            var data := Proposal(deposit.id, Encoded(t.tx), rate, SignatureHashes(h, t).value);
            FormSigningData(h, deposit, coins, rate, tssAddr) == Some(data)
  {
    hide NewUnsignedTransaction, SubtractFee, SignatureHashes, Int64;
  }

  /**
   The condition on repeated inputs is needed: whatever the fee estimate, for every coin worth more than
   twice the highest fee of a transaction with two inputs and at most two outputs there is a proposal
   that lists it twice, pays out more than it is worth, and is accepted by a party whose whole wallet is
   that one coin.
   */
  lemma RepeatUncovered(c: Coin, tssAddr: string, fee: (Tx, int) -> nat, most: nat)
    returns (h: Helper, data: Proposal, deposit: Deposit)
    requires c.readable && 2 * most < c.amount < 0x4000_0000_0000_0000
    requires FeeAtMost(fee, DEFAULT_FEE_RATE, most)
    ensures Arranges(h) && Authors(h) && h.estimate == fee && IsValid(h, data, deposit, [c], tssAddr)
    ensures data.serializedTx.tx.ins == [c.point, c.point]
    ensures OutsTotal(data.serializedTx.tx.outs) >= 2 * (c.amount - most) > Total([c])
  {
    h, deposit := SimpleHelper(fee), Deposit("", Some(2 * c.amount - most), "");
    var rate := EstimateFeeOrDefault(None);
    SimpleHelperFits(fee);
    TwiceDrawn(c, 2 * c.amount);
    TwiceBuilt(c, tssAddr, rate, fee, most);
    data := FormSigningData(h, deposit, [c, c], rate, tssAddr).value;
    RepeatAccepted(h, deposit, c, [c, c], None, tssAddr);
  }
}
