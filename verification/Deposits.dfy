/**
 The deposits table and the signing session loop of one chain, interleaved with every
 other writer of the table.
 */
module Deposits {
  import opened Wrappers
  import opened Collections

  datatype Identifier = Identifier(txHash: string, txNonce: int, chainId: string)

  datatype Status = Unspecified | Pending | Processing | Processed | Failed | Invalid

  /** A row; columns that no decision depends on are summed up in `details`. */
  datatype Deposit = Deposit(
    id: Identifier, status: Status, withdrawalChainId: string, submitted: bool, distributed: bool,
    withdrawalTxHash: Option<string>, signature: Option<string>, txData: Option<string>, details: string)

  datatype Selector = Selector(
    ids: set<int>, chainId: Option<string>, withdrawalChainId: Option<string>, status: Option<Status>,
    notSubmitted: bool, distributed: bool, notDistributed: bool)

  /** Rows in the order of their serial number, which is one more than their position. */
  type Rows = seq<Deposit>

  predicate Unique(rows: Rows) {
    forall i, j :: 0 <= i < j < |rows| ==> rows[i].id != rows[j].id
  }

  predicate Has(rows: Rows, id: Identifier) {
    exists i :: 0 <= i < |rows| && rows[i].id == id
  }

  /** The filter built from a selector. */
  predicate Matches(sel: Selector, serial: int, d: Deposit) {
    && (sel.ids == {} || serial in sel.ids)
    && (sel.chainId.Some? ==> d.id.chainId == sel.chainId.value)
    && (sel.withdrawalChainId.Some? ==> d.withdrawalChainId == sel.withdrawalChainId.value)
    && (sel.status.Some? ==> d.status == sel.status.value)
    && (sel.notSubmitted ==> !d.submitted)
    && (sel.distributed ==> d.distributed)
    && (sel.notDistributed ==> !d.distributed)
  }

  /** The row is the matching one with the least serial number. */
  predicate Selected(rows: Rows, sel: Selector, i: int) {
    && 0 <= i < |rows|
    && Matches(sel, i + 1, rows[i])
    && forall j :: 0 <= j < i ==> !Matches(sel, j + 1, rows[j])
  }

  /** What one update statement writes into a row. */
  datatype Change =
    | SetStatus(status: Status)
    | SetSubmitted(flag: bool)
    | SetDistributed(flag: bool)
    | SetProcessed(txHash: Option<string>, signature: Option<string>, txData: Option<string>)
    | SetDetails(txHash: Option<string>, signature: Option<string>)

  function OrKeep(given: Option<string>, stored: Option<string>): Option<string> {
    if given.Some? then given else stored
  }

  function Changed(d: Deposit, c: Change): Deposit {
    match c
    case SetStatus(s) => d.(status := s)
    case SetSubmitted(b) => d.(submitted := b)
    case SetDistributed(b) => d.(distributed := b)
    case SetProcessed(h, s, t) =>
      d.(status := Processed, withdrawalTxHash := OrKeep(h, d.withdrawalTxHash),
         signature := OrKeep(s, d.signature), txData := OrKeep(t, d.txData))
    case SetDetails(h, s) =>
      d.(status := Processed, submitted := true, withdrawalTxHash := h, signature := s)
  }

  function Updated(rows: Rows, id: Identifier, c: Change): (r: Rows)
    ensures |r| == |rows|
    ensures forall i :: 0 <= i < |rows| ==> r[i] == if rows[i].id == id then Changed(rows[i], c) else rows[i]
  {
    seq(|rows|, i requires 0 <= i < |rows| => if rows[i].id == id then Changed(rows[i], c) else rows[i])
  }

  /** The unique constraint on the identifier refuses a second row. */
  function Inserted(rows: Rows, d: Deposit): Rows {
    if Has(rows, d.id) then rows else rows + [d]
  }

  function Fresh(d: Deposit): Deposit {
    d.(submitted := false, withdrawalTxHash := None, signature := None, txData := None)
  }

  function AsProcessed(d: Deposit): Deposit {
    d.(status := Processed, submitted := true, distributed := true)
  }

  /** The row exists and has left PENDING. */
  predicate Settled(rows: Rows, id: Identifier) {
    exists i :: 0 <= i < |rows| && rows[i].id == id && rows[i].status != Pending
  }

  /** Only the row of `id` may have changed, and it is still the row of `id`. */
  ghost predicate OnlyRow(before: Rows, after: Rows, id: Identifier) {
    && |after| == |before|
    && forall i :: 0 <= i < |before| ==> after[i].id == before[i].id && (before[i].id != id ==> after[i] == before[i])
  }

  /** A row marked processed: what is given is stored, what is not given and every other column stays. */
  predicate Completed(d: Deposit, d': Deposit, txHash: Option<string>, signature: Option<string>, txData: Option<string>) {
    && d'.status == Processed
    && (if txHash.Some? then d'.withdrawalTxHash == txHash else d'.withdrawalTxHash == d.withdrawalTxHash)
    && (if signature.Some? then d'.signature == signature else d'.signature == d.signature)
    && (if txData.Some? then d'.txData == txData else d'.txData == d.txData)
    && d'.id == d.id && d'.withdrawalChainId == d.withdrawalChainId && d'.submitted == d.submitted
    && d'.distributed == d.distributed && d'.details == d.details
  }

  class DepositsQ {
    var rows: Rows

    constructor ()
      ensures rows == []
    {
      rows := [];
    }

    /** Inserts unless the identifier is taken (ErrAlreadySubmitted). */
    method Insert(d: Deposit) returns (ok: bool)
      modifies this
      ensures rows == Inserted(old(rows), Fresh(d)) && (ok <==> !Has(old(rows), d.id))
      ensures !ok ==> rows == old(rows)
      ensures ok ==>
                && |rows| == |old(rows)| + 1 && rows[..|old(rows)|] == old(rows)
                && rows[|old(rows)|]
                == Deposit(d.id, d.status, d.withdrawalChainId, false, d.distributed, None, None, None, d.details)
      ensures Unique(old(rows)) ==> Unique(rows)
    {
      var found := Get(d.id);
      ok := found.None?;
      if ok {
        rows := rows + [Fresh(d)];
      }
    }

    method InsertProcessedDeposit(d: Deposit) returns (ok: bool)
      modifies this
      ensures rows == Inserted(old(rows), AsProcessed(d)) && (ok <==> !Has(old(rows), d.id))
      ensures !ok ==> rows == old(rows)
      ensures ok ==>
                && |rows| == |old(rows)| + 1 && rows[..|old(rows)|] == old(rows)
                && rows[|old(rows)|]
                == Deposit(d.id, Processed, d.withdrawalChainId, true, true, d.withdrawalTxHash, d.signature, d.txData,
                           d.details)
      ensures Unique(old(rows)) ==> Unique(rows)
    {
      var found := Get(d.id);
      ok := found.None?;
      if ok {
        rows := rows + [AsProcessed(d)];
      }
    }

    method Get(id: Identifier) returns (found: Option<Deposit>)
      ensures found.Some? ==> found.value in rows && found.value.id == id
      ensures found.None? <==> !Has(rows, id)
    {
      var i := 0;
      while i < |rows|
        invariant 0 <= i <= |rows|
        invariant forall j :: 0 <= j < i ==> rows[j].id != id
      {
        if rows[i].id == id {
          return Some(rows[i]);
        }
        i := i + 1;
      }
      return None;
    }

    method GetWithSelector(sel: Selector) returns (found: Option<Deposit>)
      ensures found.None? <==> forall i :: 0 <= i < |rows| ==> !Matches(sel, i + 1, rows[i])
      ensures found.Some? ==> exists i :: Selected(rows, sel, i) && rows[i] == found.value
      ensures found.Some? && sel.chainId.Some? ==> found.value.id.chainId == sel.chainId.value
      ensures found.Some? && sel.withdrawalChainId.Some? ==> found.value.withdrawalChainId == sel.withdrawalChainId.value
      ensures found.Some? && sel.status.Some? ==> found.value.status == sel.status.value
      ensures found.Some? ==>
                && (sel.notSubmitted ==> !found.value.submitted)
                && (sel.distributed ==> found.value.distributed) && (sel.notDistributed ==> !found.value.distributed)
    {
      var i := 0;
      while i < |rows|
        invariant 0 <= i <= |rows|
        invariant forall j :: 0 <= j < i ==> !Matches(sel, j + 1, rows[j])
      {
        if Matches(sel, i + 1, rows[i]) {
          assert Selected(rows, sel, i);
          return Some(rows[i]);
        }
        i := i + 1;
      }
      return None;
    }

    method UpdateStatus(id: Identifier, status: Status)
      modifies this
      ensures rows == Updated(old(rows), id, SetStatus(status)) && OnlyRow(old(rows), rows, id)
      ensures forall i :: 0 <= i < |rows| && rows[i].id == id ==> rows[i] == old(rows)[i].(status := status)
    {
      Update(id, SetStatus(status));
    }

    method UpdateProcessed(id: Identifier, txHash: Option<string>, signature: Option<string>, txData: Option<string>)
      modifies this
      ensures rows == Updated(old(rows), id, SetProcessed(txHash, signature, txData)) && OnlyRow(old(rows), rows, id)
      ensures forall i :: 0 <= i < |rows| && rows[i].id == id ==>
                Completed(old(rows)[i], rows[i], txHash, signature, txData)
    {
      Update(id, SetProcessed(txHash, signature, txData));
    }

    method UpdateWithdrawalDetails(id: Identifier, hash: Option<string>, signature: Option<string>)
      modifies this
      ensures rows == Updated(old(rows), id, SetDetails(hash, signature)) && OnlyRow(old(rows), rows, id)
      ensures forall i :: 0 <= i < |rows| && rows[i].id == id ==>
                && rows[i].withdrawalTxHash == hash && rows[i].signature == signature
                && rows[i].submitted && rows[i].status == Processed
                && rows[i].withdrawalChainId == old(rows)[i].withdrawalChainId && rows[i].txData == old(rows)[i].txData
                && rows[i].distributed == old(rows)[i].distributed && rows[i].details == old(rows)[i].details
    {
      Update(id, SetDetails(hash, signature));
    }

    method UpdateSubmittedStatus(id: Identifier, submitted: bool)
      modifies this
      ensures rows == Updated(old(rows), id, SetSubmitted(submitted)) && OnlyRow(old(rows), rows, id)
      ensures forall i :: 0 <= i < |rows| && rows[i].id == id ==> rows[i] == old(rows)[i].(submitted := submitted)
    {
      Update(id, SetSubmitted(submitted));
    }

    method UpdateDistributedStatus(id: Identifier, distributed: bool)
      modifies this
      ensures rows == Updated(old(rows), id, SetDistributed(distributed)) && OnlyRow(old(rows), rows, id)
      ensures forall i :: 0 <= i < |rows| && rows[i].id == id ==> rows[i] == old(rows)[i].(distributed := distributed)
    {
      Update(id, SetDistributed(distributed));
    }

    /** One update statement: writes every row the identifier selects. */
    method Update(id: Identifier, c: Change)
      modifies this
      ensures rows == Updated(old(rows), id, c)
    {
      var i := 0;
      while i < |rows|
        invariant 0 <= i <= |rows| == |old(rows)|
        invariant forall j :: 0 <= j < i ==> rows[j] == Updated(old(rows), id, c)[j]
        invariant forall j :: i <= j < |rows| ==> rows[j] == old(rows)[j]
      {
        if rows[i].id == id {
          rows := rows[i := Changed(rows[i], c)];
        }
        i := i + 1;
      }
    }
  }

  // ---------- runs of the session loop ----------

  /** What the session loop of the chain is doing. */
  datatype Phase =
    | Idle
    | Fetching(id: Identifier)     // an acceptor found no row and is fetching the deposit
    | Agreed(id: Identifier)       // data chosen or verified, no status written yet
    | Signing(id: Identifier)      // PROCESSING written, signing under way

  /** `entered` lists the deposits for which the signing phase was entered. */
  datatype System = System(rows: Rows, phase: Phase, entered: seq<Identifier>)

  datatype Step =
    // the API, the distributor, the core subscriber, other chains' loops and late finalizers
    | Insert(d: Deposit)
    | InsertProcessed(d: Deposit)
    | Write(id: Identifier, c: Change)
    // the session loop
    | Propose(i: int)
    | Verify(i: int)
    | Missing(id: Identifier)
    | Fetched(d: Deposit)
    | Abandon
    | Enter
    | Leave(c: Change)

  function PendingOn(chain: string): Selector {
    Selector({}, None, Some(chain), Some(Pending), false, true, false)
  }

  /** No caller ever writes PENDING into an existing row. */
  predicate Writes(c: Change) {
    c.SetStatus? ==> c.status == Processing || c.status == Failed
  }

  predicate Allowed(chain: string, s: System, step: Step) {
    match step
    case Insert(d) => d.status == Pending || d.status == Invalid
    case InsertProcessed(_) => true
    case Write(_, c) => Writes(c)
    case Propose(i) => s.phase.Idle? && Selected(s.rows, PendingOn(chain), i)
    case Verify(i) => s.phase.Idle? && 0 <= i < |s.rows| && s.rows[i].status == Pending
    case Missing(id) => s.phase.Idle? && !Has(s.rows, id)
    // the fetched record, which is new and so PENDING, is judged even when a row appeared meanwhile
    case Fetched(d) => s.phase.Fetching? && d.id == s.phase.id && d.status == Pending && d.distributed
    // giving up, or a restart of the service, in any phase: also with PROCESSING written and no final status
    case Abandon => !s.phase.Idle?
    case Enter => s.phase.Agreed?
    case Leave(c) => s.phase.Signing? && (c.SetProcessed? || c == SetStatus(Failed))
  }

  function Apply(chain: string, s: System, step: Step): System
    requires Allowed(chain, s, step)
  {
    match step
    case Insert(d) => s.(rows := Inserted(s.rows, Fresh(d)))
    case InsertProcessed(d) => s.(rows := Inserted(s.rows, AsProcessed(d)))
    case Write(id, c) => s.(rows := Updated(s.rows, id, c))
    case Propose(i) => s.(phase := Agreed(s.rows[i].id))
    case Verify(i) => s.(phase := Agreed(s.rows[i].id))
    case Missing(id) => s.(phase := Fetching(id))
    case Fetched(d) => s.(rows := Inserted(s.rows, Fresh(d)), phase := Agreed(d.id))
    case Abandon => s.(phase := Idle)
    case Enter => System(Updated(s.rows, s.phase.id, SetStatus(Processing)), Signing(s.phase.id),
                         s.entered + [s.phase.id])
    case Leave(c) => s.(rows := Updated(s.rows, s.phase.id, c), phase := Idle)
  }

  predicate ValidRun(chain: string, s: System, run: seq<Step>)
    decreases |run|
  {
    run == [] || (Allowed(chain, s, run[0]) && ValidRun(chain, Apply(chain, s, run[0]), run[1..]))
  }

  function After(chain: string, s: System, run: seq<Step>): System
    requires ValidRun(chain, s, run)
    decreases |run|
  {
    if run == [] then s else After(chain, Apply(chain, s, run[0]), run[1..])
  }

  /** What every step keeps. */
  predicate Inv(s: System) {
    && Unique(s.rows)
    && NoDup(s.entered)
    && (forall id :: id in s.entered ==> Settled(s.rows, id))
    && (s.phase.Fetching? || s.phase.Agreed? ==> s.phase.id !in s.entered)
    && (s.phase.Agreed? ==> Has(s.rows, s.phase.id))
  }

  lemma UpdateKeeps(rows: Rows, id: Identifier, c: Change, other: Identifier)
    requires Writes(c)
    ensures Settled(rows, other) ==> Settled(Updated(rows, id, c), other)
    ensures Has(rows, other) ==> Has(Updated(rows, id, c), other)
  {
    var r := Updated(rows, id, c);
    if Settled(rows, other) {
      var i :| 0 <= i < |rows| && rows[i].id == other && rows[i].status != Pending;
      assert r[i].id == other && r[i].status != Pending;
    }
    if Has(rows, other) {
      var i :| 0 <= i < |rows| && rows[i].id == other;
      assert r[i].id == other;
    }
  }

  lemma InsertKeeps(rows: Rows, d: Deposit, other: Identifier)
    ensures Settled(rows, other) ==> Settled(Inserted(rows, d), other)
    ensures Has(rows, other) ==> Has(Inserted(rows, d), other)
    ensures Has(Inserted(rows, d), d.id)
  {
    var r := Inserted(rows, d);
    if Settled(rows, other) {
      var i :| 0 <= i < |rows| && rows[i].id == other && rows[i].status != Pending;
      assert r[i] == rows[i];
    }
    if Has(rows, other) {
      var i :| 0 <= i < |rows| && rows[i].id == other;
      assert r[i] == rows[i];
    }
    if !Has(rows, d.id) {
      assert r[|rows|].id == d.id;
    }
  }

  lemma StepKeepsSettled(chain: string, s: System, step: Step, id: Identifier)
    requires Allowed(chain, s, step)
    ensures Settled(s.rows, id) ==> Settled(Apply(chain, s, step).rows, id)
    ensures Has(s.rows, id) ==> Has(Apply(chain, s, step).rows, id)
  {
    match step
    case Insert(d) => InsertKeeps(s.rows, Fresh(d), id);
    case InsertProcessed(d) => InsertKeeps(s.rows, AsProcessed(d), id);
    case Write(other, c) => UpdateKeeps(s.rows, other, c, id);
    case Fetched(d) => InsertKeeps(s.rows, Fresh(d), id);
    case Enter => UpdateKeeps(s.rows, s.phase.id, SetStatus(Processing), id);
    case Leave(c) => UpdateKeeps(s.rows, s.phase.id, c, id);
    case _ =>
  }

  /** A pending row of a table with unique identifiers is the only row of its deposit. */
  lemma PendingNotSettled(rows: Rows, i: int)
    requires Unique(rows) && 0 <= i < |rows| && rows[i].status == Pending
    ensures !Settled(rows, rows[i].id) && Has(rows, rows[i].id)
  {
    forall j | 0 <= j < |rows| && rows[j].id == rows[i].id
      ensures j == i
    {
      if j < i || i < j {
        assert false;
      }
    }
  }

  lemma EnterSettles(rows: Rows, id: Identifier)
    requires Has(rows, id)
    ensures Settled(Updated(rows, id, SetStatus(Processing)), id)
  {
    var i :| 0 <= i < |rows| && rows[i].id == id;
    var r := Updated(rows, id, SetStatus(Processing));
    assert r[i].id == id && r[i].status != Pending;
  }

  lemma StepKeeps(chain: string, s: System, step: Step)
    requires Inv(s) && Allowed(chain, s, step)
    ensures Inv(Apply(chain, s, step))
  {
    var s' := Apply(chain, s, step);
    forall id | id in s.entered
      ensures Settled(s'.rows, id)
    {
      StepKeepsSettled(chain, s, step, id);
    }
    if s.phase.Agreed? {
      StepKeepsSettled(chain, s, step, s.phase.id);
    }
    match step
    case Propose(i) => PendingNotSettled(s.rows, i);
    case Verify(i) => PendingNotSettled(s.rows, i);
    case Missing(id) =>
      if id in s.entered {
        assert Settled(s.rows, id) && Has(s.rows, id);
      }
    case Fetched(d) => InsertKeeps(s.rows, Fresh(d), d.id);
    case Enter => EnterSettles(s.rows, s.phase.id);
    case _ =>
  }

  /** Over any run a row that has left PENDING never returns to it and never disappears. */
  lemma {:induction false} NeverPendingAgain(chain: string, s: System, run: seq<Step>, id: Identifier)
    requires ValidRun(chain, s, run) && Settled(s.rows, id)
    ensures Settled(After(chain, s, run).rows, id)
    decreases |run|
  {
    if run != [] {
      StepKeepsSettled(chain, s, run[0], id);
      NeverPendingAgain(chain, Apply(chain, s, run[0]), run[1..], id);
    }
  }

  lemma {:induction false} RunKeeps(chain: string, s: System, run: seq<Step>)
    requires ValidRun(chain, s, run) && Inv(s)
    ensures Inv(After(chain, s, run))
    decreases |run|
  {
    if run != [] {
      StepKeeps(chain, s, run[0]);
      RunKeeps(chain, Apply(chain, s, run[0]), run[1..]);
    }
  }

  /** Over any run from any table, the signing phase is entered at most once per deposit. */
  lemma AtMostOnce(chain: string, rows: Rows, run: seq<Step>)
    requires Unique(rows) && ValidRun(chain, System(rows, Idle, []), run)
    ensures NoDup(After(chain, System(rows, Idle, []), run).entered)
    ensures forall id :: id in After(chain, System(rows, Idle, []), run).entered
                         ==> Settled(After(chain, System(rows, Idle, []), run).rows, id)
    ensures Unique(After(chain, System(rows, Idle, []), run).rows)
  {
    RunKeeps(chain, System(rows, Idle, []), run);
  }

  // ---------- the code of the loop ----------

  /** The deposit's row is pending, or it has none and can be fetched, and the proposal is valid for it. */
  predicate Acceptable(rows: Rows, id: Identifier, fetched: Option<Deposit>, isValid: Deposit -> bool) {
    if Has(rows, id) then exists i :: 0 <= i < |rows| && rows[i].id == id && rows[i].status == Pending && isValid(rows[i])
    else fetched.Some? && isValid(fetched.value.(distributed := true))
  }

  /** A pending deposit that the other parties know and that is withdrawn on this chain. */
  predicate Waiting(d: Deposit, chain: string) {
    d.status == Pending && d.distributed && d.withdrawalChainId == chain
  }

  /** The waiting deposit with the least serial number. */
  predicate Earliest(rows: Rows, chain: string, i: int) {
    0 <= i < |rows| && Waiting(rows[i], chain) && forall j :: 0 <= j < i ==> !Waiting(rows[j], chain)
  }

  /** The consensus mechanism and the session of one chain over the shared table. */
  class SigningSession {
    const chain: string
    const q: DepositsQ

    constructor (chain: string, q: DepositsQ)
      ensures this.chain == chain && this.q == q
    {
      this.chain := chain;
      this.q := q;
    }

    /**
     The data to propose, none when nothing is pending; `form` builds it for a deposit and may fail.
     Choosing the deposit is a Propose step of the loop.
     */
    method FormProposalData(form: Deposit -> Option<string>) returns (data: Option<string>, failed: bool)
      ensures data.None? && !failed <==> forall i :: !Allowed(chain, System(q.rows, Idle, []), Propose(i))
      ensures data.Some? || failed ==>
        exists i :: Allowed(chain, System(q.rows, Idle, []), Propose(i)) && Earliest(q.rows, chain, i)
                    && data == form(q.rows[i])
      ensures data.None? && !failed <==> forall i :: 0 <= i < |q.rows| ==> !Waiting(q.rows[i], chain)
      ensures failed ==> data.None?
    {
      var found := q.GetWithSelector(PendingOn(chain));
      if found.None? {
        return None, false;
      }
      ghost var i :| Selected(q.rows, PendingOn(chain), i) && q.rows[i] == found.value;
      assert Allowed(chain, System(q.rows, Idle, []), Propose(i)) && Earliest(q.rows, chain, i);
      data := form(found.value);
      failed := data.None?;
    }

    /**
     An acceptor's check of a proposed deposit. `fetched` is what the deposit fetcher returns, `isValid`
     the chain's verdict on the proposal. Accepted or not, it is a run of the loop's steps.
     */
    method VerifyProposedData(id: Identifier, fetched: Option<Deposit>, isValid: Deposit -> bool,
                              ghost entered: seq<Identifier>)
      returns (ok: bool)
      requires fetched.Some? ==> fetched.value.id == id && fetched.value.status == Pending
      modifies q
      ensures Reaches(chain, System(old(q.rows), Idle, entered),
                      System(q.rows, if ok then Agreed(id) else Idle, entered))
      ensures Unique(old(q.rows)) ==> (ok <==> Acceptable(old(q.rows), id, fetched, isValid))
      // what was judged is the pending row, or the fetched deposit marked as distributed if there is no row
      ensures ok ==> exists d :: isValid(d) && d.id == id && d.status == Pending
                                 && (d in old(q.rows) || (!Has(old(q.rows), id) && fetched.Some? && d.distributed
                                                          && d == fetched.value.(distributed := true)))
      ensures Unique(old(q.rows)) ==> forall i :: 0 <= i < |old(q.rows)| && old(q.rows)[i].id == id ==>
                (ok <==> old(q.rows)[i].status == Pending && isValid(old(q.rows)[i]))
      ensures q.rows == if Has(old(q.rows), id) || fetched.None? then old(q.rows)
                        else Inserted(old(q.rows), Fresh(fetched.value.(distributed := true)))
    {
      ghost var s := System(q.rows, Idle, entered);
      var found := q.Get(id);
      var d;
      ghost var run: seq<Step>;
      if found.Some? {
        d := found.value;
        ghost var i :| 0 <= i < |q.rows| && q.rows[i] == d;
        assert Unique(q.rows) ==> forall j :: 0 <= j < |q.rows| && q.rows[j].id == id ==> j == i;
        if d.status != Pending {
          RunOfNone(chain, s);
          return false;
        }
        run := [Verify(i)];
        RunOfOne(chain, s, Verify(i));
      } else {
        run := [Missing(id)];
        RunOfOne(chain, s, Missing(id));
        if fetched.None? {
          RunExtended(chain, s, run, System(q.rows, Fetching(id), entered), Abandon);
          return false;
        }
        d := fetched.value.(distributed := true);
        RunExtended(chain, s, run, System(q.rows, Fetching(id), entered), Fetched(d));
        run := run + [Fetched(d)];
        InsertKeeps(q.rows, Fresh(d), id);
        var _ := q.Insert(d);
      }
      ok := isValid(d);
      if !ok {
        RunExtended(chain, s, run, System(q.rows, Agreed(id), entered), Abandon);
      }
    }

    /**
     A session after consensus: `agreed` is the deposit to sign, `sign` what signing and distribution
     give, which happen with the table as it is then, `stored` whether the finalizer could write it.
     The deposit is PROCESSING while it is signed, and afterwards PROCESSED with the signature or FAILED.
     */
    method RunSession(agreed: Option<Identifier>, sign: Rows -> Option<string>, stored: bool,
                      ghost entered: seq<Identifier>)
      returns (ghost during: Rows)
      modifies q
      ensures agreed.None? ==> q.rows == old(q.rows)
      ensures agreed.Some? ==>
        Reaches(chain, System(old(q.rows), Agreed(agreed.value), entered),
                System(q.rows, Idle, entered + [agreed.value]))
      ensures agreed.Some? ==> OnlyRow(old(q.rows), during, agreed.value) && OnlyRow(old(q.rows), q.rows, agreed.value)
      ensures agreed.Some? ==> forall i :: 0 <= i < |during| && during[i].id == agreed.value ==>
        && during[i] == old(q.rows)[i].(status := Processing)
        && if sign(during).Some? && stored then Completed(old(q.rows)[i], q.rows[i], None, sign(during), None)
           else q.rows[i] == old(q.rows)[i].(status := Failed)
    {
      during := q.rows;
      if agreed.None? {
        return;
      }
      var id := agreed.value;
      ghost var s := System(q.rows, Agreed(id), entered);
      q.UpdateStatus(id, Processing);
      during := q.rows;
      RunOfOne(chain, s, Enter);
      ghost var mid := System(q.rows, Signing(id), entered + [id]);
      var signature := sign(q.rows);
      ghost var c := if signature.Some? && stored then SetProcessed(None, signature, None) else SetStatus(Failed);
      RunExtended(chain, s, [Enter], mid, Leave(c));
      if signature.Some? && stored {
        q.UpdateProcessed(id, None, signature, None);
      } else {
        // the deferred compensating update
        q.UpdateStatus(id, Failed);
      }
    }
  }

  predicate Explains(chain: string, s: System, run: seq<Step>, s': System) {
    ValidRun(chain, s, run) && After(chain, s, run) == s'
  }

  /** The second state is what some run from the first one leads to. */
  ghost predicate Reaches(chain: string, s: System, s': System) {
    exists run :: Explains(chain, s, run, s')
  }

  lemma RunOfNone(chain: string, s: System)
    ensures Explains(chain, s, [], s) && Reaches(chain, s, s)
  {
    assert Explains(chain, s, [], s);
  }

  lemma RunOfOne(chain: string, s: System, step: Step)
    requires Allowed(chain, s, step)
    ensures Explains(chain, s, [step], Apply(chain, s, step))
  {
    assert [step][1..] == [];
  }

  lemma {:induction false} RunExtended(chain: string, s: System, run: seq<Step>, mid: System, step: Step)
    requires Explains(chain, s, run, mid) && Allowed(chain, mid, step)
    ensures Explains(chain, s, run + [step], Apply(chain, mid, step))
    decreases |run|
  {
    if run == [] {
      RunOfOne(chain, s, step);
    } else {
      assert (run + [step])[1..] == run[1..] + [step];
      RunExtended(chain, Apply(chain, s, run[0]), run[1..], mid, step);
    }
  }
}
