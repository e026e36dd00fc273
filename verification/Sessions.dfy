/** Signing session identifiers and the manager that routes requests by them. */
module Sessions {
  import opened Wrappers
  import opened Text

  const PREFIX := "SIGN"

  /** The identifier of a chain's signing session. */
  function SessionIdentifier(chain: string, id: int): string {
    PREFIX + "_" + chain + "_" + Decimal(id)
  }

  /** The number in an identifier; none where the code indexes out of range. */
  function GetSessionId(identifier: string): (r: Option<int>)
  {
    var parts := Split(identifier, '_');
    if |parts| < 3 then None
    else match ParseInt(parts[2])
      case Some(id) => Some(id)
      case None => Some(0)
  }

  function Increment(identifier: string): string {
    var parts := Split(identifier, '_');
    if |parts| != 3 then identifier
    else match ParseInt(parts[2])
      case Some(id) => parts[0] + "_" + parts[1] + "_" + Decimal(Increased(id))
      case None => identifier
  }

  // ---------- identifiers ----------

  lemma IdentifierParts(chain: string, id: int)
    ensures Split(SessionIdentifier(chain, id), '_') == [PREFIX] + Split(chain, '_') + [Decimal(id)]
  {
    var rest := chain + ['_'] + Decimal(id);
    assert SessionIdentifier(chain, id) == PREFIX + ['_'] + rest;
    SplitFirst(PREFIX, '_', rest);
    SplitLast(chain, '_', Decimal(id));
  }

  /** The number that follows: the identifiers of a chain name with an underscore stay put. */
  function Next(chain: string, id: int): (r: int)
    requires IsInt64(id)
    ensures IsInt64(r)
  {
    if '_' in chain then id else Increased(id)
  }

  lemma IncrementIs(chain: string, id: int)
    requires IsInt64(id)
    ensures Increment(SessionIdentifier(chain, id)) == SessionIdentifier(chain, Next(chain, id))
    ensures Next(chain, id) == if '_' in chain then id else if id == MAX_INT64 then MIN_INT64 else id + 1
  {
    hide Split;
    IdentifierParts(chain, id);
    ParseOfDecimal(id);
    if '_' !in chain {
      SplitWhole(chain, '_');
    }
  }

  /** No two (chain, number) pairs share an identifier, whatever the chain names contain. */
  lemma IdentifierInjective(chain: string, id: int, chain': string, id': int)
    requires SessionIdentifier(chain, id) == SessionIdentifier(chain', id')
    ensures chain == chain' && id == id'
  {
    hide Split, Decimal;
    IdentifierParts(chain, id);
    IdentifierParts(chain', id');
    var parts := Split(SessionIdentifier(chain, id), '_');
    assert parts[|parts| - 1] == Decimal(id) == Decimal(id');
    DecimalInjective(id, id');
    assert parts[1..|parts| - 1] == Split(chain, '_') == Split(chain', '_');
    JoinSplit(chain, '_');
    JoinSplit(chain', '_');
  }

  /** Incrementing gives the next identifier exactly for underscore-free chains below the 64-bit maximum. */
  lemma IncrementExact(chain: string, id: int)
    requires IsInt64(id)
    ensures Increment(SessionIdentifier(chain, id)) == SessionIdentifier(chain, id + 1)
            <==> '_' !in chain && id < MAX_INT64
  {
    IncrementIs(chain, id);
    if SessionIdentifier(chain, Next(chain, id)) == SessionIdentifier(chain, id + 1) {
      IdentifierInjective(chain, Next(chain, id), chain, id + 1);
    }
  }

  /**
   The number is read back from every identifier of an underscore-free chain; otherwise the text
   after the chain's first underscore is read in its place.
   */
  lemma SessionIdRead(chain: string, id: int)
    requires IsInt64(id)
    ensures '_' !in chain ==> GetSessionId(SessionIdentifier(chain, id)) == Some(id)
    ensures '_' in chain ==>
      GetSessionId(SessionIdentifier(chain, id))
      == Some(if ParseInt(Split(chain, '_')[1]).Some? then ParseInt(Split(chain, '_')[1]).value else 0)
  {
    hide Split, ParseInt;
    IdentifierParts(chain, id);
    ParseOfDecimal(id);
    if '_' !in chain {
      SplitWhole(chain, '_');
    }
  }

  // ---------- the manager ----------

  function Rekeyed<V>(m: map<string, V>, oldId: string, newId: string): map<string, V> {
    if oldId in m then (m - {oldId})[newId := m[oldId]] else m
  }

  ghost predicate Numbered(chain: string, id: string) {
    exists n :: IsInt64(n) && id == SessionIdentifier(chain, n)
  }

  lemma OneChain(chain: string, chain': string, id: string)
    requires Numbered(chain, id) && Numbered(chain', id)
    ensures chain == chain'
  {
    var n :| IsInt64(n) && id == SessionIdentifier(chain, n);
    var n' :| IsInt64(n') && id == SessionIdentifier(chain', n');
    IdentifierInjective(chain, n, chain', n');
  }

  lemma NextNumbered(chain: string, id: string)
    requires Numbered(chain, id)
    ensures Numbered(chain, Increment(id))
  {
    var n :| IsInt64(n) && id == SessionIdentifier(chain, n);
    IncrementIs(chain, n);
  }

  lemma RekeyedValues<V>(m: map<string, V>, oldId: string, newId: string)
    requires oldId in m && (newId == oldId || newId !in m)
    ensures Rekeyed(m, oldId, newId).Values == m.Values
  {
    var r := Rekeyed(m, oldId, newId);
    forall v | v in m.Values
      ensures v in r.Values
    {
      var k :| k in m && m[k] == v;
      assert (if k == oldId then newId else k) in r;
    }
  }

  class Session {
    const chain: string
    var id: string

    constructor (chain: string, start: int)
      ensures this.chain == chain && id == SessionIdentifier(chain, start)
    {
      this.chain := chain;
      id := SessionIdentifier(chain, start);
    }

    /** Stores the next identifier and notifies the manager that holds the session. */
    method IncrementSessionId(manager: SessionManager)
      requires manager.Valid() && id in manager.sessions && manager.sessions[id] == this
      modifies this`id, manager
      ensures id == Increment(old(id))
      ensures id in manager.sessions && manager.sessions[id] == this
      ensures manager.Valid() && manager.sessions.Values == old(manager.sessions.Values)
    {
      hide Increment, Numbered;
      var prev := id;
      ghost var before := manager.sessions;
      NextNumbered(chain, prev);
      var next := Increment(prev);
      manager.OnlyHolder(this, next);
      RekeyedValues(before, prev, next);
      id := next;
      manager.OnIdChange(prev, id);
      assert forall k :: k in manager.sessions && k != id ==> k in before && manager.sessions[k] == before[k];
    }
  }

  class SessionManager {
    var sessions: map<string, Session>

    constructor ()
      ensures sessions == map[] && Valid()
    {
      sessions := map[];
    }

    /** Every session is held under its current identifier, and there is one session per chain. */
    ghost predicate Valid()
      reads this, sessions.Values
    {
      && (forall k :: k in sessions ==> sessions[k].id == k)
      && (forall k :: k in sessions ==> Numbered(sessions[k].chain, k))
      && (forall k, k' :: k in sessions && k' in sessions && sessions[k].chain == sessions[k'].chain ==> k == k')
    }

    /** No other session is held under an identifier of this session's chain. */
    lemma OnlyHolder(session: Session, id: string)
      requires Valid() && session.id in sessions && sessions[session.id] == session
      requires Numbered(session.chain, id)
      ensures id == session.id || id !in sessions
    {
      hide Numbered;
      if id in sessions {
        OneChain(session.chain, sessions[id].chain, id);
      }
    }

    method Add(session: Session)
      modifies this
      ensures sessions == old(sessions)[session.id := session]
      ensures old(Valid()) && Numbered(session.chain, session.id)
              && (forall k :: k in old(sessions) ==> old(sessions)[k].chain != session.chain)
              ==> Valid() && sessions.Values == old(sessions.Values) + {session}
    {
      if Valid() && Numbered(session.chain, session.id) && session.id in sessions {
        OneChain(session.chain, sessions[session.id].chain, session.id);
      }
      ghost var before := sessions;
      sessions := sessions[session.id := session];
      assert session.id in sessions;
      if session.id !in before {
        forall v | v in before.Values
          ensures v in sessions.Values
        {
          var k :| k in before && before[k] == v;
          assert k in sessions && sessions[k] == v;
        }
      }
    }

    /** The session a request is routed to: under `Valid`, the one whose current identifier it names. */
    method Get(id: string) returns (session: Session?)
      ensures session == null <==> id !in sessions
      ensures session != null ==> session == sessions[id]
      ensures Valid() ==> (session != null ==> session.id == id)
      ensures Valid() ==> (session == null ==> forall s :: s in sessions.Values ==> s.id != id)
    {
      if id in sessions {
        return sessions[id];
      }
      return null;
    }

    method OnIdChange(oldId: string, newId: string)
      modifies this
      ensures sessions == Rekeyed(old(sessions), oldId, newId)
    {
      if oldId !in sessions {
        return;
      }
      var session := sessions[oldId];
      sessions := sessions - {oldId};
      sessions := sessions[newId := session];
    }
  }

  // ---------- runs: storing and notifying are two steps ----------

  /**
   `held` is the manager's map, naming sessions by chain; `current` the identifier each session stores;
   `told` the identifier it had when it last notified the manager.
   */
  datatype Registry = Registry(held: map<string, string>, current: map<string, string>, told: map<string, string>)

  datatype Step =
    | Register(chain: string, start: int)
    | Store(chain: string)
    | Notify(chain: string)

  /** Each chain has one session, which stores and notifies in turn; sessions interleave freely. */
  predicate Allowed(r: Registry, step: Step) {
    match step
    case Register(c, start) => c !in r.current && IsInt64(start)
    case Store(c) => c in r.current && c in r.told && r.current[c] == r.told[c]
    case Notify(c) => c in r.current && c in r.told
  }

  function Apply(r: Registry, step: Step): Registry
    requires Allowed(r, step)
  {
    match step
    case Register(c, start) =>
      var id := SessionIdentifier(c, start);
      Registry(r.held[id := c], r.current[c := id], r.told[c := id])
    case Store(c) => r.(current := r.current[c := Increment(r.current[c])])
    case Notify(c) => r.(held := Rekeyed(r.held, r.told[c], r.current[c]), told := r.told[c := r.current[c]])
  }

  predicate ValidRun(r: Registry, run: seq<Step>)
    decreases |run|
  {
    run == [] || (Allowed(r, run[0]) && ValidRun(Apply(r, run[0]), run[1..]))
  }

  function After(r: Registry, run: seq<Step>): Registry
    requires ValidRun(r, run)
    decreases |run|
  {
    if run == [] then r else After(Apply(r, run[0]), run[1..])
  }

  ghost predicate Inv(r: Registry) {
    && r.current.Keys == r.told.Keys
    && (forall c :: c in r.told ==> Numbered(c, r.told[c]) && Numbered(c, r.current[c]))
    && (forall c :: c in r.told ==> r.told[c] in r.held && r.held[r.told[c]] == c)
    && (forall k :: k in r.held ==> r.held[k] in r.told && r.told[r.held[k]] == k)
  }

  lemma NotifyKeeps(r: Registry, c: string)
    requires Inv(r) && c in r.told
    ensures Inv(Apply(r, Notify(c)))
  {
    hide Numbered;
    var id := r.current[c];
    if id in r.held {
      OneChain(c, r.held[id], id);
    }
    forall c' | c' in r.told && c' != c
      ensures r.told[c'] != id
    {
      if r.told[c'] == id {
        OneChain(c, c', id);
      }
    }
  }

  lemma RegisterKeeps(r: Registry, c: string, start: int)
    requires Inv(r) && c !in r.current && IsInt64(start)
    ensures Inv(Apply(r, Register(c, start)))
  {
    var id := SessionIdentifier(c, start);
    assert Numbered(c, id);
    if id in r.held {
      OneChain(c, r.held[id], id);
    }
  }

  lemma StepKeeps(r: Registry, step: Step)
    requires Inv(r) && Allowed(r, step)
    ensures Inv(Apply(r, step))
  {
    match step
    case Register(c, start) => RegisterKeeps(r, c, start);
    case Store(c) => NextNumbered(c, r.current[c]);
    case Notify(c) => NotifyKeeps(r, c);
  }

  lemma {:induction false} RunKeeps(r: Registry, run: seq<Step>)
    requires Inv(r) && ValidRun(r, run)
    ensures Inv(After(r, run))
    decreases |run|
  {
    if run != [] {
      StepKeeps(r, run[0]);
      RunKeeps(Apply(r, run[0]), run[1..]);
    }
  }

  /**
   In every reachable state each registered session is held exactly once, under the identifier it last
   notified, which is its current one unless a notification is outstanding, and nothing else is held.
   */
  lemma HeldExactlyOnce(run: seq<Step>, c: string)
    requires ValidRun(Registry(map[], map[], map[]), run)
    ensures var r := After(Registry(map[], map[], map[]), run);
            && (c in r.current <==> c in r.held.Values)
            && (c in r.current ==> c in r.told && forall k :: k in r.held && r.held[k] == c <==> k == r.told[c])
  {
    RunKeeps(Registry(map[], map[], map[]), run);
  }
}
