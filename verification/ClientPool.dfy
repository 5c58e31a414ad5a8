/** The agent's pool of Redis clients: `Connect` with its double-checked lookup under a read-write mutex, for any number
    of goroutines interleaved step by step, with every ping and close free to fail. */
module ClientPool {
  import opened Text

  /** The database index of a name; -1 for an unknown one. */
  function DbIndex(name: string): int {
    match name
    case "APPL_DB" => 0
    case "ASIC_DB" => 1
    case "COUNTERS_DB" => 2
    case "LOGLEVEL_DB" => 3
    case "CONFIG_DB" => 4
    case "PFC_WD_DB" => 5
    case "FLEX_COUNTER_DB" => 5
    case "STATE_DB" => 6
    case "SNMP_OVERLAY_DB" => 7
    case "RESTagent_DB" => 8
    case "GB_ASIC_DB" => 9
    case "GB_COUNTERS_DB" => 10
    case "GB_FLEX_COUNTER_DB" => 11
    case "APPL_STATE_DB" => 14
    case _ => -1
  }

  type Goroutine = nat
  type ClientId = nat

  /** A client handed out by the Redis library: its database, the name it was made for, whether Close was called. */
  datatype Client = Client(db: int, name: string, closeCalled: bool)

  /** Where a Connect call stands. */
  datatype Pc =
    | RLocking | RLocked | PingShared(client: ClientId)
    | Locking | Draining | Locked | PingPooled(client: ClientId) | Closing(client: ClientId)
    | Creating | PingNew(client: ClientId) | ClosingNew(client: ClientId)
    | Returned(result: Option<ClientId>)

  /** A call, with the clients that answered one of its pings. */
  datatype Call = Call(name: string, pc: Pc, answered: set<ClientId>)

  datatype State = State(
    pool: map<string, ClientId>, clients: map<ClientId, Client>, next: ClientId,
    readers: set<Goroutine>, writer: Option<Goroutine>, calls: map<Goroutine, Call>)

  datatype Event = Begin(g: Goroutine, name: string) | Advance(g: Goroutine, ok: bool)

  const INITIAL := State(map[], map[], 0, {}, None, map[])

  /** The mutex lets this step through. As Go's RWMutex does, a writer first announces itself, one at a time, which
      holds back new readers, and then waits for the readers inside to leave. */
  predicate Enabled(s: State, e: Event) {
    match e
    case Begin(g, _) => g !in s.calls || s.calls[g].pc.Returned?
    case Advance(g, _) =>
      g in s.calls &&
      match s.calls[g].pc
      case RLocking => s.writer.None?
      case Locking => s.writer.None?
      case Draining => s.readers == {}
      case Returned(_) => false
      case _ => true
  }

  function Goto(s: State, g: Goroutine, pc: Pc): State
    requires g in s.calls
  {
    s.(calls := s.calls[g := s.calls[g].(pc := pc)])
  }

  /** A return releases the write lock, as the deferred unlock does. */
  function ReturnLocked(s: State, g: Goroutine, result: Option<ClientId>): State
    requires g in s.calls
  {
    Goto(s, g, Returned(result)).(writer := None)
  }

  function Answer(s: State, g: Goroutine, c: ClientId): State
    requires g in s.calls
  {
    s.(calls := s.calls[g := s.calls[g].(answered := s.calls[g].answered + {c})])
  }

  function MarkClosed(s: State, c: ClientId): State {
    if c in s.clients then s.(clients := s.clients[c := s.clients[c].(closeCalled := true)]) else s
  }

  predicate InWriteSection(pc: Pc) {
    pc.Locked? || pc.PingPooled? || pc.Closing? || pc.Creating? || pc.PingNew? || pc.ClosingNew?
  }

  predicate HoldsWriter(pc: Pc) {
    pc.Draining? || InWriteSection(pc)
  }

  /** The look-up under the read lock, the ping without a lock, and taking the locks. */
  function ReadPhase(s: State, g: Goroutine, ok: bool): State
    requires Enabled(s, Advance(g, ok)) && !InWriteSection(s.calls[g].pc)
  {
    var name := s.calls[g].name;
    match s.calls[g].pc
    case RLocking => Goto(s, g, RLocked).(readers := s.readers + {g})
    case RLocked => Goto(s, g, if name in s.pool then PingShared(s.pool[name])
                         else Locking).(readers := s.readers - {g})
    case PingShared(c) => if ok then Goto(Answer(s, g, c), g, Returned(Some(c))) else Goto(s, g, Locking)
    case Locking => Goto(s, g, Draining).(writer := Some(g))
    case Draining => Goto(s, g, Locked)
  }

  /** Everything under the write lock. */
  function WritePhase(s: State, g: Goroutine, ok: bool): State
    requires Enabled(s, Advance(g, ok)) && InWriteSection(s.calls[g].pc)
  {
    var name := s.calls[g].name;
    match s.calls[g].pc
    case Locked => Goto(s, g, if name in s.pool then PingPooled(s.pool[name]) else Creating)
    case PingPooled(c) => if ok then ReturnLocked(Answer(s, g, c), g, Some(c)) else Goto(s, g, Closing(c))
    case Closing(c) =>
      var closed := MarkClosed(s, c);
      if ok then Goto(closed, g, Creating).(pool := s.pool - {name}) else ReturnLocked(closed, g, None)
    case Creating =>
      if DbIndex(name) == -1 then ReturnLocked(s, g, None)
      else Goto(s, g, PingNew(s.next)).(clients := s.clients[s.next := Client(DbIndex(name), name, false)],
                                        next := s.next + 1)
    case PingNew(c) =>
      if ok then ReturnLocked(Answer(s, g, c), g, Some(c)).(pool := s.pool[name := c]) else Goto(s, g, ClosingNew(c))
    case ClosingNew(c) => ReturnLocked(MarkClosed(s, c), g, None)
  }

  /** `ok` is the outcome of the ping or close at this step. */
  function Next(s: State, e: Event): State
    requires Enabled(s, e)
  {
    match e
    case Begin(g, name) => s.(calls := s.calls[g := Call(name, RLocking, {})])
    case Advance(g, ok) => if InWriteSection(s.calls[g].pc) then WritePhase(s, g, ok) else ReadPhase(s, g, ok)
  }

  // ---------- the invariant ----------

  /** Each lock is held by exactly the calls inside the section it guards, and a writer excludes everyone. */
  ghost predicate LocksRight(s: State) {
    && (forall g :: g in s.readers <==> g in s.calls && s.calls[g].pc.RLocked?)
    && (forall g :: g in s.calls && HoldsWriter(s.calls[g].pc) <==> s.writer == Some(g))
    && (forall g :: g in s.calls && InWriteSection(s.calls[g].pc) ==> s.readers == {})
  }

  /** Every client is on the database of its name, never -1, and a pooled one is the entry of its name. */
  predicate PoolRight(s: State) {
    && (forall c :: c in s.clients ==> c < s.next && s.clients[c].db == DbIndex(s.clients[c].name) != -1)
    && (forall n :: n in s.pool ==> s.pool[n] in s.clients && s.clients[s.pool[n]].name == n)
  }

  /** The client is being tried out by the goroutine that created it. */
  predicate OnTrial(s: State, c: ClientId) {
    && s.writer.Some? && s.writer.value in s.calls
    && (s.calls[s.writer.value].pc == PingNew(c) || s.calls[s.writer.value].pc == ClosingNew(c))
  }

  /** No client is forgotten: Close was called, or it is the pool entry of its name, or it is on trial. */
  predicate Accounted(s: State) {
    forall c :: c in s.clients ==>
      s.clients[c].closeCalled || (s.clients[c].name in s.pool && s.pool[s.clients[c].name] == c) || OnTrial(s, c)
  }

  predicate CallRight(s: State, call: Call) {
    match call.pc
    case PingShared(c) => c in s.clients && s.clients[c].name == call.name
    case PingPooled(c) => call.name in s.pool && s.pool[call.name] == c
    case Closing(c) => call.name in s.pool && s.pool[call.name] == c
    case Creating => call.name !in s.pool
    case PingNew(c) =>
      && call.name !in s.pool && c in s.clients && DbIndex(call.name) != -1
      && s.clients[c] == Client(DbIndex(call.name), call.name, false)
    case ClosingNew(c) => call.name !in s.pool && c in s.clients && s.clients[c].name == call.name
    case Returned(Some(c)) => c in call.answered && c in s.clients && s.clients[c].name == call.name
    case _ => true
  }

  predicate CallsRight(s: State) {
    forall g :: g in s.calls ==> CallRight(s, s.calls[g])
  }

  ghost predicate Inv(s: State) {
    LocksRight(s) && PoolRight(s) && Accounted(s) && CallsRight(s)
  }

  lemma MarkClosedKeepsLocks(s: State)
    ensures forall c :: MarkClosed(s, c).(clients := s.clients) == s
  {
  }

  /** A step of one goroutine does not move another. */
  lemma OthersStay(s: State, e: Event, g: Goroutine)
    requires Enabled(s, e) && g in s.calls && g != e.g
    ensures g in Next(s, e).calls && Next(s, e).calls[g] == s.calls[g]
  {
    hide ReadPhase, WritePhase;
    if e.Advance? && InWriteSection(s.calls[e.g].pc) {
      WriteMovesOne(s, e.g, e.ok);
    } else if e.Advance? {
      ReadMovesOne(s, e.g, e.ok);
    }
  }

  lemma ReadMovesOne(s: State, g: Goroutine, ok: bool)
    requires Enabled(s, Advance(g, ok)) && !InWriteSection(s.calls[g].pc)
    ensures var s' := ReadPhase(s, g, ok);
            s'.calls.Keys == s.calls.Keys && forall h :: h in s.calls && h != g ==> s'.calls[h] == s.calls[h]
  {
  }

  lemma WriteMovesOne(s: State, g: Goroutine, ok: bool)
    requires Enabled(s, Advance(g, ok)) && InWriteSection(s.calls[g].pc)
    ensures var s' := WritePhase(s, g, ok);
            s'.calls.Keys == s.calls.Keys && forall h :: h in s.calls && h != g ==> s'.calls[h] == s.calls[h]
  {
    hide DbIndex, MarkClosed;
    MarkClosedKeepsLocks(s);
  }

  lemma NoNewCalls(s: State, e: Event, g: Goroutine)
    requires Enabled(s, e) && g in Next(s, e).calls && g != e.g
    ensures g in s.calls
  {
    hide ReadPhase, WritePhase;
    if e.Advance? && InWriteSection(s.calls[e.g].pc) {
      WriteMovesOne(s, e.g, e.ok);
    } else if e.Advance? {
      ReadMovesOne(s, e.g, e.ok);
    }
  }

  /** The locks follow the position of the call that steps. */
  predicate OwnLocks(s: State, s': State, g: Goroutine) {
    && g in s'.calls
    && s'.readers == (if s'.calls[g].pc.RLocked? then s.readers + {g} else s.readers - {g})
    && s'.writer == (if HoldsWriter(s'.calls[g].pc) then Some(g) else if s.writer == Some(g) then None else s.writer)
    && (HoldsWriter(s'.calls[g].pc) ==> s.writer == Some(g) || s.writer.None?)
    && (InWriteSection(s'.calls[g].pc) ==> s.readers == {})
    && (s'.calls[g].pc.RLocked? ==> s.writer.None?)
  }

  lemma OutsideOwnLocks(s: State, e: Event)
    requires LocksRight(s) && Enabled(s, e) && (e.Advance? ==> !InWriteSection(s.calls[e.g].pc))
    ensures OwnLocks(s, Next(s, e), e.g)
  {
    hide WritePhase;
  }

  lemma InsideOwnLocks(s: State, g: Goroutine, ok: bool)
    requires LocksRight(s) && Enabled(s, Advance(g, ok)) && InWriteSection(s.calls[g].pc)
    ensures OwnLocks(s, Next(s, Advance(g, ok)), g)
  {
    hide DbIndex, MarkClosed, ReadPhase;
    MarkClosedKeepsLocks(s);
  }

  lemma KeepsLocks(s: State, e: Event)
    requires Inv(s) && Enabled(s, e)
    ensures LocksRight(Next(s, e))
  {
    hide Next, PoolRight, Accounted, CallsRight;
    var s' := Next(s, e);
    if e.Advance? && InWriteSection(s.calls[e.g].pc) {
      InsideOwnLocks(s, e.g, e.ok);
    } else {
      OutsideOwnLocks(s, e);
    }
    forall g | g != e.g
      ensures g in s'.calls <==> g in s.calls
      ensures g in s.calls ==> s'.calls[g] == s.calls[g]
    {
      if g in s'.calls {
        NoNewCalls(s, e, g);
      }
      if g in s.calls {
        OthersStay(s, e, g);
      }
    }
  }

  lemma OutsideKeepsPool(s: State, e: Event)
    requires Enabled(s, e) && (e.Advance? ==> !InWriteSection(s.calls[e.g].pc))
    ensures Next(s, e).pool == s.pool && Next(s, e).clients == s.clients && Next(s, e).next == s.next
  {
    hide WritePhase;
  }

  lemma WriteKeepsPool(s: State, g: Goroutine, ok: bool)
    requires Enabled(s, Advance(g, ok)) && InWriteSection(s.calls[g].pc) && PoolRight(s) && CallRight(s, s.calls[g])
    ensures PoolRight(Next(s, Advance(g, ok)))
  {
    hide DbIndex, ReadPhase;
  }

  lemma KeepsPool(s: State, e: Event)
    requires Inv(s) && Enabled(s, e)
    ensures PoolRight(Next(s, e))
  {
    hide LocksRight, Accounted, DbIndex, Next;
    if e.Advance? && InWriteSection(s.calls[e.g].pc) {
      assert CallRight(s, s.calls[e.g]);
      WriteKeepsPool(s, e.g, e.ok);
    } else {
      OutsideKeepsPool(s, e);
    }
  }

  /** Clients are never forgotten or renamed. */
  lemma NamesStay(s: State, e: Event)
    requires Enabled(s, e) && PoolRight(s)
    ensures forall c :: c in s.clients ==> c in Next(s, e).clients && Next(s, e).clients[c].name == s.clients[c].name
    ensures forall c :: c in s.clients && s.clients[c].closeCalled ==> Next(s, e).clients[c].closeCalled
  {
    hide ReadPhase, DbIndex;
    if e.Advance? && !InWriteSection(s.calls[e.g].pc) {
      OutsideKeepsPool(s, e);
    }
  }

  lemma KeepsOwnCall(s: State, e: Event)
    requires Inv(s) && Enabled(s, e)
    ensures e.g in Next(s, e).calls && CallRight(Next(s, e), Next(s, e).calls[e.g])
  {
    hide Accounted, DbIndex, LocksRight;
    if e.Advance? {
      assert CallRight(s, s.calls[e.g]);
    }
  }

  /** Only the holder of the write lock changes pool and clients, so what other calls rely on stays. */
  lemma KeepsCalls(s: State, e: Event)
    requires Inv(s) && Enabled(s, e)
    ensures CallsRight(Next(s, e))
  {
    hide Accounted, DbIndex, Next, PoolRight;
    var s' := Next(s, e);
    KeepsOwnCall(s, e);
    NamesStay(s, e);
    forall g | g in s'.calls && g != e.g
      ensures CallRight(s', s'.calls[g])
    {
      NoNewCalls(s, e, g);
      OthersStay(s, e, g);
      assert CallRight(s, s.calls[g]);
      if InWriteSection(s.calls[g].pc) {
        assert s.writer == Some(g);
        OutsideKeepsPool(s, e);
      }
    }
  }

  lemma WriterIs(s: State, g: Goroutine)
    requires LocksRight(s) && g in s.calls && InWriteSection(s.calls[g].pc)
    ensures s.writer == Some(g)
  {
  }

  lemma WriteKeepsAccounts(s: State, g: Goroutine, ok: bool)
    requires Enabled(s, Advance(g, ok)) && InWriteSection(s.calls[g].pc) && Accounted(s) && CallRight(s, s.calls[g])
    requires s.writer == Some(g)
    ensures Accounted(Next(s, Advance(g, ok)))
  {
    hide DbIndex, ReadPhase;
  }

  /** A client on trial stays so while others step. */
  lemma OutsideKeepsTrial(s: State, e: Event)
    requires LocksRight(s) && Enabled(s, e) && (e.Advance? ==> !InWriteSection(s.calls[e.g].pc))
    ensures forall c :: OnTrial(s, c) ==> OnTrial(Next(s, e), c)
  {
    hide WritePhase;
  }

  lemma KeepsAccounts(s: State, e: Event)
    requires Inv(s) && Enabled(s, e)
    ensures Accounted(Next(s, e))
  {
    hide Next, LocksRight, PoolRight;
    if e.Advance? && InWriteSection(s.calls[e.g].pc) {
      assert CallRight(s, s.calls[e.g]);
      WriterIs(s, e.g);
      WriteKeepsAccounts(s, e.g, e.ok);
    } else {
      OutsideKeepsPool(s, e);
      OutsideKeepsTrial(s, e);
    }
  }

  lemma NextKeepsInv(s: State, e: Event)
    requires Inv(s) && Enabled(s, e)
    ensures Inv(Next(s, e))
  {
    hide Next, LocksRight, PoolRight, Accounted, CallsRight;
    KeepsLocks(s, e);
    KeepsPool(s, e);
    KeepsCalls(s, e);
    KeepsAccounts(s, e);
  }

  /** A finite history: each event enabled in the state before it. */
  ghost predicate History(es: seq<Event>, states: seq<State>) {
    && |states| == |es| + 1 && states[0] == INITIAL
    && forall i :: 0 <= i < |es| ==> Enabled(states[i], es[i]) && states[i + 1] == Next(states[i], es[i])
  }

  /** Any number of Connect calls, interleaved in any way, with any failures: the invariant holds throughout. */
  lemma {:induction false} InvOverHistories(es: seq<Event>, states: seq<State>, i: nat)
    requires History(es, states) && i < |states|
    ensures Inv(states[i])
  {
    if i == 0 {
      assert INITIAL.calls == map[] && INITIAL.clients == map[] && INITIAL.pool == map[];
    } else {
      hide Inv, Next;
      InvOverHistories(es, states, i - 1);
      assert Enabled(states[i - 1], es[i - 1]) && states[i - 1 + 1] == Next(states[i - 1], es[i - 1]);
      NextKeepsInv(states[i - 1], es[i - 1]);
    }
  }

  /** What the pool guarantees in every reachable state: a client has had Close called, or is the pool entry of its
      name, or is on trial; a call that returned holds no lock, and the client it returned was made for its name and
      answered a ping in that call. */
  lemma PoolGuarantees(es: seq<Event>, states: seq<State>, i: nat)
    requires History(es, states) && i < |states|
    ensures var s := states[i];
            && (forall c :: c in s.clients ==>
                  || s.clients[c].closeCalled || OnTrial(s, c)
                  || (s.clients[c].name in s.pool && s.pool[s.clients[c].name] == c))
            && (forall n :: n in s.pool ==> s.pool[n] in s.clients && s.clients[s.pool[n]].name == n)
            && (forall g :: g in s.calls && s.calls[g].pc.Returned? ==> g !in s.readers && s.writer != Some(g))
            && (forall g :: g in s.calls && s.calls[g].pc.Returned? && s.calls[g].pc.result.Some? ==>
                  Served(s, s.calls[g], s.calls[g].pc.result.value))
  {
    hide History, DbIndex;
    InvOverHistories(es, states, i);
    forall g | g in states[i].calls && states[i].calls[g].pc.Returned? && states[i].calls[g].pc.result.Some?
      ensures Served(states[i], states[i].calls[g], states[i].calls[g].pc.result.value)
    {
      assert CallRight(states[i], states[i].calls[g]);
    }
  }

  /** The client was made for the call's name and answered a ping in it. */
  predicate Served(s: State, call: Call, c: ClientId) {
    c in s.clients && s.clients[c].name == call.name && c in call.answered
  }

  // ---------- which database ----------

  /** The databases by number. */
  predicate OnDatabase(name: string, db: int) {
    || (db == 0 && name == "APPL_DB") || (db == 1 && name == "ASIC_DB") || (db == 2 && name == "COUNTERS_DB")
    || (db == 3 && name == "LOGLEVEL_DB") || (db == 4 && name == "CONFIG_DB")
    || (db == 5 && (name == "PFC_WD_DB" || name == "FLEX_COUNTER_DB"))
    || (db == 6 && name == "STATE_DB") || (db == 7 && name == "SNMP_OVERLAY_DB") || (db == 8 && name == "RESTagent_DB")
    || (db == 9 && name == "GB_ASIC_DB") || (db == 10 && name == "GB_COUNTERS_DB")
    || (db == 11 && name == "GB_FLEX_COUNTER_DB") || (db == 14 && name == "APPL_STATE_DB")
  }

  lemma DbIndexIff(name: string, db: int)
    ensures OnDatabase(name, db) <==> db == DbIndex(name) != -1
  {
  }

  /** In every reachable state: every client, so every client a call returned and every pool entry, is on the database
      of its name, which is 4 for CONFIG_DB, 6 for STATE_DB and 0 for APPL_DB. Two pool entries share a database
      exactly when they are one entry or those of PFC_WD_DB and FLEX_COUNTER_DB. */
  lemma EveryClientOnItsDatabase(es: seq<Event>, states: seq<State>, i: nat)
    requires History(es, states) && i < |states|
    ensures var s := states[i];
            && (forall c :: c in s.clients ==> OnDatabase(s.clients[c].name, s.clients[c].db))
            && (forall c :: c in s.clients && s.clients[c].name == "CONFIG_DB" ==> s.clients[c].db == 4)
            && (forall c :: c in s.clients && s.clients[c].name == "STATE_DB" ==> s.clients[c].db == 6)
            && (forall c :: c in s.clients && s.clients[c].name == "APPL_DB" ==> s.clients[c].db == 0)
            && (forall m, n :: m in s.pool && n in s.pool ==> EntriesApart(s, m, n))
  {
    hide History, DbIndex, OnDatabase, LocksRight, Accounted, CallsRight;
    InvOverHistories(es, states, i);
    var s := states[i];
    forall c | c in s.clients
      ensures OnDatabase(s.clients[c].name, s.clients[c].db)
      ensures s.clients[c].name == "CONFIG_DB" ==> s.clients[c].db == 4
      ensures s.clients[c].name == "STATE_DB" ==> s.clients[c].db == 6
      ensures s.clients[c].name == "APPL_DB" ==> s.clients[c].db == 0
    {
      DbIndexIff(s.clients[c].name, s.clients[c].db);
      MainDatabases(s.clients[c].name, s.clients[c].db);
    }
    forall m, n | m in s.pool && n in s.pool
      ensures EntriesApart(s, m, n)
    {
      SharedDatabaseIff(m, s.clients[s.pool[m]].db, n, s.clients[s.pool[n]].db);
    }
  }

  predicate EntriesApart(s: State, m: string, n: string)
    requires m in s.pool && n in s.pool
  {
    && s.pool[m] in s.clients && s.pool[n] in s.clients
    && (s.clients[s.pool[m]].db == s.clients[s.pool[n]].db <==> m == n || {m, n} == {"PFC_WD_DB", "FLEX_COUNTER_DB"})
  }

  lemma MainDatabases(name: string, db: int)
    requires OnDatabase(name, db)
    ensures name == "CONFIG_DB" ==> db == 4
    ensures name == "STATE_DB" ==> db == 6
    ensures name == "APPL_DB" ==> db == 0
  {
  }

  lemma SharedDatabaseIff(m: string, db1: int, n: string, db2: int)
    requires OnDatabase(m, db1) && OnDatabase(n, db2)
    ensures db1 == db2 <==> m == n || {m, n} == {"PFC_WD_DB", "FLEX_COUNTER_DB"}
  {
    assert "PFC_WD_DB" in {m, n} && "FLEX_COUNTER_DB" in {m, n} && m != n ==>
             {m, n} == {"PFC_WD_DB", "FLEX_COUNTER_DB"};
    if {m, n} == {"PFC_WD_DB", "FLEX_COUNTER_DB"} {
      assert m in {"PFC_WD_DB", "FLEX_COUNTER_DB"} && n in {"PFC_WD_DB", "FLEX_COUNTER_DB"};
      assert "PFC_WD_DB" in {m, n} && "FLEX_COUNTER_DB" in {m, n};
    }
  }

  // ---------- progress ----------

  function Rank(pc: Pc): nat {
    match pc
    case RLocking => 11 case RLocked => 10 case PingShared(_) => 9 case Locking => 8 case Draining => 7 case Locked => 6
    case PingPooled(_) => 5 case Closing(_) => 4 case Creating => 3 case PingNew(_) => 2 case ClosingNew(_) => 1
    case Returned(_) => 0
  }

  /** A call never moves backwards, so it takes at most eleven steps. */
  lemma StepsAreBounded(s: State, g: Goroutine, ok: bool)
    requires Enabled(s, Advance(g, ok))
    ensures g in Next(s, Advance(g, ok)).calls
    ensures Rank(Next(s, Advance(g, ok)).calls[g].pc) < Rank(s.calls[g].pc)
  {
    hide Next;
    if InWriteSection(s.calls[g].pc) {
      InsideDescends(s, g, ok);
    } else {
      OutsideDescends(s, g, ok);
    }
  }

  lemma InsideDescends(s: State, g: Goroutine, ok: bool)
    requires Enabled(s, Advance(g, ok)) && InWriteSection(s.calls[g].pc)
    ensures g in Next(s, Advance(g, ok)).calls && Rank(Next(s, Advance(g, ok)).calls[g].pc) < Rank(s.calls[g].pc)
  {
    hide DbIndex, MarkClosed, ReadPhase;
    MarkClosedKeepsLocks(s);
  }

  lemma OutsideDescends(s: State, g: Goroutine, ok: bool)
    requires Enabled(s, Advance(g, ok)) && !InWriteSection(s.calls[g].pc)
    ensures g in Next(s, Advance(g, ok)).calls && Rank(Next(s, Advance(g, ok)).calls[g].pc) < Rank(s.calls[g].pc)
  {
    hide WritePhase;
  }

  /** No deadlock: while some call has not returned, some call can advance, so every lock taken is given back. */
  lemma SomeoneCanAdvance(s: State, g: Goroutine) returns (h: Goroutine)
    requires Inv(s) && g in s.calls && !s.calls[g].pc.Returned?
    ensures Enabled(s, Advance(h, true)) && Enabled(s, Advance(h, false))
  {
    if s.readers != {} {
      h :| h in s.readers;
    } else if s.writer.Some? {
      h := s.writer.value;
      assert HoldsWriter(s.calls[h].pc);
    } else {
      h := g;
    }
  }

  // ---------- a failed Close ----------

  lemma FailedCloseKeepsEntry(s: State, g: Goroutine, c: ClientId)
    requires Inv(s) && g in s.calls && s.calls[g].pc == Closing(c)
    ensures var s', name := Next(s, Advance(g, false)), s.calls[g].name;
            && s'.calls[g].pc == Returned(None) && s'.pool == s.pool && name in s'.pool && s'.pool[name] == c
            && c in s'.clients && s'.clients[c].closeCalled && s'.writer.None?
  {
    hide DbIndex, LocksRight, Accounted, ReadPhase;
    assert CallRight(s, s.calls[g]);
  }

  /** The calls that have returned. */
  function Finished(s: State): set<Goroutine> {
    set g | g in s.calls && s.calls[g].pc.Returned?
  }

  /** The call has no client to return yet, and did not return one. */
  predicate WithoutClient(pc: Pc, c: ClientId) {
    pc.PingShared? || pc in {RLocking, RLocked, Locking, Draining, Locked, PingPooled(c), Closing(c), Returned(None)}
  }

  /** The entry of the name is `c`, and no call for the name has got a client, the returned ones of `past` aside. */
  predicate Stuck(s: State, name: string, c: ClientId, past: set<Goroutine>) {
    && name in s.pool && s.pool[name] == c && past <= Finished(s)
    && forall g :: g in s.calls && s.calls[g].name == name && g !in past ==> WithoutClient(s.calls[g].pc, c)
  }

  /** A ping, or the Close of the entry, succeeds in a call for the name. */
  predicate Serves(s: State, e: Event, name: string) {
    && e.Advance? && e.ok && e.g in s.calls && s.calls[e.g].name == name
    && (s.calls[e.g].pc.PingShared? || s.calls[e.g].pc.PingPooled? || s.calls[e.g].pc.Closing?)
  }

  /** From any state with an entry on, only the calls that had already returned may have got a client. */
  lemma EntryStartsStuck(s: State, name: string)
    requires Inv(s) && name in s.pool
    ensures Stuck(s, name, s.pool[name], Finished(s))
  {
    hide DbIndex, LocksRight, PoolRight, Accounted;
    forall g | g in s.calls && s.calls[g].name == name && g !in Finished(s)
      ensures WithoutClient(s.calls[g].pc, s.pool[name])
    {
      assert CallRight(s, s.calls[g]);
    }
  }

  /** A name stays stuck over a step exactly when that step does not serve it. */
  lemma StuckStepIff(s: State, e: Event, name: string, c: ClientId, past: set<Goroutine>)
    requires Inv(s) && Enabled(s, e) && Stuck(s, name, c, past)
    ensures Stuck(Next(s, e), name, c, past - {e.g}) <==> !Serves(s, e, name)
  {
    hide DbIndex, LocksRight, PoolRight, Accounted, Next;
    var s' := Next(s, e);
    OwnStuck(s, e, name, c, past);
    forall g | g != e.g
      ensures g in s'.calls <==> g in s.calls
      ensures g in s.calls ==> s'.calls[g] == s.calls[g]
    {
      if g in s'.calls {
        NoNewCalls(s, e, g);
      }
      if g in s.calls {
        OthersStay(s, e, g);
      }
    }
  }

  /** What the step does to the entry and to its own call. */
  lemma OwnStuck(s: State, e: Event, name: string, c: ClientId, past: set<Goroutine>)
    requires Inv(s) && Enabled(s, e) && Stuck(s, name, c, past)
    ensures var s' := Next(s, e);
            && e.g in s'.calls
            && (name in s'.pool && s'.pool[name] == c
                && (s'.calls[e.g].name == name ==> WithoutClient(s'.calls[e.g].pc, c))
                <==> !Serves(s, e, name))
  {
    hide DbIndex, LocksRight, PoolRight, Accounted;
    if e.Advance? {
      assert CallRight(s, s.calls[e.g]);
    }
  }

  /** The calls of `start` whose goroutine has done nothing between the states `from` and `i`. */
  function Past(es: seq<Event>, start: set<Goroutine>, from: nat, i: nat): set<Goroutine>
    requires from <= i <= |es|
  {
    if i == from then start else Past(es, start, from, i - 1) - {es[i - 1].g}
  }

  ghost predicate StuckAt(es: seq<Event>, states: seq<State>, from: nat, i: nat, name: string, c: ClientId)
    requires History(es, states) && from <= i < |states|
  {
    Stuck(states[i], name, c, Past(es, Finished(states[from]), from, i))
  }

  lemma StuckAtNextIff(es: seq<Event>, states: seq<State>, from: nat, i: nat, name: string, c: ClientId)
    requires History(es, states) && from <= i < |es| && StuckAt(es, states, from, i, name, c)
    ensures StuckAt(es, states, from, i + 1, name, c) <==> !Serves(states[i], es[i], name)
  {
    hide Stuck, Serves, Next, Inv;
    InvOverHistories(es, states, i);
    assert Enabled(states[i], es[i]) && states[i + 1] == Next(states[i], es[i]);
    StuckStepIff(states[i], es[i], name, c, Past(es, Finished(states[from]), from, i));
  }

  /** A name whose entry is `c` stays stuck with it over a stretch of any history if and only if no ping, and no Close
      of the entry, succeeds in a call for the name: until then every call for the name that ends, ends without a
      client. */
  lemma {:induction false} StuckIff(es: seq<Event>, states: seq<State>, from: nat, until: nat, name: string,
                                    c: ClientId)
    requires History(es, states) && from <= until < |states| && name in states[from].pool
    requires states[from].pool[name] == c
    ensures (forall i :: from <= i <= until ==> StuckAt(es, states, from, i, name, c))
            <==> (forall i :: from <= i < until ==> !Serves(states[i], es[i], name))
    decreases until - from
  {
    hide Stuck, Serves, Inv, Next, Enabled;
    if from == until {
      InvOverHistories(es, states, from);
      EntryStartsStuck(states[from], name);
    } else {
      StuckIff(es, states, from, until - 1, name, c);
      if forall i :: from <= i <= until - 1 ==> StuckAt(es, states, from, i, name, c) {
        StuckAtNextIff(es, states, from, until - 1, name, c);
      }
    }
  }

  // ---------- after a failed Close ----------

  /** Every client of the name, the entry included, has had Close called. */
  predicate AllClosed(s: State, name: string) {
    name in s.pool && forall d :: d in s.clients && s.clients[d].name == name ==> s.clients[d].closeCalled
  }

  /** A client whose Close was called answers no ping, and a second Close of it fails. */
  predicate ClosedIsSilent(s: State, e: Event) {
    e.Advance? && e.g in s.calls ==>
      match s.calls[e.g].pc
      case PingShared(d) => d in s.clients && s.clients[d].closeCalled ==> !e.ok
      case PingPooled(d) => d in s.clients && s.clients[d].closeCalled ==> !e.ok
      case Closing(d) => d in s.clients && s.clients[d].closeCalled ==> !e.ok
      case _ => true
  }

  /** A failed Close leaves nothing but closed clients under the name. */
  lemma FailedCloseClosesAll(s: State, g: Goroutine, c: ClientId)
    requires Inv(s) && g in s.calls && s.calls[g].pc == Closing(c)
    ensures AllClosed(Next(s, Advance(g, false)), s.calls[g].name)
  {
    hide LocksRight, PoolRight, CallsRight, Next, DbIndex;
    FailedCloseKeepsEntry(s, g, c);
    KeepsAccounts(s, Advance(g, false));
  }

  lemma ClosedServesNobody(s: State, e: Event, name: string)
    requires Inv(s) && Enabled(s, e) && AllClosed(s, name) && ClosedIsSilent(s, e)
    ensures !Serves(s, e, name)
  {
    hide LocksRight, Accounted, DbIndex;
    if e.Advance? {
      assert CallRight(s, s.calls[e.g]);
    }
  }

  lemma AllClosedStays(s: State, e: Event, name: string)
    requires Inv(s) && Enabled(s, e) && AllClosed(s, name) && !Serves(s, e, name)
    ensures AllClosed(Next(s, e), name)
  {
    hide LocksRight, Accounted, DbIndex, Next;
    NamesStay(s, e);
    if e.Advance? && InWriteSection(s.calls[e.g].pc) {
      assert CallRight(s, s.calls[e.g]);
      WriteMakesNoOther(s, e.g, e.ok, name);
    } else {
      OutsideKeepsPool(s, e);
    }
  }

  /** A new client is made for a name without an entry. */
  lemma WriteMakesNoOther(s: State, g: Goroutine, ok: bool, name: string)
    requires Enabled(s, Advance(g, ok)) && InWriteSection(s.calls[g].pc) && CallRight(s, s.calls[g]) && name in s.pool
    requires !Serves(s, Advance(g, ok), name)
    ensures var s' := Next(s, Advance(g, ok));
            name in s'.pool && forall d :: d in s'.clients && s'.clients[d].name == name ==> d in s.clients
  {
    hide DbIndex, ReadPhase;
  }

  lemma {:induction false} ClosedForever(es: seq<Event>, states: seq<State>, from: nat, until: nat, name: string)
    requires History(es, states) && from <= until < |states| && AllClosed(states[from], name)
    requires forall i :: from <= i < until ==> ClosedIsSilent(states[i], es[i])
    ensures AllClosed(states[until], name)
    ensures forall i :: from <= i < until ==> !Serves(states[i], es[i], name)
    decreases until - from
  {
    hide AllClosed, ClosedIsSilent, Serves, Next, Inv;
    if from < until {
      var i := until - 1;
      ClosedForever(es, states, from, i, name);
      InvOverHistories(es, states, i);
      assert Enabled(states[i], es[i]) && states[i + 1] == Next(states[i], es[i]);
      ClosedServesNobody(states[i], es[i], name);
      AllClosedStays(states[i], es[i], name);
    }
  }

  /** When the Close of a pooled client fails, its entry stays; if closed clients stay silent, no call for that name
      ever gets a client again, whatever the goroutines do and however long the history is. */
  lemma FailedCloseSticks(es: seq<Event>, states: seq<State>, at: nat, until: nat, c: ClientId)
    requires History(es, states) && at < until < |states|
    requires es[at].Advance? && !es[at].ok && es[at].g in states[at].calls
    requires states[at].calls[es[at].g].pc == Closing(c)
    requires forall i :: at < i < until ==> ClosedIsSilent(states[i], es[i])
    ensures StuckAt(es, states, at + 1, until, states[at].calls[es[at].g].name, c)
  {
    hide Stuck, ClosedIsSilent, Serves, Next, Inv, AllClosed;
    var g, name := es[at].g, states[at].calls[es[at].g].name;
    InvOverHistories(es, states, at);
    assert states[at + 1] == Next(states[at], es[at]);
    FailedCloseKeepsEntry(states[at], g, c);
    FailedCloseClosesAll(states[at], g, c);
    ClosedForever(es, states, at + 1, until, name);
    StuckIff(es, states, at + 1, until, name, c);
  }
}
