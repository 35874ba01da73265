/**
 API tokens (internal/apitoken): rows and index changed by concurrent creations, revocations,
 cleanups and loads. Every event is one atomic step of one request.
 */
module TokenProtocol {
  import opened Base
  import opened TokenIndex
  import Runs

  type Actor = nat

  datatype Row = Row(hash: Hash, prefix: string, scopes: set<Scope>, expires: Option<nat>, active: bool)

  /** The api_tokens table: ids and hashes are unique, and rows are never deleted. */
  type Rows = map<Id, Row>

  function FromSeconds(e: Option<nat>): Option<Instant> {
    if e.Some? then Some(FromUnix(e.value)) else None
  }

  function InSeconds(e: Option<Instant>): Option<nat> {
    if e.Some? then Some(Unix(e.value)) else None
  }

  /** Not yet expired, in whole seconds, as the repository compares. */
  predicate Lasting(row: Row, now: Instant) { row.expires.Some? ==> row.expires.value > Unix(now) }

  function IdentityOf(id: Id, row: Row): Identity { Identity(id, row.prefix, row.scopes, FromSeconds(row.expires)) }

  /** ListActive: active rows that have not expired in whole seconds, by token hash. */
  ghost predicate Lists(found: Tokens, rows: Rows, now: Instant) {
    && (forall id :: id in rows && rows[id].active && Lasting(rows[id], now) ==>
          rows[id].hash in found && found[rows[id].hash] == IdentityOf(id, rows[id]))
    && (forall h :: h in found ==>
          var id := found[h].id; id in rows && rows[id].hash == h && rows[id].active && Lasting(rows[id], now)
                                 && found[h] == IdentityOf(id, rows[id]))
  }

  // ---------------------------------------------------------------- jobs

  datatype Draft = Draft(id: Id, hash: Hash, prefix: string, scopes: set<Scope>, expires: Option<Instant>)

  function RowOf(d: Draft): Row { Row(d.hash, d.prefix, d.scopes, InSeconds(d.expires), true) }

  function Entry(d: Draft): Identity { Identity(d.id, d.prefix, d.scopes, d.expires) }

  datatype Phase = Begun | Stored | Shown | Read(found: Tokens)

  datatype Kind = Create(d: Draft, at: Instant) | Revoke(id: Id) | Cleanup(now: Instant) | Load(now: Instant)

  datatype Worker = Worker(kind: Kind, phase: Phase, inside: bool)

  /** History: the drafts issued, and the id each hash belongs to. */
  datatype Issue = Issue(d: Draft, owner: Actor)

  datatype History = History(issued: map<Id, Issue>, ids: map<Hash, Id>)

  datatype State = State(
    rows: Rows, index: Tokens, workers: map<Actor, Worker>, mutations: Option<Actor>, clock: Instant, past: History)

  predicate Mutates(k: Kind) { k.Create? || k.Revoke? }

  // ---------------------------------------------------------------- steps

  datatype Event =
    | Tick(dt: nat)
    | Restart(loaded: Tokens)
    | Start(a: Actor, kind: Kind)
    | LockMutations(a: Actor)
    | Enter(a: Actor)
    | WriteRow(a: Actor)
    | WriteIndex(a: Actor)
    | ReadRows(a: Actor, found: Tokens)
    | Finish(a: Actor)

  /** A requested expiry lies after the request's time. */
  predicate MayStart(s: State, k: Kind) {
    match k
    case Create(d, at) =>
      && d.id !in s.past.issued && d.hash !in s.past.ids
      && d.scopes != {} && (d.expires.Some? ==> d.expires.value > at) && at <= s.clock
    case Revoke(_) => true
    case Cleanup(now) => now <= s.clock
    case Load(now) => now <= s.clock
  }

  predicate BarrierFree(s: State, k: Kind) {
    forall b :: b in s.workers && s.workers[b].inside ==> !k.Load? && !s.workers[b].kind.Load?
  }

  predicate Midway(w: Worker) { w.phase.Stored? }

  predicate ReadyToShow(s: State, w: Worker) {
    match w.kind
    case Create(_, _) => w.phase.Stored?
    case Revoke(id) => w.phase.Stored? && id in s.rows
    case Cleanup(_) => w.phase.Begun?
    case Load(_) => w.phase.Read?
  }

  ghost predicate Enabled(s: State, e: Event) {
    match e
    case Tick(_) => true
    case Restart(loaded) => Lists(loaded, s.rows, s.clock)
    case Start(a, k) => a !in s.workers && MayStart(s, k)
    case LockMutations(a) => a in s.workers && Mutates(s.workers[a].kind) && s.mutations.None?
    case Enter(a) =>
      && a in s.workers && !s.workers[a].inside && BarrierFree(s, s.workers[a].kind)
      && (Mutates(s.workers[a].kind) ==> s.mutations == Some(a))
    case WriteRow(a) =>
      && a in s.workers && s.workers[a].inside && s.workers[a].phase.Begun? && Mutates(s.workers[a].kind)
      && (s.workers[a].kind.Revoke? ==> s.workers[a].kind.id in s.rows && s.rows[s.workers[a].kind.id].active)
    case WriteIndex(a) =>
      && a in s.workers && s.workers[a].inside
      && ReadyToShow(s, s.workers[a])
    case ReadRows(a, found) =>
      && a in s.workers && s.workers[a].kind.Load? && s.workers[a].phase.Begun? && s.workers[a].inside
      && Lists(found, s.rows, s.workers[a].kind.now)
    case Finish(a) => a in s.workers && !Midway(s.workers[a])
  }

  function Goto(s: State, a: Actor, p: Phase): map<Actor, Worker>
    requires a in s.workers
  {
    s.workers[a := s.workers[a].(phase := p)]
  }

  function RowWritten(rows: Rows, k: Kind): Rows {
    match k
    case Create(d, _) => rows[d.id := RowOf(d)]
    case Revoke(id) => if id in rows then rows[id := rows[id].(active := false)] else rows
    case _ => rows
  }

  function IndexWritten(s: State, w: Worker): Tokens {
    match w.kind
    case Create(d, _) => s.index[d.hash := Entry(d)]
    case Revoke(id) => if id in s.rows then s.index - {s.rows[id].hash} else s.index
    case Cleanup(now) => Purged(s.index, now)
    case Load(_) => if w.phase.Read? then w.phase.found else s.index
  }

  ghost function Apply(s: State, e: Event): State
    requires Enabled(s, e)
  {
    match e
    case Tick(dt) => s.(clock := s.clock + dt)
    case Restart(loaded) => s.(workers := map[], mutations := None, index := loaded)
    case Start(a, k) =>
      s.(workers := s.workers[a := Worker(k, Begun, false)],
         past := if k.Create? then History(s.past.issued[k.d.id := Issue(k.d, a)], s.past.ids[k.d.hash := k.d.id]) else s.past)
    case LockMutations(a) => s.(mutations := Some(a))
    case Enter(a) => s.(workers := s.workers[a := s.workers[a].(inside := true)])
    case WriteRow(a) => s.(workers := Goto(s, a, Stored), rows := RowWritten(s.rows, s.workers[a].kind))
    case WriteIndex(a) => s.(workers := Goto(s, a, Shown), index := IndexWritten(s, s.workers[a]))
    case ReadRows(a, found) => s.(workers := Goto(s, a, Read(found)))
    case Finish(a) =>
      s.(workers := s.workers - {a}, mutations := if s.mutations == Some(a) then None else s.mutations)
  }

  predicate Initial(s: State) {
    s.rows == map[] && s.index == map[] && s.workers == map[] && s.mutations.None? && s.past == History(map[], map[])
  }

  ghost function Next(s: State, e: Event): Option<State> { if Enabled(s, e) then Some(Apply(s, e)) else None }

  ghost function Run(s: State, events: seq<Event>): Option<State> { Runs.Run(Next, s, events) }

  // ---------------------------------------------------------------- the invariant

  /** The mutation that has written its row and not yet the index; there is at most one. */
  function Pending(s: State): Option<Kind> {
    if s.mutations.Some? && s.mutations.value in s.workers && s.workers[s.mutations.value].phase.Stored?
    then Some(s.workers[s.mutations.value].kind) else None
  }

  predicate Creating(s: State, id: Id) { Pending(s).Some? && Pending(s).value.Create? && Pending(s).value.d.id == id }

  predicate Revoking(s: State, id: Id) { Pending(s) == Some(Revoke(id)) }

  predicate RowFine(s: State, id: Id)
    requires id in s.rows
  {
    && id in s.past.issued && s.past.issued[id].d.id == id
    && s.rows[id] == RowOf(s.past.issued[id].d).(active := s.rows[id].active)
    && s.rows[id].hash in s.past.ids && s.past.ids[s.rows[id].hash] == id
    && (s.rows[id].active && !Creating(s, id) && Lasting(s.rows[id], s.clock) ==> s.rows[id].hash in s.index)
  }

  predicate EntryFine(s: State, h: Hash)
    requires h in s.index
  {
    var id := s.index[h].id;
    && id in s.rows && id in s.past.issued && s.rows[id].hash == h && !Creating(s, id)
    && s.index[h].(expires := None) == Entry(s.past.issued[id].d).(expires := None)
    && (s.index[h].expires == s.past.issued[id].d.expires || s.index[h].expires == FromSeconds(s.rows[id].expires))
    && (s.rows[id].active || Revoking(s, id))
  }

  ghost predicate WorkerFine(s: State, a: Actor)
    requires a in s.workers
  {
    var w := s.workers[a];
    && (Mutates(w.kind) && w.inside ==> s.mutations == Some(a))
    && (w.phase.Stored? || w.phase.Read? ==> w.inside)
    && match w.kind
       case Create(d, _) =>
         && d.id in s.past.issued && s.past.issued[d.id] == Issue(d, a)
         && d.hash in s.past.ids && s.past.ids[d.hash] == d.id && !w.phase.Read?
         && (w.phase.Begun? ==> d.id !in s.rows)
         && (w.phase.Stored? ==> d.id in s.rows && s.rows[d.id] == RowOf(d))
       case Revoke(id) => !w.phase.Read? && (w.phase.Stored? ==> id in s.rows && !s.rows[id].active)
       case Cleanup(now) => now <= s.clock && !w.phase.Read? && !w.phase.Stored?
       case Load(now) => now <= s.clock && !w.phase.Stored? && (w.phase.Read? ==> Lists(w.phase.found, s.rows, now))
  }

  predicate LocksFine(s: State) {
    && (s.mutations.Some? ==> s.mutations.value in s.workers && Mutates(s.workers[s.mutations.value].kind))
    && (forall a, b :: a in s.workers && b in s.workers && s.workers[a].inside && s.workers[b].inside && s.workers[a].kind.Load? ==> a == b)
    && (forall h :: h in s.past.ids ==> s.past.ids[h] in s.past.issued)
  }

  ghost predicate Inv(s: State) {
    && LocksFine(s)
    && (forall a :: a in s.workers ==> WorkerFine(s, a))
    && (forall id :: id in s.rows ==> RowFine(s, id))
    && (forall h :: h in s.index ==> EntryFine(s, h))
  }
}
