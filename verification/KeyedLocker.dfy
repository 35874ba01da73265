/**
 The keyed locker (internal/indexbarrier/keyed_lock.go): one mutex per key, made on demand and
 dropped when idle. Each section under the table mutex and each entry mutex operation is one step.
 */
module KeyedLocker {
  import opened Base
  import Runs

  type Key = string
  type Thread = nat

  // ---------------------------------------------------------------- the table of entries

  /** Entries by key, and the reference count of every entry ever made. `E` identifies an entry. */
  datatype Table<E> = Table(entries: map<Key, E>, refs: map<E, int>)

  /** The entry to use for a key: the one in the table, else a new one. */
  function EntryFor<E>(t: Table<E>, key: Key, made: E): E {
    if key in t.entries then t.entries[key] else made
  }

  /** First section of Lock: look up or make the entry, and count one more reference. */
  function Entered<E>(t: Table<E>, key: Key, made: E): Table<E> {
    var e := EntryFor(t, key, made);
    Table(t.entries[key := e], t.refs[e := (if e in t.refs then t.refs[e] else 0) + 1])
  }

  /** Last section of the release closure: count down, and drop an idle entry. */
  function Left<E>(t: Table<E>, key: Key, e: E): Table<E>
    requires e in t.refs
  {
    var n := t.refs[e] - 1;
    Table(if n == 0 then t.entries - {key} else t.entries, t.refs[e := n])
  }

  class Entry {
    var refs: int
    constructor ()
      ensures refs == 0
    {
      refs := 0;
    }
  }

  /** The table as the locker keeps it; every method is one section under the table mutex. */
  class Locker {
    var entries: map<Key, Entry>
    ghost var made: set<Entry>

    ghost predicate Valid()
      reads this
    {
      entries.Values <= made
    }

    ghost function Contents(): Table<Entry>
      reads this, made
    {
      Table(entries, map e | e in made :: e.refs)
    }

    constructor ()
      ensures Valid() && Contents() == Table(map[], map[])
    {
      entries, made := map[], {};
    }

    method Enter(key: Key) returns (entry: Entry)
      requires Valid()
      modifies this, made
      ensures Valid() && made == old(made) + {entry}
      ensures key !in old(entries) ==> fresh(entry)
      ensures entry == EntryFor(old(Contents()), key, entry)
      ensures Contents() == Entered(old(Contents()), key, entry)
    {
      if key in entries {
        entry := entries[key];
        assert entry in entries.Values;
      } else {
        entry := new Entry();
        entries := entries[key := entry];
        made := made + {entry};
      }
      entry.refs := entry.refs + 1;
      assert Contents().entries == Entered(old(Contents()), key, entry).entries;
    }

    method Leave(key: Key, entry: Entry)
      requires Valid() && entry in made
      modifies this, entry
      ensures Valid() && made == old(made)
      ensures Contents() == Left(old(Contents()), key, entry)
    {
      entry.refs := entry.refs - 1;
      if entry.refs == 0 { entries := entries - {key}; }
    }
  }

  // ---------------------------------------------------------------- threads

  /** Where a thread is between entering Lock and leaving the release closure. */
  datatype Phase<E> = Phase(key: Key, entry: E, at: Place)
  datatype Place = Waiting | Holding | Leaving

  /** `owner` says which entry mutexes are locked, and by whom. */
  datatype State<E> = State(table: Table<E>, owner: map<E, Thread>, threads: map<Thread, Phase<E>>)

  datatype Event<E> = Enter(t: Thread, key: Key, made: E) | Acquire(t: Thread) | Unlock(t: Thread) | Leave(t: Thread)

  predicate Enabled<E>(s: State<E>, e: Event<E>) {
    match e
    case Enter(t, _, made) => t !in s.threads && made !in s.table.refs
    case Acquire(t) => t in s.threads && s.threads[t].at.Waiting? && s.threads[t].entry !in s.owner
    case Unlock(t) => t in s.threads && s.threads[t].at.Holding?
    case Leave(t) => t in s.threads && s.threads[t].at.Leaving? && s.threads[t].entry in s.table.refs
  }

  function Apply<E>(s: State<E>, e: Event<E>): State<E>
    requires Enabled(s, e)
  {
    match e
    case Enter(t, key, made) =>
      State(Entered(s.table, key, made), s.owner,
            s.threads[t := Phase(key, EntryFor(s.table, key, made), Waiting)])
    case Acquire(t) =>
      var p := s.threads[t];
      s.(owner := s.owner[p.entry := t], threads := s.threads[t := p.(at := Holding)])
    case Unlock(t) =>
      var p := s.threads[t];
      s.(owner := s.owner - {p.entry}, threads := s.threads[t := p.(at := Leaving)])
    case Leave(t) =>
      var p := s.threads[t];
      s.(table := Left(s.table, p.key, p.entry), threads := s.threads - {t})
  }

  // ---------------------------------------------------------------- the invariant

  /** The threads between entering and leaving the lock of a key. */
  function Users<E>(threads: map<Thread, Phase<E>>, key: Key): set<Thread> {
    set t | t in threads && threads[t].key == key
  }

  predicate KeyFine<E>(s: State<E>, key: Key) {
    if key in s.table.entries then
      && s.table.entries[key] in s.table.refs
      && s.table.refs[s.table.entries[key]] == |Users(s.threads, key)| > 0
    else Users(s.threads, key) == {}
  }

  predicate ThreadFine<E>(s: State<E>, t: Thread)
    requires t in s.threads
  {
    var p := s.threads[t];
    && p.key in s.table.entries && s.table.entries[p.key] == p.entry
    && (p.at.Holding? <==> p.entry in s.owner && s.owner[p.entry] == t)
  }

  predicate OwnersFine<E>(s: State<E>) {
    forall e :: e in s.owner ==> s.owner[e] in s.threads && s.threads[s.owner[e]].entry == e
  }

  predicate Distinct<E(==)>(entries: map<Key, E>) {
    forall k, l :: k in entries && l in entries && entries[k] == entries[l] ==> k == l
  }

  ghost predicate Inv<E>(s: State<E>) {
    && Distinct(s.table.entries) && OwnersFine(s)
    && (forall k :: KeyFine(s, k))
    && (forall t :: t in s.threads ==> ThreadFine(s, t))
  }

  predicate Initial<E>(s: State<E>) {
    s == State(Table(map[], map[]), map[], map[])
  }

  lemma InitialFine<E>(s: State<E>)
    requires Initial(s)
    ensures Inv(s)
  {
  }

  /** A thread appears among the users of its key only. */
  lemma UsersAfter<E>(threads: map<Thread, Phase<E>>, t: Thread, p: Phase<E>, k: Key)
    requires t !in threads
    ensures Users(threads[t := p], k) == Users(threads, k) + if p.key == k then {t} else {}
    ensures t !in Users(threads, k)
  {
  }

  lemma SameUsers<E>(threads: map<Thread, Phase<E>>, t: Thread, at: Place, k: Key)
    requires t in threads
    ensures Users(threads[t := threads[t].(at := at)], k) == Users(threads, k)
  {
  }

  lemma OwnedEntriesAreCounted<E>(s: State<E>)
    requires Inv(s)
    ensures s.owner.Keys <= s.table.refs.Keys
  {
    forall e | e in s.owner ensures e in s.table.refs {
      var p := s.threads[s.owner[e]];
      assert ThreadFine(s, s.owner[e]) && KeyFine(s, p.key) && p.entry == e;
    }
  }

  lemma EnterKeys<E>(s: State<E>, t: Thread, key: Key, made: E)
    requires Inv(s) && Enabled(s, Enter(t, key, made))
    ensures forall k :: KeyFine(Apply(s, Enter(t, key, made)), k)
    ensures Distinct(Apply(s, Enter(t, key, made)).table.entries)
  {
    var u := Apply(s, Enter(t, key, made));
    assert KeyFine(s, key);
    forall k ensures KeyFine(u, k) {
      assert KeyFine(s, k);
      UsersAfter(s.threads, t, u.threads[t], k);
    }
    forall k, l | k in u.table.entries && l in u.table.entries && u.table.entries[k] == u.table.entries[l] ensures k == l {
      assert KeyFine(s, k) && KeyFine(s, l);
    }
  }

  lemma EnterKept<E>(s: State<E>, t: Thread, key: Key, made: E)
    requires Inv(s) && Enabled(s, Enter(t, key, made))
    ensures Inv(Apply(s, Enter(t, key, made)))
  {
    var u := Apply(s, Enter(t, key, made));
    EnterKeys(s, t, key, made);
    OwnedEntriesAreCounted(s);
    forall v | v in u.threads ensures ThreadFine(u, v) {
      if v != t { assert ThreadFine(s, v); }
      else if u.threads[t].entry in s.owner { assert OwnersFine(s); }
    }
  }

  lemma MutexKept<E>(s: State<E>, e: Event<E>)
    requires Inv(s) && Enabled(s, e) && (e.Acquire? || e.Unlock?)
    ensures Inv(Apply(s, e))
  {
    var u := Apply(s, e);
    assert ThreadFine(s, e.t);
    forall k ensures KeyFine(u, k) {
      assert KeyFine(s, k);
      SameUsers(s.threads, e.t, u.threads[e.t].at, k);
    }
    forall v | v in u.threads ensures ThreadFine(u, v) { assert ThreadFine(s, v); }
  }

  lemma LeaveKeys<E>(s: State<E>, t: Thread)
    requires Inv(s) && Enabled(s, Leave(t))
    ensures forall k :: KeyFine(Apply(s, Leave(t)), k)
  {
    var u := Apply(s, Leave(t));
    var p := s.threads[t];
    assert ThreadFine(s, t) && KeyFine(s, p.key);
    assert s.threads == u.threads[t := p];
    forall k ensures KeyFine(u, k) {
      assert KeyFine(s, k);
      UsersAfter(u.threads, t, p, k);
    }
  }

  lemma LeaveKept<E>(s: State<E>, t: Thread)
    requires Inv(s) && Enabled(s, Leave(t))
    ensures Inv(Apply(s, Leave(t)))
  {
    var u := Apply(s, Leave(t));
    LeaveKeys(s, t);
    forall v | v in u.threads ensures ThreadFine(u, v) {
      assert ThreadFine(s, v) && ThreadFine(s, t);
      assert KeyFine(u, s.threads[v].key) && v in Users(u.threads, s.threads[v].key);
    }
    forall e | e in u.owner ensures u.owner[e] in u.threads && u.threads[u.owner[e]].entry == e {
      assert ThreadFine(s, s.owner[e]);
    }
  }

  lemma StepKept<E>(s: State<E>, e: Event<E>)
    requires Inv(s) && Enabled(s, e)
    ensures Inv(Apply(s, e))
  {
    match e
    case Enter(t, key, made) => EnterKept(s, t, key, made);
    case Leave(t) => LeaveKept(s, t);
    case _ => MutexKept(s, e);
  }

  // ---------------------------------------------------------------- what every run guarantees

  function Next<E>(s: State<E>, e: Event<E>): Option<State<E>> { if Enabled(s, e) then Some(Apply(s, e)) else None }

  function Run<E>(s: State<E>, events: seq<Event<E>>): Option<State<E>> { Runs.Run(Next, s, events) }

  lemma RunKept<E>(s: State<E>, events: seq<Event<E>>)
    requires Inv(s) && Run(s, events).Some?
    ensures Inv(Run(s, events).value)
  {
    forall s: State<E>, e: Event<E> | Inv(s) && Next(s, e).Some? ensures Inv(Next(s, e).value) { StepKept(s, e); }
    Runs.InvariantHolds(Next, s => Inv(s), s, events);
  }

  predicate Holds<E>(s: State<E>, t: Thread, key: Key) {
    t in s.threads && s.threads[t].key == key && s.threads[t].at.Holding?
  }

  /**
   In every reachable state: at most one thread holds a key, all threads of a key share one entry,
   an entry is in the table exactly when its count equals a positive number of users, and the
   table is empty when there are none.
   */
  lemma Guarantees<E>(s0: State<E>, events: seq<Event<E>>)
    requires Initial(s0) && Run(s0, events).Some?
    ensures var s := Run(s0, events).value;
      && (forall t, u, k :: Holds(s, t, k) && Holds(s, u, k) ==> t == u)
      && (forall t, u :: t in s.threads && u in s.threads && s.threads[t].key == s.threads[u].key ==>
            s.threads[t].entry == s.threads[u].entry)
      && (forall k :: k in s.table.entries <==> Users(s.threads, k) != {})
      && (forall k :: k in s.table.entries ==>
            Lookup(s.table.refs, s.table.entries[k]) == Some(|Users(s.threads, k)|))
      && (s.threads == map[] ==> s.table.entries == map[])
  {
    InitialFine(s0);
    RunKept(s0, events);
    var s := Run(s0, events).value;
    forall k ensures KeyFine(s, k) && (k in s.table.entries <==> Users(s.threads, k) != {}) { assert KeyFine(s, k); }
    forall t | t in s.threads ensures ThreadFine(s, t) { assert ThreadFine(s, t); }
  }

  // ---------------------------------------------------------------- a mutex per key, and nothing else

  /** Who holds each key: all that callers can observe of the locker. */
  function Holders<E>(s: State<E>): map<Key, Thread> {
    map k | k in s.table.entries && s.table.entries[k] in s.owner :: s.owner[s.table.entries[k]]
  }

  lemma HoldersAre<E>(s: State<E>, t: Thread, key: Key)
    requires Inv(s)
    ensures Holds(s, t, key) <==> key in Holders(s) && Holders(s)[key] == t
  {
    if key in Holders(s) && Holders(s)[key] == t {
      assert ThreadFine(s, t) && s.threads[t].entry == s.table.entries[key];
    }
    if Holds(s, t, key) { assert ThreadFine(s, t); }
  }

  /** A plain lock per key: taking sets the holder of a free key, unlocking clears it. */
  predicate PlainStep(h: map<Key, Thread>, g: map<Key, Thread>, t: Thread, key: Key, taking: bool, unlocking: bool) {
    if taking then key !in h && g == h[key := t]
    else if unlocking then key in h && h[key] == t && g == h - {key}
    else g == h
  }

  lemma EnterHolders<E>(s: State<E>, t: Thread, key: Key, made: E)
    requires Inv(s) && Enabled(s, Enter(t, key, made))
    ensures Holders(Apply(s, Enter(t, key, made))) == Holders(s)
  {
    OwnedEntriesAreCounted(s);
  }

  lemma LeaveHolders<E>(s: State<E>, t: Thread)
    requires Inv(s) && Enabled(s, Leave(t))
    ensures Holders(Apply(s, Leave(t))) == Holders(s)
  {
    var key := s.threads[t].key;
    LeaveKept(s, t);
    assert ThreadFine(s, t);
    if key in Holders(s) {
      var v := Holders(s)[key];
      HoldersAre(s, v, key);
      HoldersAre(Apply(s, Leave(t)), v, key);
    }
  }

  lemma AcquireHolders<E>(s: State<E>, t: Thread)
    requires Distinct(s.table.entries) && Enabled(s, Acquire(t)) && ThreadFine(s, t)
    ensures var key := s.threads[t].key; key !in Holders(s) && Holders(Apply(s, Acquire(t))) == Holders(s)[key := t]
  {
  }

  lemma UnlockHolders<E>(s: State<E>, t: Thread)
    requires Distinct(s.table.entries) && Enabled(s, Unlock(t)) && ThreadFine(s, t)
    ensures var key := s.threads[t].key;
      key in Holders(s) && Holders(s)[key] == t && Holders(Apply(s, Unlock(t))) == Holders(s) - {key}
  {
  }

  /** The locker refines one mutex per key, although entries come and go. */
  lemma RefinesMutexPerKey<E>(s: State<E>, e: Event<E>)
    requires Inv(s) && Enabled(s, e)
    ensures var key := if e.Enter? then e.key else s.threads[e.t].key;
      PlainStep(Holders(s), Holders(Apply(s, e)), e.t, key, e.Acquire?, e.Unlock?)
  {
    if !e.Enter? { assert ThreadFine(s, e.t); }
    match e
    case Enter(t, key, made) => EnterHolders(s, t, key, made);
    case Acquire(t) => AcquireHolders(s, t);
    case Unlock(t) => UnlockHolders(s, t);
    case Leave(t) => LeaveHolders(s, t);
  }

  /** A waiting thread can take its key exactly when nobody holds it. */
  lemma WaitsOnlyForHolder<E>(s: State<E>, t: Thread)
    requires Inv(s) && t in s.threads && s.threads[t].at.Waiting?
    ensures Enabled(s, Acquire(t)) <==> s.threads[t].key !in Holders(s)
  {
    assert ThreadFine(s, t);
  }
}
