/**
 What each request of the token service does when no other one is inside the barrier: from every
 such state its steps can be taken, one after the other, and end in exactly the stated rows and index.
 */
module TokenRequests {
  import opened Base
  import opened TokenIndex
  import opened TokenProtocol
  import Runs

  /** Nobody holds the mutation lock or stands inside the barrier. */
  predicate Free(s: State) {
    s.mutations.None? && forall b :: b in s.workers ==> !s.workers[b].inside
  }

  predicate Ends(s: State, t: State) { t.workers == s.workers && t.mutations.None? && t.clock == s.clock }

  /** The row is owed an entry under the hash: it is active and does not expire in this second or before. */
  predicate Owed(rows: Rows, h: Hash, i: Identity, now: Instant) {
    && i.id in rows
    && var row := rows[i.id];
    && row.active && row.hash == h && (row.expires.Some? ==> row.expires.value > now / 1_000_000_000)
    && i == Identity(i.id, row.prefix, row.scopes,
                     if row.expires.Some? then Some(row.expires.value * 1_000_000_000) else None)
  }

  /** What a load puts into the index. */
  ghost predicate Loaded(index: Tokens, rows: Rows, now: Instant) {
    forall h, i :: Lookup(index, h) == Some(i) <==> Owed(rows, h, i, now)
  }

  lemma ListsExactly(found: Tokens, rows: Rows, now: Instant)
    ensures Lists(found, rows, now) <==> Loaded(found, rows, now)
  {
    if Lists(found, rows, now) {
      forall h, i ensures Lookup(found, h) == Some(i) <==> Owed(rows, h, i, now) {}
    }
    if Loaded(found, rows, now) {
      forall id | id in rows && rows[id].active && Lasting(rows[id], now)
        ensures rows[id].hash in found && found[rows[id].hash] == IdentityOf(id, rows[id])
      {
        assert Lookup(found, rows[id].hash) == Some(IdentityOf(id, rows[id]));
      }
      forall h | h in found ensures Owed(rows, h, found[h], now) { assert Lookup(found, h) == Some(found[h]); }
    }
  }

  /** Hashes are unique, so a load can always list the table. */
  lemma TableCanBeListed(s: State, now: Instant) returns (found: Tokens)
    requires Inv(s)
    ensures Lists(found, s.rows, now)
  {
    forall id | id in s.rows ensures s.rows[id].hash in s.past.ids && s.past.ids[s.rows[id].hash] == id {
      assert RowFine(s, id);
    }
    found := map h | h in s.past.ids && var id := s.past.ids[h];
                       id in s.rows && s.rows[id].hash == h && s.rows[id].active && Lasting(s.rows[id], now)
                     :: IdentityOf(s.past.ids[h], s.rows[s.past.ids[h]]);
  }

  // ---------------------------------------------------------------- runs

  /** A request inside the barrier, before it writes. */
  function Opened(s: State, a: Actor, k: Kind): State {
    s.(workers := s.workers[a := Worker(k, Begun, true)],
       mutations := if Mutates(k) then Some(a) else None,
       past := if k.Create? then History(s.past.issued[k.d.id := Issue(k.d, a)], s.past.ids[k.d.hash := k.d.id]) else s.past)
  }

  function Opening(a: Actor, k: Kind): seq<Event> {
    if k.Create? || k.Revoke? then [Start(a, k), LockMutations(a), Enter(a)] else [Start(a, k), Enter(a)]
  }

  function Closing(a: Actor, k: Kind, found: Tokens): seq<Event> {
    if k.Cleanup? then [WriteIndex(a), Finish(a)]
    else [if k.Load? then ReadRows(a, found) else WriteRow(a), WriteIndex(a), Finish(a)]
  }

  /** `found` is what a load lists. */
  function Events(a: Actor, k: Kind, found: Tokens): seq<Event> { Opening(a, k) + Closing(a, k, found) }

  lemma MutationOpens(s: State, a: Actor, k: Kind)
    requires Free(s) && a !in s.workers && MayStart(s, k) && (k.Create? || k.Revoke?)
    ensures Run(s, Opening(a, k)) == Some(Opened(s, a, k))
  {
    var e := Opening(a, k);
    var s1 := Apply(s, e[0]);
    var s2 := Apply(s1, e[1]);
    var s3 := Apply(s2, e[2]);
    assert s3.workers == Opened(s, a, k).workers;
    Runs.TraceRuns(Next, [s, s1, s2, s3], e);
  }

  lemma PlainOpens(s: State, a: Actor, k: Kind)
    requires Free(s) && a !in s.workers && MayStart(s, k) && (k.Cleanup? || k.Load?)
    ensures Run(s, Opening(a, k)) == Some(Opened(s, a, k))
  {
    var e := Opening(a, k);
    var s1 := Apply(s, e[0]);
    var s2 := Apply(s1, e[1]);
    assert s2.workers == Opened(s, a, k).workers;
    Runs.TraceRuns(Next, [s, s1, s2], e);
  }

  lemma MutationCloses(s: State, a: Actor, k: Kind)
    requires a !in s.workers && (k.Create? || (k.Revoke? && k.id in s.rows && s.rows[k.id].active))
    ensures Run(Opened(s, a, k), Closing(a, k, map[])).Some?
    ensures var t := Run(Opened(s, a, k), Closing(a, k, map[])).value;
      && Ends(s, t) && t.rows == RowWritten(s.rows, k)
      && t.index == if k.Create? then s.index[k.d.hash := Entry(k.d)] else s.index - {s.rows[k.id].hash}
  {
    var e := Closing(a, k, map[]);
    var s0 := Opened(s, a, k);
    var s1 := Apply(s0, e[0]);
    var s2 := Apply(s1, e[1]);
    Runs.TraceRuns(Next, [s0, s1, s2, Apply(s2, e[2])], e);
  }

  lemma CleanupCloses(s: State, a: Actor, k: Kind)
    requires Free(s) && a !in s.workers && k.Cleanup?
    ensures Run(Opened(s, a, k), Closing(a, k, map[])).Some?
    ensures var t := Run(Opened(s, a, k), Closing(a, k, map[])).value;
      Ends(s, t) && t.rows == s.rows && t.index == Purged(s.index, k.now)
  {
    var e := Closing(a, k, map[]);
    var s0 := Opened(s, a, k);
    var s1 := Apply(s0, e[0]);
    Runs.TraceRuns(Next, [s0, s1, Apply(s1, e[1])], e);
  }

  lemma LoadCloses(s: State, a: Actor, k: Kind, found: Tokens)
    requires Free(s) && a !in s.workers && k.Load? && Lists(found, s.rows, k.now)
    ensures Run(Opened(s, a, k), Closing(a, k, found)).Some?
    ensures var t := Run(Opened(s, a, k), Closing(a, k, found)).value;
      Ends(s, t) && t.rows == s.rows && t.index == found
  {
    var e := Closing(a, k, found);
    var s0 := Opened(s, a, k);
    var s1 := Apply(s0, e[0]);
    var s2 := Apply(s1, e[1]);
    Runs.TraceRuns(Next, [s0, s1, s2, Apply(s2, e[2])], e);
  }

  // ---------------------------------------------------------------- requests

  /** A creation stores one active row and shows one token, with what was asked for. */
  lemma CreateAlone(s: State, a: Actor, d: Draft, at: Instant)
    requires Free(s) && a !in s.workers && at <= s.clock
    requires d.id !in s.past.issued && d.hash !in s.past.ids
    requires d.scopes != {} && (d.expires.Some? ==> d.expires.value > at)
    ensures Run(s, Events(a, Create(d, at), map[])).Some?
    ensures var t := Run(s, Events(a, Create(d, at), map[])).value;
      && Ends(s, t)
      && t.rows == s.rows[d.id := Row(d.hash, d.prefix, d.scopes,
                                      if d.expires.Some? then Some(d.expires.value / 1_000_000_000) else None, true)]
      && t.index == s.index[d.hash := Identity(d.id, d.prefix, d.scopes, d.expires)]
  {
    var k := Create(d, at);
    MutationOpens(s, a, k);
    MutationCloses(s, a, k);
    Runs.RunAppend(Next, s, Opening(a, k), Closing(a, k, map[]));
  }

  /** A revocation clears the row's flag and removes its token, nothing else. */
  lemma RevokeAlone(s: State, a: Actor, id: Id)
    requires Free(s) && a !in s.workers && id in s.rows && s.rows[id].active
    ensures Run(s, Events(a, Revoke(id), map[])).Some?
    ensures var t := Run(s, Events(a, Revoke(id), map[])).value;
      && Ends(s, t) && t.rows == s.rows[id := s.rows[id].(active := false)] && t.index == s.index - {s.rows[id].hash}
  {
    var k := Revoke(id);
    MutationOpens(s, a, k);
    MutationCloses(s, a, k);
    Runs.RunAppend(Next, s, Opening(a, k), Closing(a, k, map[]));
  }

  /** A cleanup removes the expired tokens from the index and leaves the rows. */
  lemma CleanupAlone(s: State, a: Actor, now: Instant)
    requires Free(s) && a !in s.workers && now <= s.clock
    ensures Run(s, Events(a, Cleanup(now), map[])).Some?
    ensures var t := Run(s, Events(a, Cleanup(now), map[])).value;
      && Ends(s, t) && t.rows == s.rows
      && (forall h :: h in t.index <==> h in s.index && (s.index[h].expires.Some? ==> s.index[h].expires.value > now))
      && (forall h :: h in t.index ==> t.index[h] == s.index[h])
  {
    var k := Cleanup(now);
    PlainOpens(s, a, k);
    CleanupCloses(s, a, k);
    Runs.RunAppend(Next, s, Opening(a, k), Closing(a, k, map[]));
  }

  /** A load is always possible and replaces the index by the rows owed an entry. */
  lemma LoadAlone(s: State, a: Actor, now: Instant) returns (found: Tokens)
    requires Inv(s) && Free(s) && a !in s.workers && now <= s.clock
    ensures Run(s, Events(a, Load(now), found)).Some?
    ensures var t := Run(s, Events(a, Load(now), found)).value;
      Ends(s, t) && t.rows == s.rows && Loaded(t.index, s.rows, now)
  {
    var k := Load(now);
    found := TableCanBeListed(s, now);
    ListsExactly(found, s.rows, now);
    PlainOpens(s, a, k);
    LoadCloses(s, a, k, found);
    Runs.RunAppend(Next, s, Opening(a, k), Closing(a, k, found));
  }

  /** A crash loses every request in flight, keeps the rows, and loads the index from them. */
  lemma RestartLoads(s: State) returns (found: Tokens)
    requires Inv(s)
    ensures Enabled(s, Restart(found))
    ensures var t := Apply(s, Restart(found));
      && t.workers == map[] && t.mutations.None? && t.rows == s.rows && t.clock == s.clock && t.past == s.past
      && Loaded(t.index, s.rows, s.clock)
  {
    found := TableCanBeListed(s, s.clock);
    ListsExactly(found, s.rows, s.clock);
  }
}
