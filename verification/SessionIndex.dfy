/** The session index (internal/auth/session_index.go): the map every request is authenticated from. */
module SessionIndex {
  import opened Base

  /** SHA-256 of a session token; tokens are random, so only freshness matters. */
  type Hash = nat

  datatype Profile = Profile(name: string, email: string)

  datatype Identity = Identity(id: nat, admin: nat, csrf: nat, profile: Profile, expires: Instant)

  type Sessions = map<Hash, Identity>

  function OnlyKept(m: Sessions, keep: Hash): Sessions {
    map h | h in m && h == keep :: m[h]
  }

  function WithProfile(m: Sessions, admin: nat, profile: Profile): Sessions {
    map h | h in m :: if m[h].admin == admin then m[h].(profile := profile) else m[h]
  }

  function Purged(m: Sessions, now: Instant): Sessions {
    map h | h in m && m[h].expires > now :: m[h]
  }

  function Get(m: Sessions, hash: Hash, now: Instant): Option<Identity> {
    if hash in m && m[hash].expires > now then Some(m[hash]) else None
  }

  /** One map, changed in place under one mutex, so each method is one step. */
  class Index {
    var sessions: Sessions

    constructor ()
      ensures sessions == map[]
    {
      sessions := map[];
    }

    method Replace(loaded: Sessions)
      modifies this
      ensures sessions == loaded
    {
      sessions := loaded;
    }

    method Add(hash: Hash, identity: Identity)
      modifies this
      ensures sessions == old(sessions)[hash := identity]
    {
      sessions := sessions[hash := identity];
    }

    method Remove(hash: Hash)
      modifies this
      ensures sessions == old(sessions) - {hash}
    {
      sessions := sessions - {hash};
    }

    method RemoveAllExcept(keep: Hash)
      modifies this
      ensures sessions == OnlyKept(old(sessions), keep)
    {
      var identity := Lookup(sessions, keep);
      sessions := map[];
      if identity.Some? { sessions := sessions[keep := identity.value]; }
    }

    /** Rewrites entries while ranging over them, in any order. */
    method UpdateAdmin(admin: nat, profile: Profile)
      modifies this
      ensures sessions == WithProfile(old(sessions), admin, profile)
    {
      var todo := sessions.Keys;
      ghost var before, after := sessions, WithProfile(sessions, admin, profile);
      while todo != {}
        invariant todo <= before.Keys
        invariant sessions.Keys == before.Keys
        invariant forall h :: h in before ==> sessions[h] == if h in todo then before[h] else after[h]
        decreases todo
      {
        var hash :| hash in todo;
        var identity := sessions[hash];
        if identity.admin == admin { sessions := sessions[hash := identity.(profile := profile)]; }
        todo := todo - {hash};
      }
      assert sessions == after;
    }

    /** Deletes expired entries while ranging over them, and counts them. */
    method PurgeExpired(now: Instant) returns (removed: nat)
      modifies this
      ensures sessions == Purged(old(sessions), now)
      ensures removed == |old(sessions)| - |sessions|
    {
      removed := 0;
      var todo := sessions.Keys;
      ghost var before, after := sessions, Purged(sessions, now);
      while todo != {}
        invariant todo <= sessions.Keys <= before.Keys
        invariant forall h :: h in sessions ==> sessions[h] == before[h]
        invariant forall h :: h in before ==> (h in sessions <==> h in todo || h in after)
        invariant removed + |sessions| == |before|
        decreases todo
      {
        var hash :| hash in todo;
        if sessions[hash].expires <= now {
          ghost var was := sessions;
          sessions := sessions - {hash};
          assert was == sessions[hash := was[hash]];
          removed := removed + 1;
        }
        todo := todo - {hash};
      }
      assert sessions == after;
    }

    method Find(hash: Hash, now: Instant) returns (identity: Option<Identity>)
      ensures identity == Get(sessions, hash, now)
      ensures if hash in sessions && sessions[hash].expires > now then identity == Some(sessions[hash]) else identity.None?
    {
      identity := Lookup(sessions, hash);
      if identity.Some? && identity.value.expires <= now { identity := None; }
    }
  }

  /** Purging removes nothing that would still authenticate, now or later. */
  lemma PurgeIsUnseen(m: Sessions, hash: Hash, purge: Instant, now: Instant)
    requires purge <= now
    ensures Get(Purged(m, purge), hash, now) == Get(m, hash, now)
  {
  }
}
