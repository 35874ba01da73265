/** The API token index and scope lists (internal/apitoken/index.go, service.go). */
module TokenIndex {
  import opened Base

  /** SHA-256 of a token; tokens are random, so only freshness matters. */
  type Hash = nat

  type Id = nat

  /** The valid scopes, in the order of their names. */
  datatype Scope = AliasesWrite | ImagesDelete | ImagesReadPrivate | ImagesUpload

  datatype Identity = Identity(id: Id, prefix: string, scopes: set<Scope>, expires: Option<Instant>)

  type Tokens = map<Hash, Identity>

  predicate Alive(i: Identity, now: Instant) { i.expires.Some? ==> i.expires.value > now }

  function Get(m: Tokens, hash: Hash, now: Instant): Option<Identity> {
    if hash in m && Alive(m[hash], now) then Some(m[hash]) else None
  }

  function Purged(m: Tokens, now: Instant): Tokens {
    map h | h in m && Alive(m[h], now) :: m[h]
  }

  /** One map, changed in place under one mutex, so each method is one step. */
  class Index {
    var tokens: Tokens

    constructor ()
      ensures tokens == map[]
    {
      tokens := map[];
    }

    method Replace(loaded: Tokens)
      modifies this
      ensures tokens == loaded
    {
      tokens := loaded;
    }

    method Add(hash: Hash, identity: Identity)
      modifies this
      ensures tokens == old(tokens)[hash := identity]
    {
      tokens := tokens[hash := identity];
    }

    method Remove(hash: Hash)
      modifies this
      ensures tokens == old(tokens) - {hash}
    {
      tokens := tokens - {hash};
    }

    method Find(hash: Hash, now: Instant) returns (identity: Option<Identity>)
      ensures identity == Get(tokens, hash, now)
      ensures if hash in tokens && (tokens[hash].expires.None? || tokens[hash].expires.value > now)
              then identity == Some(tokens[hash]) else identity.None?
    {
      identity := Lookup(tokens, hash);
      if identity.Some? && identity.value.expires.Some? && identity.value.expires.value <= now { identity := None; }
    }

    /** Deletes expired entries while ranging over them, and counts them. */
    method PurgeExpired(now: Instant) returns (removed: nat)
      modifies this
      ensures tokens == Purged(old(tokens), now)
      ensures removed == |old(tokens)| - |tokens|
    {
      removed := 0;
      var todo := tokens.Keys;
      ghost var before, after := tokens, Purged(tokens, now);
      while todo != {}
        invariant todo <= tokens.Keys <= before.Keys
        invariant forall h :: h in tokens ==> tokens[h] == before[h]
        invariant forall h :: h in before ==> (h in tokens <==> h in todo || h in after)
        invariant removed + |tokens| == |before|
        decreases todo
      {
        var hash :| hash in todo;
        if tokens[hash].expires.Some? && tokens[hash].expires.value <= now {
          ghost var was := tokens;
          tokens := tokens - {hash};
          assert was == tokens[hash := was[hash]];
          removed := removed + 1;
        }
        todo := todo - {hash};
      }
      assert tokens == after;
    }
  }

  /** Purging removes nothing that would still authenticate, now or later. */
  lemma PurgeIsUnseen(m: Tokens, hash: Hash, purge: Instant, now: Instant)
    requires purge <= now
    ensures Get(Purged(m, purge), hash, now) == Get(m, hash, now)
  {
  }

  // ---------------------------------------------------------------- scope lists

  function Parse(name: string): Option<Scope> {
    match name
    case "aliases:write" => Some(AliasesWrite)
    case "images:delete" => Some(ImagesDelete)
    case "images:read_private" => Some(ImagesReadPrivate)
    case "images:upload" => Some(ImagesUpload)
    case _ => None
  }

  function Rank(s: Scope): nat {
    match s
    case AliasesWrite => 0
    case ImagesDelete => 1
    case ImagesReadPrivate => 2
    case ImagesUpload => 3
  }

  predicate Sorted(scopes: seq<Scope>) {
    forall i, j :: 0 <= i < j < |scopes| ==> Rank(scopes[i]) < Rank(scopes[j])
  }

  ghost predicate Names(names: seq<string>, scopes: set<Scope>) {
    && (forall i :: 0 <= i < |names| ==> Parse(names[i]).Some? && Parse(names[i]).value in scopes)
    && (forall s :: s in scopes ==> Asked(names, s))
  }

  predicate Asked(names: seq<string>, scope: Scope) {
    exists i :: 0 <= i < |names| && Parse(names[i]) == Some(scope)
  }

  datatype ScopeError = InvalidScope

  method LowestScope(scopes: set<Scope>) returns (least: Scope)
    requires scopes != {}
    ensures least in scopes && forall s :: s in scopes ==> Rank(least) <= Rank(s)
  {
    least :| least in scopes;
    var rest := scopes - {least};
    while rest != {}
      invariant least in scopes
      invariant forall s :: s in scopes ==> s in rest || Rank(least) <= Rank(s)
      decreases rest
    {
      var s :| s in rest;
      if Rank(s) < Rank(least) { least := s; }
      rest := rest - {s};
    }
  }

  method SortScopes(scopes: set<Scope>) returns (result: seq<Scope>)
    ensures Sorted(result) && forall s :: s in result <==> s in scopes
  {
    result := [];
    var rest := scopes;
    while rest != {}
      invariant Sorted(result)
      invariant forall s, i :: s in rest && 0 <= i < |result| ==> Rank(result[i]) < Rank(s)
      invariant forall s :: s in scopes <==> s in rest || s in result
      decreases rest
    {
      var least := LowestScope(rest);
      result := result + [least];
      rest := rest - {least};
    }
  }

  /** Names become a sorted list without repetitions; an empty list or an unknown name is refused. */
  method NormalizeScopes(names: seq<string>) returns (r: Result<seq<Scope>, ScopeError>)
    ensures r.Ok? <==> names != [] && forall i :: 0 <= i < |names| ==> Parse(names[i]).Some?
    ensures r.Ok? ==> Sorted(r.value) && Names(names, set s | s in r.value)
    ensures r.Ok? ==>
      && (AliasesWrite in r.value <==> "aliases:write" in names) && (ImagesDelete in r.value <==> "images:delete" in names)
      && (ImagesReadPrivate in r.value <==> "images:read_private" in names) && (ImagesUpload in r.value <==> "images:upload" in names)
    ensures r.Err? <==>
      || names == []
      || exists i :: 0 <= i < |names| && names[i] !in {"aliases:write", "images:delete", "images:read_private", "images:upload"}
    ensures r.Ok? ==> forall i, j :: 0 <= i < j < |r.value| ==>
      (r.value[i].AliasesWrite? || r.value[j].ImagesUpload? || (r.value[i].ImagesDelete? && r.value[j].ImagesReadPrivate?))
  {
    if names == [] { return Err(InvalidScope); }
    var scopes: set<Scope> := {};
    for i := 0 to |names|
      invariant Names(names[..i], scopes)
    {
      var scope := Parse(names[i]);
      if scope.None? { return Err(InvalidScope); }
      ghost var before := scopes;
      scopes := scopes + {scope.value};
      assert names[..i + 1][i] == names[i] && names[..i] == names[..i + 1][..i];
      forall s | s in scopes ensures Asked(names[..i + 1], s) {
        if s in before {
          var j :| 0 <= j < i && Parse(names[..i][j]) == Some(s);
          assert Parse(names[..i + 1][j]) == Some(s);
        }
      }
    }
    assert names[..|names|] == names;
    var result := SortScopes(scopes);
    assert (set s | s in result) == scopes;
    NamedScopes(names, scopes);
    r := Ok(result);
  }

  /** Each valid name stands for its own scope. */
  lemma NamedScopes(names: seq<string>, scopes: set<Scope>)
    requires Names(names, scopes)
    ensures (AliasesWrite in scopes <==> "aliases:write" in names) && (ImagesDelete in scopes <==> "images:delete" in names)
    ensures (ImagesReadPrivate in scopes <==> "images:read_private" in names) && (ImagesUpload in scopes <==> "images:upload" in names)
  {
    forall s, name | Parse(name) == Some(s) ensures s in scopes <==> name in names {
      if s in scopes {
        var i :| 0 <= i < |names| && Parse(names[i]) == Some(s);
        assert names[i] == name;
      }
    }
    assert Parse("aliases:write") == Some(AliasesWrite) && Parse("images:delete") == Some(ImagesDelete);
    assert Parse("images:read_private") == Some(ImagesReadPrivate) && Parse("images:upload") == Some(ImagesUpload);
  }

  /** So the list depends only on which scopes were asked for: sorted lists of one set are equal. */
  lemma {:induction false} SortedListIsUnique(a: seq<Scope>, b: seq<Scope>)
    requires Sorted(a) && Sorted(b) && forall s :: s in a <==> s in b
    ensures a == b
  {
    assert forall i :: 0 <= i < |a| ==> a[i] in b;
    assert forall i :: 0 <= i < |b| ==> b[i] in a;
    if a != [] && b != [] {
      assert a[0] == b[0];
      forall s ensures s in a[1..] <==> s in b[1..] {
        if s in a[1..] { assert s in a && s in b; }
        if s in b[1..] { assert s in b && s in a; }
      }
      SortedListIsUnique(a[1..], b[1..]);
    }
  }
}
