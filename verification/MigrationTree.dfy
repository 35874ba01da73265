/**
 Deleting a migration image and the directories it leaves empty
 (internal/platform/storage/filesystem.go). Entries are named by their components below the root.
 */
module MigrationTree {
  import opened Base
  import AliasPath
  import AliasSpelling
  import Utf8

  type Name = Bytes
  type Path = seq<Name>

  /** `Regular(image)`: whether extension and content are those of a supported image. */
  datatype Kind = Directory | Regular(image: bool) | Link | Special

  datatype DeleteError = NotFound | Unsafe | Invalid

  datatype Outcome = Outcome(removed: nat, pending: bool)

  /** UTF-8 names of ordinary entries. */
  predicate ValidName(n: Name) {
    && n != [] && n != ['.' as Byte] && n != ['.' as Byte, '.' as Byte]
    && '/' as Byte !in n && '\\' as Byte !in n && 0 !in n && AliasPath.ValidUtf8(n)
  }

  predicate ValidPath(p: Path) {
    p != [] && forall i :: 0 <= i < |p| ==> ValidName(p[i])
  }

  /** The checks on the whole path are checks of its components, but for ".", which names the root. */
  lemma PathByComponents(relative: Bytes)
    requires relative != ['.' as Byte]
    ensures ValidPath(AliasPath.Split(relative)) <==>
      relative != [] && AliasPath.ValidPath(relative) && '\\' as Byte !in relative && 0 !in relative
  {
    var p := AliasPath.Split(relative);
    AliasSpelling.JoinSplit(relative);
    AliasPath.SplitHasNoSlash(relative);
    Utf8.ValidByPieces(p);
    JoinHolds(p, '\\' as Byte);
    JoinHolds(p, 0);
    forall i | 0 <= i < |p| ensures p[i] in p && '/' as Byte !in p[i] {}
    if relative == [] { assert p[0] == []; }
    if ValidPath(p) {
      forall seg | seg in p ensures seg != [] && !AliasPath.IsDots(seg) {
        var i :| 0 <= i < |p| && p[i] == seg;
        assert ValidName(p[i]);
      }
    }
  }

  lemma SplitRoot(relative: Bytes)
    ensures AliasPath.Split(relative) == [['.' as Byte]] <==> relative == ['.' as Byte]
    ensures !ValidPath([['.' as Byte]]) && AliasPath.ValidPath(['.' as Byte])
  {
    AliasPath.AsciiIsUtf8(['.' as Byte]);
    AliasSpelling.JoinSplit(relative);
    AliasPath.SplitOne(['.' as Byte]);
    assert !ValidName([['.' as Byte]][0]);
  }

  lemma {:induction false} JoinHolds(p: Path, b: Byte)
    requires b != AliasPath.SLASH
    ensures b in AliasPath.Join(p) <==> exists i :: 0 <= i < |p| && b in p[i]
  {
    if |p| > 1 {
      JoinHolds(p[1..], b);
      if i :| 0 <= i < |p[1..]| && b in p[1..][i] { assert b in p[i + 1]; }
      if i :| 0 <= i < |p| && b in p[i] { if i > 0 { assert b in p[1..][i - 1]; } }
    }
  }

  /** Every entry lies in a directory; the root itself is no entry. */
  predicate Tree(entries: map<Path, Kind>) {
    forall p :: p in entries ==> p != [] && (|p| > 1 ==> p[..|p| - 1] in entries && entries[p[..|p| - 1]].Directory?)
  }

  /** What the component walk of validateMigrationDeletePath accepts. */
  predicate Reachable(entries: map<Path, Kind>, p: Path, n: nat)
    requires n <= |p|
  {
    forall i :: 1 <= i <= n ==> p[..i] in entries && !entries[p[..i]].Link? && (i < |p| ==> entries[p[..i]].Directory?)
  }

  /** The walk reaches a component that is not there. */
  predicate Missing(entries: map<Path, Kind>, p: Path) {
    exists i :: 1 <= i <= |p| && Reachable(entries, p, i - 1) && p[..i] !in entries
  }

  /** The file can be deleted: a plain path of directories down to a supported image. */
  predicate Deletable(entries: map<Path, Kind>, p: Path) {
    ValidPath(p) && Reachable(entries, p, |p|) && p in entries && entries[p] == Regular(true)
  }

  predicate Below(p: Path, d: Path) { |d| < |p| && p[..|d|] == d }

  /** Nothing lies below the directory but the file and the directories on the way to it. */
  predicate Hollow(entries: map<Path, Kind>, file: Path, d: Path) {
    forall p :: p in entries && Below(p, d) ==> p <= file
  }

  /** Ancestors from depth `n` down, all hollow and none of them stuck. */
  predicate Goes(entries: map<Path, Kind>, file: Path, stuck: set<Path>, n: nat)
    requires n <= |file|
  {
    forall k :: n <= k < |file| ==> Hollow(entries, file, file[..k]) && file[..k] !in stuck
  }

  /** The directories a delete removes: those ancestors of the file with nothing else below them. */
  ghost function Emptied(entries: map<Path, Kind>, file: Path, stuck: set<Path>): set<Path>
    requires file != []
  {
    set k | 1 <= k < |file| && Goes(entries, file, stuck, k) :: file[..k]
  }

  /** The chain reaches a directory that cannot be inspected or removed. */
  predicate Interrupted(entries: map<Path, Kind>, file: Path, stuck: set<Path>) {
    exists k :: 1 <= k < |file| && file[..k] in stuck && Goes(entries, file, stuck, k + 1)
  }

  class MigrationRoot {
    var entries: map<Path, Kind>

    constructor ()
      ensures entries == map[]
    {
      entries := map[];
    }

    /** No component may be missing, a symbolic link, or, before the last, anything but a directory. */
    method ValidateDeletePath(relative: Bytes) returns (r: Result<(), DeleteError>)
      ensures var p := AliasPath.Split(relative);
        && (r.Ok? <==> p == [['.' as Byte]] || (ValidPath(p) && Reachable(entries, p, |p|)))
        && (r == Err(Invalid) <==> p != [['.' as Byte]] && !ValidPath(p))
        && (r == Err(NotFound) <==> ValidPath(p) && Missing(entries, p))
    {
      SplitRoot(relative);
      if relative == [] || !AliasPath.ValidPath(relative) || AliasPath.BACKSLASH in relative || 0 in relative {
        PathByComponents(relative);
        return Err(Invalid);
      }
      var p := AliasPath.Split(relative);
      if relative == [AliasPath.DOT] { return Ok(()); }
      PathByComponents(relative);
      for i := 0 to |p|
        invariant Reachable(entries, p, i)
      {
        var current := p[..i + 1];
        if current !in entries { return Err(NotFound); }
        if entries[current].Link? { return Err(Unsafe); }
        if i < |p| - 1 && !entries[current].Directory? { return Err(Unsafe); }
      }
      r := Ok(());
    }

    /** Removing a directory fails while anything lies in it. */
    predicate Empty(d: Path)
      reads this
    {
      forall p :: p in entries ==> !Below(p, d)
    }

    /**
     Deletes the file, then its ancestors from the nearest up, stopping at the first that is not
     empty or cannot be inspected or removed (`stuck`). The root is never removed.
     */
    method Remove(relative: Bytes, stuck: set<Path>) returns (r: Result<Outcome, DeleteError>)
      requires Tree(entries)
      modifies this
      ensures r.Ok? <==> Deletable(old(entries), AliasPath.Split(relative))
      ensures r == Err(NotFound) <==>
        ValidPath(AliasPath.Split(relative)) && Missing(old(entries), AliasPath.Split(relative))
      ensures r.Err? ==> entries == old(entries)
      ensures r.Ok? ==>
        var file := AliasPath.Split(relative);
        && entries == old(entries) - ({file} + Emptied(old(entries), file, stuck))
        && r.value.removed == |Emptied(old(entries), file, stuck)|
        && (!r.value.pending ==> Emptied(old(entries), file, stuck) == Emptied(old(entries), file, {}))
        && (r.value.pending <==> Interrupted(old(entries), file, stuck))
        && Tree(entries)
    {
      var valid := ValidateDeletePath(relative);
      if valid.Err? { return Err(valid.error); }
      var file := AliasPath.Split(relative);
      SplitRoot(relative);
      // The path "." names the root, which is no image.
      if file == [['.' as Byte]] { return Err(Invalid); }
      assert file[..|file|] == file;
      if entries[file] != Regular(true) { return Err(Invalid); }
      ghost var before := entries;
      entries := entries - {file};
      assert Prefixes(file, |file|) == {};
      var outcome := Prune(before, file, stuck);
      r := Ok(outcome);
    }

    method Prune(ghost before: map<Path, Kind>, file: Path, stuck: set<Path>) returns (outcome: Outcome)
      requires Tree(before) && file in before && !before[file].Directory?
      requires entries == before - {file}
      modifies this
      ensures entries == before - ({file} + Emptied(before, file, stuck)) && Tree(entries)
      ensures outcome.removed == |Emptied(before, file, stuck)|
      ensures !outcome.pending ==> Emptied(before, file, stuck) == Emptied(before, file, {})
      ensures outcome.pending <==> Interrupted(before, file, stuck)
    {
      var depth, removed, pending := |file| - 1, 0, false;
      while depth > 0
        invariant 0 <= depth < |file|
        invariant Goes(before, file, stuck, depth + 1)
        invariant entries == Remaining(before, file, depth + 1)
        invariant removed == |Prefixes(file, depth + 1)|
        invariant !pending
      {
        var directory := file[..depth];
        if directory in stuck {
          pending := true;
          break;
        }
        EmptyMeansHollow(before, file, depth);
        if !Empty(directory) { break; }
        entries := entries - {directory};
        OneMorePrefix(before, file, depth);
        GoesOn(before, file, stuck, depth);
        removed := removed + 1;
        depth := depth - 1;
      }
      PruneEnd(before, file, stuck, depth, pending);
      outcome := Outcome(removed, pending);
    }
  }

  ghost function Prefixes(file: Path, n: nat): set<Path>
    requires n <= |file|
  {
    set k | n <= k < |file| :: file[..k]
  }

  ghost function Remaining(before: map<Path, Kind>, file: Path, n: nat): map<Path, Kind>
    requires n <= |file|
  {
    before - ({file} + Prefixes(file, n))
  }

  lemma OneMorePrefix(before: map<Path, Kind>, file: Path, n: nat)
    requires 0 < n < |file|
    ensures |Prefixes(file, n)| == |Prefixes(file, n + 1)| + 1
    ensures Remaining(before, file, n) == Remaining(before, file, n + 1) - {file[..n]}
  {
    PrefixAdded(file, n);
    assert {file} + Prefixes(file, n) == ({file} + Prefixes(file, n + 1)) + {file[..n]};
  }

  lemma PrefixAdded(file: Path, n: nat)
    requires 0 < n < |file|
    ensures Prefixes(file, n) == Prefixes(file, n + 1) + {file[..n]} && file[..n] !in Prefixes(file, n + 1)
  {
    forall k | n + 1 <= k < |file| ensures file[..k] != file[..n] { assert |file[..k]| == k; }
    forall p | p in Prefixes(file, n) ensures p in Prefixes(file, n + 1) + {file[..n]} {
      var k :| n <= k < |file| && p == file[..k];
    }
  }

  lemma GoesOn(before: map<Path, Kind>, file: Path, stuck: set<Path>, n: nat)
    requires n < |file| && Goes(before, file, stuck, n + 1) && Hollow(before, file, file[..n]) && file[..n] !in stuck
    ensures Goes(before, file, stuck, n)
  {
  }

  /** A directory has become empty exactly when the chain so far was all it held. */
  lemma EmptyMeansHollow(before: map<Path, Kind>, file: Path, depth: nat)
    requires Tree(before) && 0 < depth < |file| && file in before
    ensures (forall p :: p in Remaining(before, file, depth + 1) ==> !Below(p, file[..depth])) <==> Hollow(before, file, file[..depth])
  {
    forall p | p in before && Below(p, file[..depth]) ensures p <= file <==> p !in Remaining(before, file, depth + 1) {
      PrefixesOf(file, depth + 1, p);
    }
  }

  lemma PrefixesOf(file: Path, n: nat, p: Path)
    requires n <= |file|
    ensures p in Prefixes(file, n) <==> n <= |p| < |file| && p <= file
    ensures p <= file && |p| >= |file| ==> p == file
  {
    if p <= file { assert p == file[..|p|]; }
    assert file[..|file|] == file;
  }

  /** The loop stops where the chain ends. */
  lemma Stopped(before: map<Path, Kind>, file: Path, stuck: set<Path>, depth: nat)
    requires depth < |file| && Goes(before, file, stuck, depth + 1)
    requires depth > 0 ==> !Hollow(before, file, file[..depth]) || file[..depth] in stuck
    ensures Emptied(before, file, stuck) == Prefixes(file, depth + 1)
  {
    forall k | 1 <= k < |file| ensures Goes(before, file, stuck, k) <==> k > depth {
      if k <= depth { assert depth > 0; }
    }
  }

  /** What the loop's end means: the chain, what remains, and whether it was interrupted. */
  lemma PruneEnd(before: map<Path, Kind>, file: Path, stuck: set<Path>, depth: nat, pending: bool)
    requires Tree(before) && file in before && !before[file].Directory?
    requires depth < |file| && Goes(before, file, stuck, depth + 1)
    requires if pending then depth > 0 && file[..depth] in stuck
             else depth > 0 ==> !Hollow(before, file, file[..depth]) && file[..depth] !in stuck
    ensures Emptied(before, file, stuck) == Prefixes(file, depth + 1) && Tree(Remaining(before, file, depth + 1))
    ensures !pending ==> Emptied(before, file, stuck) == Emptied(before, file, {})
    ensures pending <==> Interrupted(before, file, stuck)
  {
    Stopped(before, file, stuck, depth);
    if !pending { Stopped(before, file, {}, depth); }
    Pruned(before, file, depth + 1);
    InterruptedOnlyThere(before, file, stuck, depth, pending);
  }

  /** Further up, the chain is not reached. */
  lemma InterruptedOnlyThere(before: map<Path, Kind>, file: Path, stuck: set<Path>, depth: nat, pending: bool)
    requires depth < |file| && Goes(before, file, stuck, depth + 1)
    requires if pending then depth > 0 && file[..depth] in stuck
             else depth > 0 ==> !Hollow(before, file, file[..depth]) && file[..depth] !in stuck
    ensures pending <==> Interrupted(before, file, stuck)
  {
    forall k | 1 <= k < |file| && file[..k] in stuck && Goes(before, file, stuck, k + 1) ensures pending {
      if k < depth { assert Hollow(before, file, file[..depth]); }
    }
  }

  /** What remains is still a tree. */
  lemma Pruned(before: map<Path, Kind>, file: Path, n: nat)
    requires Tree(before) && file in before && !before[file].Directory? && 0 < n <= |file|
    requires forall k :: n <= k < |file| ==> Hollow(before, file, file[..k])
    ensures Tree(Remaining(before, file, n))
  {
    var gone := {file} + Prefixes(file, n);
    forall p | p in before && |p| > 1 && p[..|p| - 1] in gone ensures p in gone {
      var parent := p[..|p| - 1];
      PrefixesOf(file, n, parent);
      PrefixesOf(file, n, p);
      assert before[parent].Directory? && parent == file[..|parent|] && Below(p, parent);
    }
  }

  /** Without stuck directories, these are exactly the ancestors that hold nothing else: the maximal chain. */
  lemma EmptiedIsMaximal(entries: map<Path, Kind>, file: Path, d: Path)
    requires file != []
    ensures d in Emptied(entries, file, {}) <==> d != [] && Below(file, d) && Hollow(entries, file, d)
  {
    if d != [] && Below(file, d) && Hollow(entries, file, d) {
      forall k | |d| <= k < |file| ensures Hollow(entries, file, file[..k]) {
        forall p | p in entries && Below(p, file[..k]) ensures p <= file {
          assert p[..|d|] == file[..k][..|d|] == d;
        }
      }
      assert d == file[..|d|];
    }
  }
}
