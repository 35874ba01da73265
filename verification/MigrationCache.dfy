/**
 The cached migration listing (internal/migrationimage/service.go): loads, scans and deletes by
 any number of callers. Scans walk the directory file by file; every event is one atomic step.
 */
module MigrationCache {
  import opened Base
  import opened MigrationPaging

  type Path = Bytes
  type Actor = nat

  const TTL: nat := 30 * 60 * SECOND

  /** `at` is when the scan ended; `bytes` also counts files that are not listed. */
  datatype Snapshot = Snapshot(items: seq<Image>, skipped: nat, bytes: int, at: Instant)

  function Sum(items: seq<Image>): nat {
    if items == [] then 0
    else
      var n := |items| - 1;
      Sum(items[..n]) + items[n].size
  }

  function Without(items: seq<Image>, path: Path): seq<Image> {
    if items == [] then []
    else
      var n := |items| - 1;
      Without(items[..n], path) + if items[n].path == path then [] else [items[n]]
  }

  /** Dropping a path keeps what the bytes count beyond the listed files. */
  function Dropped(s: Snapshot, path: Path): Snapshot {
    var items := Without(s.items, path);
    s.(items := items, bytes := s.bytes - Sum(s.items) + Sum(items))
  }

  predicate Fresh(s: Snapshot, now: Instant) { now < s.at + TTL }

  /** The cache field; each method runs under the cache mutex. */
  class Cache {
    var snapshot: Option<Snapshot>

    constructor ()
      ensures snapshot.None?
    {
      snapshot := None;
    }

    method Publish(scanned: Snapshot)
      modifies this
      ensures snapshot == Some(scanned)
    {
      snapshot := Some(scanned);
    }

    method FreshSnapshot(now: Instant) returns (r: Option<Snapshot>)
      ensures r == if snapshot.Some? && Fresh(snapshot.value, now) then snapshot else None
    {
      r := if snapshot.Some? && now < snapshot.value.at + TTL then snapshot else None;
    }

    method RemoveCachedPath(path: Path)
      modifies this
      ensures snapshot == if old(snapshot).None? then None else Some(Dropped(old(snapshot).value, path))
    {
      if snapshot.None? { return; }
      var before := snapshot.value;
      var items: seq<Image> := [];
      var bytes := before.bytes;
      for i := 0 to |before.items|
        invariant items == Without(before.items[..i], path)
        invariant before.bytes - bytes == Sum(before.items[..i]) - Sum(items)
      {
        assert before.items[..i + 1][..i] == before.items[..i];
        var item := before.items[i];
        if item.path != path {
          assert (items + [item])[..|items|] == items;
          items := items + [item];
        } else {
          bytes := bytes - item.size;
        }
      }
      assert before.items[..|before.items|] == before.items;
      snapshot := Some(Snapshot(items, before.skipped, bytes, before.at));
    }
  }

  lemma {:induction false} WithoutFacts(items: seq<Image>, path: Path)
    ensures forall x :: x in Without(items, path) <==> x in items && x.path != path
  {
    if items != [] {
      var n := |items| - 1;
      WithoutFacts(items[..n], path);
      assert items == items[..n] + [items[n]];
    }
  }

  lemma {:induction false} WithoutIsLess(items: seq<Image>, path: Path)
    ensures Sum(Without(items, path)) <= Sum(items)
  {
    if items != [] {
      var n := |items| - 1;
      WithoutIsLess(items[..n], path);
      var w := Without(items[..n], path);
      assert w + [] == w && (w + [items[n]])[..|w|] == w;
    }
  }

  lemma {:induction false} WithoutStaysSorted(items: seq<Image>, path: Path)
    requires Sorted(items)
    ensures Sorted(Without(items, path))
  {
    if items != [] {
      var n := |items| - 1;
      WithoutStaysSorted(items[..n], path);
      WithoutFacts(items[..n], path);
      var w := Without(items[..n], path);
      forall i | 0 <= i < |w| ensures Before(At(w[i]), At(items[n])) { assert w[i] in items[..n]; }
    }
  }

  lemma {:induction false} SumOfAppend(a: seq<Image>, b: seq<Image>)
    ensures Sum(a + b) == Sum(a) + Sum(b)
  {
    if b == [] {
      assert a + b == a;
    } else {
      var n := |b| - 1;
      assert (a + b)[..|a| + n] == a + b[..n];
      SumOfAppend(a, b[..n]);
    }
  }

  lemma TakeOut(b: seq<Image>, k: nat)
    requires k < |b|
    ensures var rest := b[..k] + b[k + 1..];
      Sum(b) == Sum(rest) + b[k].size && multiset(b) == multiset(rest) + multiset{b[k]}
  {
    assert b == (b[..k] + [b[k]]) + b[k + 1..];
    SumOfAppend(b[..k], b[k + 1..]);
    SumOfAppend(b[..k] + [b[k]], b[k + 1..]);
    assert (b[..k] + [b[k]])[..k] == b[..k];
  }

  lemma Cancel(m: multiset<Image>, n: multiset<Image>, x: Image)
    requires m + multiset{x} == n + multiset{x}
    ensures m == n
  {
    assert m == (m + multiset{x}) - multiset{x};
    assert n == (n + multiset{x}) - multiset{x};
  }

  /** Sorting does not change the sum. */
  lemma {:induction false} SumOfPermutation(a: seq<Image>, b: seq<Image>)
    requires multiset(a) == multiset(b)
    ensures Sum(a) == Sum(b)
    decreases |a|
  {
    if a == [] {
      assert |multiset(b)| == 0;
    } else {
      var n := |a| - 1;
      assert a[n] in multiset(b);
      var k :| 0 <= k < |b| && b[k] == a[n];
      TakeOut(b, k);
      TakeOut(a, n);
      assert a[..n] + a[n + 1..] == a[..n];
      Cancel(multiset(a[..n]), multiset(b[..k] + b[k + 1..]), a[n]);
      SumOfPermutation(a[..n], b[..k] + b[k + 1..]);
    }
  }
}
