/**
 Keyset paging over the migration listing (internal/migrationimage/service.go): newest first, then
 by path; each page starts behind the last item of the previous one.
 */
module MigrationPaging {
  import opened Base

  datatype Mime = Jpeg | Png | Webp | Gif | Other(name: string)

  datatype Image = Image(path: Bytes, relative: Bytes, mime: Mime, size: nat, modified: int)

  // ---------------------------------------------------------------- order

  /** The order of byte strings. */
  predicate Less(a: Bytes, b: Bytes) {
    b != [] && (a == [] || a[0] < b[0] || (a[0] == b[0] && Less(a[1..], b[1..])))
  }

  lemma {:induction false} LessTransitive(a: Bytes, b: Bytes, c: Bytes)
    requires Less(a, b) && Less(b, c)
    ensures Less(a, c)
  {
    if a != [] && a[0] == b[0] && b[0] == c[0] { LessTransitive(a[1..], b[1..], c[1..]); }
  }

  lemma {:induction false} LessTotal(a: Bytes, b: Bytes)
    ensures a != b <==> Less(a, b) || Less(b, a)
    ensures !(Less(a, b) && Less(b, a))
  {
    if a != [] && b != [] && a[0] == b[0] {
      LessTotal(a[1..], b[1..]);
      assert a == [a[0]] + a[1..] && b == [b[0]] + b[1..];
    }
  }

  /** What a cursor records of the last item of a page. */
  datatype Cursor = Cursor(modified: int, path: Bytes)

  function At(i: Image): Cursor { Cursor(i.modified, i.path) }

  predicate Before(a: Cursor, b: Cursor) {
    a.modified > b.modified || (a.modified == b.modified && Less(a.path, b.path))
  }

  lemma BeforeTransitive(a: Cursor, b: Cursor, c: Cursor)
    requires Before(a, b) && Before(b, c)
    ensures Before(a, c)
  {
    if a.modified == b.modified && b.modified == c.modified { LessTransitive(a.path, b.path, c.path); }
  }

  lemma BeforeTotal(a: Cursor, b: Cursor)
    ensures a != b <==> Before(a, b) || Before(b, a)
    ensures !(Before(a, b) && Before(b, a))
  {
    LessTotal(a.path, b.path);
  }

  predicate Sorted(items: seq<Image>) {
    forall i, j :: 0 <= i < j < |items| ==> Before(At(items[i]), At(items[j]))
  }

  // ---------------------------------------------------------------- filter and page

  function LowerByte(b: Byte): Byte { if 0x41 <= b <= 0x5a then b + 32 else b }

  function ToLower(s: Bytes): Bytes { seq(|s|, i requires 0 <= i < |s| => LowerByte(s[i])) }

  predicate OccursAt(s: Bytes, t: Bytes, i: nat) { i + |t| <= |s| && s[i..i + |t|] == t }

  predicate Contains(s: Bytes, t: Bytes) { exists i :: 0 <= i <= |s| && OccursAt(s, t, i) }

  /** A list filter; zero bounds and a missing type or query do not restrict. */
  datatype Filter = Filter(query: Bytes, mime: Option<Mime>, min: int, max: int)

  predicate QueryMatches(i: Image, query: Bytes) {
    query == [] || Contains(ToLower(i.path), ToLower(query)) || Contains(ToLower(i.relative), ToLower(query))
  }

  predicate Matches(i: Image, f: Filter) {
    && QueryMatches(i, f.query)
    && (f.mime.Some? ==> i.mime == f.mime.value)
    && (f.min > 0 ==> i.size >= f.min)
    && (f.max > 0 ==> i.size <= f.max)
  }

  function Matching(items: seq<Image>, f: Filter): seq<Image> {
    if items == [] then []
    else
      var n := |items| - 1;
      Matching(items[..n], f) + if Matches(items[n], f) then [items[n]] else []
  }

  /** Everything from the first item behind the cursor on. */
  function AfterCursor(items: seq<Image>, c: Cursor): seq<Image>
    decreases |items|
  {
    if items == [] || Before(c, At(items[0])) then items else AfterCursor(items[1..], c)
  }

  function Found(items: seq<Image>, f: Filter, cursor: Option<Cursor>): seq<Image> {
    if cursor.Some? then AfterCursor(Matching(items, f), cursor.value) else Matching(items, f)
  }

  datatype Page = Page(items: seq<Image>, next: Option<Cursor>)

  function Limit(requested: int): (n: nat)
    ensures 0 < n <= 100
  {
    if requested <= 0 || requested > 100 then 24 else requested
  }

  function Cut(items: seq<Image>, limit: nat): Page
    requires limit > 0
  {
    if |items| > limit then Page(items[..limit], Some(At(items[limit - 1]))) else Page(items, None)
  }

  function PageOf(items: seq<Image>, f: Filter, limit: nat, cursor: Option<Cursor>): Page
    requires limit > 0
  {
    Cut(Found(items, f, cursor), limit)
  }

  datatype ListError = InvalidListFilter

  method FindAfter(items: seq<Image>, c: Cursor) returns (rest: seq<Image>)
    ensures rest == AfterCursor(items, c)
  {
    var i := 0;
    while i < |items|
      invariant 0 <= i <= |items|
      invariant AfterCursor(items, c) == AfterCursor(items[i..], c)
    {
      var item := items[i];
      if item.modified < c.modified || (item.modified == c.modified && Less(c.path, item.path)) { return items[i..]; }
      assert items[i..][1..] == items[i + 1..];
      i := i + 1;
    }
    rest := [];
  }

  /** The filter loop. */
  method Select(items: seq<Image>, f: Filter) returns (found: seq<Image>)
    ensures found == Matching(items, f)
  {
    found := [];
    var i := 0;
    while i < |items|
      invariant 0 <= i <= |items|
      invariant found == Matching(items[..i], f)
    {
      assert items[..i + 1][..i] == items[..i];
      i := i + 1;
      var item := items[i - 1];
      if f.query != [] {
        var lower := ToLower(f.query);
        if !Contains(ToLower(item.path), lower) && !Contains(ToLower(item.relative), lower) { continue; }
      }
      if f.mime.Some? && item.mime != f.mime.value { continue; }
      if f.min > 0 && item.size < f.min { continue; }
      if f.max > 0 && item.size > f.max { continue; }
      found := found + [item];
    }
    assert items[..|items|] == items;
  }

  /** One page of a snapshot. */
  method Search(items: seq<Image>, f: Filter, requested: int, cursor: Option<Cursor>) returns (r: Result<Page, ListError>)
    ensures r.Err? <==>
      || |f.query| > 256 || f.min < 0 || f.max < 0 || (f.min > 0 && f.max > 0 && f.min > f.max)
      || (f.mime.Some? && f.mime.value.Other?)
    ensures r.Ok? ==> r.value == PageOf(items, f, Limit(requested), cursor)
    ensures r.Ok? && Sorted(items) ==> Lists(r.value, items, f, if 1 <= requested <= 100 then requested else 24, cursor)
  {
    if |f.query| > 256 || f.min < 0 || f.max < 0 || (f.min > 0 && f.max > 0 && f.min > f.max) {
      return Err(InvalidListFilter);
    }
    if f.mime.Some? && f.mime.value.Other? { return Err(InvalidListFilter); }
    var limit := Limit(requested);
    var found := Select(items, f);
    if Sorted(items) { PageLists(items, f, limit, cursor); }
    if cursor.Some? { found := FindAfter(found, cursor.value); }
    var page := Page(found, None);
    if |found| > limit { page := Page(found[..limit], Some(At(found[limit - 1]))); }
    r := Ok(page);
  }

  // ---------------------------------------------------------------- what one page contains

  lemma {:induction false} MatchingFacts(items: seq<Image>, f: Filter)
    requires Sorted(items)
    ensures Sorted(Matching(items, f))
    ensures forall x :: x in Matching(items, f) <==> x in items && Matches(x, f)
  {
    if items != [] {
      var n := |items| - 1;
      MatchingFacts(items[..n], f);
      assert items == items[..n] + [items[n]];
      var m := Matching(items[..n], f);
      forall i | 0 <= i < |m| ensures Before(At(m[i]), At(items[n])) {
        assert m[i] in items[..n];
      }
    }
  }

  predicate Behind(x: Image, cursor: Option<Cursor>) { cursor.Some? ==> Before(cursor.value, At(x)) }

  lemma {:induction false} AfterCursorFacts(items: seq<Image>, c: Cursor)
    requires Sorted(items)
    ensures Sorted(AfterCursor(items, c))
    ensures forall x :: x in AfterCursor(items, c) <==> x in items && Before(c, At(x))
  {
    if items != [] {
      if Before(c, At(items[0])) {
        forall x | x in items ensures Before(c, At(x)) {
          var i :| 0 <= i < |items| && items[i] == x;
          if i > 0 { BeforeTransitive(c, At(items[0]), At(x)); }
        }
      } else {
        AfterCursorFacts(items[1..], c);
        assert items == [items[0]] + items[1..];
      }
    }
  }

  /** What a page promises about the part of the listing behind its cursor. */
  ghost predicate PageFine(p: Page, items: seq<Image>, f: Filter, cursor: Option<Cursor>) {
    && Sorted(p.items)
    && (forall x :: x in p.items ==> x in items && Matches(x, f) && Behind(x, cursor) && !(p.next.Some? && Behind(x, p.next)))
    && (forall x :: x in items && Matches(x, f) && Behind(x, cursor) ==> x in p.items || (p.next.Some? && Behind(x, p.next)))
    && (p.next.Some? ==> p.items != [] && p.next.value == At(p.items[|p.items| - 1]))
  }

  lemma CutFacts(found: seq<Image>, limit: nat)
    requires limit > 0 && Sorted(found)
    ensures var p := Cut(found, limit);
      && Sorted(p.items)
      && (forall x :: x in p.items ==> x in found && !(p.next.Some? && Behind(x, p.next)))
      && (forall x :: x in found ==> x in p.items || (p.next.Some? && Behind(x, p.next)))
      && (p.next.Some? ==> p.items != [] && p.next.value == At(p.items[|p.items| - 1]))
  {
    var p := Cut(found, limit);
    if p.next.Some? {
      forall x | x in p.items ensures x in found && !Before(p.next.value, At(x)) {
        var i :| 0 <= i < limit && found[i] == x;
        if i < limit - 1 { assert Before(At(found[i]), At(found[limit - 1])); }
        BeforeTotal(At(found[i]), At(found[limit - 1]));
      }
      forall x | x in found && x !in p.items ensures Before(p.next.value, At(x)) {
        assert forall k :: 0 <= k < limit ==> p.items[k] == found[k];
        var i :| 0 <= i < |found| && found[i] == x;
      }
    }
  }

  lemma FoundFacts(items: seq<Image>, f: Filter, cursor: Option<Cursor>)
    requires Sorted(items)
    ensures Sorted(Found(items, f, cursor))
    ensures forall x :: x in Found(items, f, cursor) <==> x in items && Matches(x, f) && Behind(x, cursor)
  {
    MatchingFacts(items, f);
    if cursor.Some? { AfterCursorFacts(Matching(items, f), cursor.value); }
  }

  lemma PageFacts(items: seq<Image>, f: Filter, limit: nat, cursor: Option<Cursor>)
    requires Sorted(items) && limit > 0
    ensures PageFine(PageOf(items, f, limit, cursor), items, f, cursor)
  {
    FoundFacts(items, f, cursor);
    CutFacts(Found(items, f, cursor), limit);
  }

  // ---------------------------------------------------------------- what a page means

  /** The same letter, whatever its case; only A to Z have two. */
  predicate SameLetter(a: Byte, b: Byte) {
    a == b || (0x41 <= a <= 0x5a && b as int == a as int + 32) || (0x41 <= b <= 0x5a && a as int == b as int + 32)
  }

  predicate SpelledAt(s: Bytes, q: Bytes, k: nat) {
    k + |q| <= |s| && forall j :: 0 <= j < |q| ==> SameLetter(s[k + j], q[j])
  }

  /** Some stretch of the text equals the query up to case. */
  predicate Shows(s: Bytes, q: Bytes) { exists k :: 0 <= k <= |s| && SpelledAt(s, q, k) }

  /** The item is of the requested type and size, and its path shows the query. */
  predicate Meets(i: Image, f: Filter) {
    && (f.query == [] || Shows(i.path, f.query) || Shows(i.relative, f.query))
    && (f.mime.Some? ==> i.mime == f.mime.value)
    && (f.min > 0 ==> f.min <= i.size)
    && (f.max > 0 ==> i.size <= f.max)
  }

  /** Dictionary order: at the first difference the smaller byte, or the end. */
  predicate ComesBefore(a: Bytes, b: Bytes) {
    exists k :: 0 <= k <= |a| && DiffersAt(a, b, k)
  }

  predicate DiffersAt(a: Bytes, b: Bytes, k: nat) {
    k <= |a| && k < |b| && a[..k] == b[..k] && (k == |a| || a[k] < b[k])
  }

  /** Older, or of the same age and later in dictionary order. */
  predicate IsAfter(x: Image, c: Cursor) {
    x.modified < c.modified || (x.modified == c.modified && ComesBefore(c.path, x.path))
  }

  /**
   A page of at most `limit` items: some of the snapshot's, each meeting the filter and behind the
   cursor, newest first; whatever else of that kind there is comes behind the next cursor, and
   there is a next cursor only for a full page.
   */
  predicate Lists(p: Page, items: seq<Image>, f: Filter, limit: nat, cursor: Option<Cursor>) {
    && |p.items| <= limit && (p.next.Some? ==> |p.items| == limit)
    && (forall x :: x in p.items ==> x in items && Meets(x, f) && (cursor.Some? ==> IsAfter(x, cursor.value)))
    && (forall x :: x in items && Meets(x, f) && (cursor.Some? ==> IsAfter(x, cursor.value)) ==>
          x in p.items || (p.next.Some? && IsAfter(x, p.next.value)))
    && (forall i, j :: 0 <= i < j < |p.items| ==> IsAfter(p.items[j], At(p.items[i])))
  }

  lemma LowerMeans(a: Byte, b: Byte)
    ensures LowerByte(a) == LowerByte(b) <==> SameLetter(a, b)
  {
  }

  lemma OccursExactly(s: Bytes, q: Bytes, k: nat)
    ensures OccursAt(ToLower(s), ToLower(q), k) <==> SpelledAt(s, q, k)
  {
    if k + |q| <= |s| {
      var t := ToLower(s)[k..k + |q|];
      forall j | 0 <= j < |q| ensures t[j] == ToLower(q)[j] <==> SameLetter(s[k + j], q[j]) { LowerMeans(s[k + j], q[j]); }
    }
  }

  lemma ContainsExactly(s: Bytes, q: Bytes)
    ensures Contains(ToLower(s), ToLower(q)) <==> Shows(s, q)
  {
    forall k: nat ensures OccursAt(ToLower(s), ToLower(q), k) <==> SpelledAt(s, q, k) { OccursExactly(s, q, k); }
  }

  lemma MatchesExactly(i: Image, f: Filter)
    ensures Matches(i, f) <==> Meets(i, f)
  {
    ContainsExactly(i.path, f.query);
    ContainsExactly(i.relative, f.query);
  }

  lemma {:induction false} LessIsFound(a: Bytes, b: Bytes) returns (k: nat)
    requires Less(a, b)
    ensures DiffersAt(a, b, k)
  {
    if a == [] || a[0] < b[0] {
      k := 0;
    } else {
      var n := LessIsFound(a[1..], b[1..]);
      k := n + 1;
      assert a[..k] == [a[0]] + a[1..][..n] && b[..k] == [b[0]] + b[1..][..n];
    }
  }

  lemma {:induction false} FoundIsLess(a: Bytes, b: Bytes, k: nat)
    requires DiffersAt(a, b, k)
    ensures Less(a, b)
  {
    if k > 0 {
      assert a[..k][0] == b[..k][0];
      assert a[1..][..k - 1] == a[..k][1..] && b[1..][..k - 1] == b[..k][1..];
      FoundIsLess(a[1..], b[1..], k - 1);
    }
  }

  lemma LessExactly(a: Bytes, b: Bytes)
    ensures Less(a, b) <==> ComesBefore(a, b)
  {
    if Less(a, b) { var k := LessIsFound(a, b); }
    if k: nat :| DiffersAt(a, b, k) { FoundIsLess(a, b, k); }
  }

  lemma BeforeExactly(x: Image, c: Cursor)
    ensures Before(c, At(x)) <==> IsAfter(x, c)
  {
    LessExactly(c.path, x.path);
  }

  lemma PageLists(items: seq<Image>, f: Filter, limit: nat, cursor: Option<Cursor>)
    requires Sorted(items) && limit > 0
    ensures Lists(PageOf(items, f, limit, cursor), items, f, limit, cursor)
  {
    var p := PageOf(items, f, limit, cursor);
    PageFacts(items, f, limit, cursor);
    forall x ensures (Matches(x, f) <==> Meets(x, f)) && (forall c :: Before(c, At(x)) <==> IsAfter(x, c)) {
      MatchesExactly(x, f);
      forall c ensures Before(c, At(x)) <==> IsAfter(x, c) { BeforeExactly(x, c); }
    }
  }

  // ---------------------------------------------------------------- following the cursor

  /** Pages fetched one after the other, each from the snapshot of its moment, to the last one. */
  predicate Follows(pages: seq<Page>, snapshots: seq<seq<Image>>, f: Filter, limit: nat, cursor: Option<Cursor>)
    requires limit > 0
    decreases |pages|
  {
    && |pages| == |snapshots| > 0
    && pages[0] == PageOf(snapshots[0], f, limit, cursor)
    && if pages[0].next.None? then |pages| == 1
       else Follows(pages[1..], snapshots[1..], f, limit, pages[0].next)
  }

  function Concat(pages: seq<Page>): seq<Image> {
    if pages == [] then [] else pages[0].items + Concat(pages[1..])
  }

  ghost predicate AllSorted(snapshots: seq<seq<Image>>) {
    forall i :: 0 <= i < |snapshots| ==> Sorted(snapshots[i])
  }

  /** Nothing is listed twice, whatever happens between pages. */
  lemma {:induction false} NothingTwice(pages: seq<Page>, snapshots: seq<seq<Image>>, f: Filter, limit: nat, cursor: Option<Cursor>)
    requires limit > 0 && AllSorted(snapshots) && Follows(pages, snapshots, f, limit, cursor)
    ensures Sorted(Concat(pages))
    ensures forall x :: x in Concat(pages) ==> Behind(x, cursor) && Matches(x, f)
    decreases |pages|
  {
    var p := pages[0];
    PageFacts(snapshots[0], f, limit, cursor);
    if p.next.Some? {
      var rest := pages[1..];
      NothingTwice(rest, snapshots[1..], f, limit, p.next);
      forall x | x in p.items ensures At(x) == p.next.value || Before(At(x), p.next.value) {
        BeforeTotal(At(x), p.next.value);
      }
      JoinSorted(p.items, Concat(rest), p.next.value);
      forall x | x in Concat(rest) ensures Behind(x, cursor) {
        var last := p.items[|p.items| - 1];
        assert last in p.items;
        if cursor.Some? { BeforeTransitive(cursor.value, At(last), At(x)); }
      }
    } else {
      assert Concat(pages) == p.items + Concat(pages[1..]) && pages[1..] == [];
    }
  }

  lemma JoinSorted(a: seq<Image>, b: seq<Image>, c: Cursor)
    requires Sorted(a) && Sorted(b)
    requires forall x :: x in a ==> At(x) == c || Before(At(x), c)
    requires forall x :: x in b ==> Before(c, At(x))
    ensures Sorted(a + b)
  {
    var s := a + b;
    forall i, j | 0 <= i < j < |s| ensures Before(At(s[i]), At(s[j])) {
      if i < |a| <= j {
        assert s[i] in a && s[j] in b;
        if At(s[i]) != c { BeforeTransitive(At(s[i]), c, At(s[j])); }
      }
    }
  }

  /** An item that stays unchanged throughout is listed. */
  lemma {:induction false} NothingLost(pages: seq<Page>, snapshots: seq<seq<Image>>, f: Filter, limit: nat, cursor: Option<Cursor>, x: Image)
    requires limit > 0 && AllSorted(snapshots) && Follows(pages, snapshots, f, limit, cursor)
    requires Matches(x, f) && Behind(x, cursor) && forall i :: 0 <= i < |snapshots| ==> x in snapshots[i]
    ensures x in Concat(pages)
    decreases |pages|
  {
    PageFacts(snapshots[0], f, limit, cursor);
    if x !in pages[0].items {
      NothingLost(pages[1..], snapshots[1..], f, limit, pages[0].next, x);
    }
  }

  function Times(x: Image, items: seq<Image>): nat {
    if items == [] then 0 else (if items[0] == x then 1 else 0) + Times(x, items[1..])
  }

  lemma {:induction false} SortedListsOnce(x: Image, items: seq<Image>)
    requires Sorted(items)
    ensures Times(x, items) == if x in items then 1 else 0
  {
    if items != [] {
      SortedListsOnce(x, items[1..]);
      assert items == [items[0]] + items[1..];
      if items[0] == x && x in items[1..] {
        var i :| 0 <= i < |items[1..]| && items[1..][i] == x;
        BeforeTotal(At(items[0]), At(items[i + 1]));
      }
    }
  }

  /** Deletes and rescans may happen between pages: what stays unchanged is returned exactly once. */
  lemma UnchangedItemsOnce(pages: seq<Page>, snapshots: seq<seq<Image>>, f: Filter, limit: nat, x: Image)
    requires limit > 0 && AllSorted(snapshots) && Follows(pages, snapshots, f, limit, None)
    requires Matches(x, f) && forall i :: 0 <= i < |snapshots| ==> x in snapshots[i]
    ensures Times(x, Concat(pages)) == 1
  {
    NothingTwice(pages, snapshots, f, limit, None);
    NothingLost(pages, snapshots, f, limit, None, x);
    SortedListsOnce(x, Concat(pages));
  }

  lemma {:induction false} SameSortedList(a: seq<Image>, b: seq<Image>)
    requires Sorted(a) && Sorted(b) && forall x :: x in a <==> x in b
    ensures a == b
  {
    assert forall i :: 0 <= i < |a| ==> a[i] in b;
    assert forall i :: 0 <= i < |b| ==> b[i] in a;
    if a != [] && b != [] {
      BeforeTotal(At(a[0]), At(b[0]));
      assert a[0] == b[0];
      forall x ensures x in a[1..] <==> x in b[1..] {
        BeforeTotal(At(x), At(a[0]));
        if x in a[1..] { assert x in b && x != a[0]; }
        if x in b[1..] { assert x in a && x != a[0]; }
      }
      SameSortedList(a[1..], b[1..]);
    }
  }

  lemma {:induction false} OnlyListed(pages: seq<Page>, snapshots: seq<seq<Image>>, items: seq<Image>, f: Filter, limit: nat, cursor: Option<Cursor>)
    requires limit > 0 && Sorted(items) && Follows(pages, snapshots, f, limit, cursor)
    requires forall i :: 0 <= i < |snapshots| ==> snapshots[i] == items
    ensures forall x :: x in Concat(pages) ==> x in items
    decreases |pages|
  {
    PageFacts(snapshots[0], f, limit, cursor);
    if pages[0].next.Some? { OnlyListed(pages[1..], snapshots[1..], items, f, limit, pages[0].next); }
  }

  /** Over one snapshot the pages together are the filtered sorted list. */
  lemma OneSnapshotExactly(pages: seq<Page>, snapshots: seq<seq<Image>>, items: seq<Image>, f: Filter, limit: nat)
    requires limit > 0 && Sorted(items) && Follows(pages, snapshots, f, limit, None)
    requires forall i :: 0 <= i < |snapshots| ==> snapshots[i] == items
    ensures Concat(pages) == Matching(items, f)
  {
    NothingTwice(pages, snapshots, f, limit, None);
    OnlyListed(pages, snapshots, items, f, limit, None);
    MatchingFacts(items, f);
    forall x | x in Matching(items, f) ensures x in Concat(pages) {
      NothingLost(pages, snapshots, f, limit, None, x);
    }
    SameSortedList(Concat(pages), Matching(items, f));
  }

  /** Following the cursor over one snapshot comes to an end. */
  lemma {:induction false} FollowingEnds(items: seq<Image>, f: Filter, limit: nat, cursor: Option<Cursor>)
    returns (pages: seq<Page>, snapshots: seq<seq<Image>>)
    requires limit > 0 && Sorted(items)
    ensures Follows(pages, snapshots, f, limit, cursor)
    ensures forall i :: 0 <= i < |snapshots| ==> snapshots[i] == items
    decreases |Left(items, cursor)|
  {
    var p := PageOf(items, f, limit, cursor);
    PageFacts(items, f, limit, cursor);
    if p.next.None? {
      pages, snapshots := [p], [items];
    } else {
      LessIsLeft(p, items, f, cursor);
      var ps, ss := FollowingEnds(items, f, limit, p.next);
      pages, snapshots := [p] + ps, [items] + ss;
      assert pages[1..] == ps && snapshots[1..] == ss;
    }
  }

  ghost function Left(items: seq<Image>, cursor: Option<Cursor>): set<Image> {
    set x | x in items && Behind(x, cursor)
  }

  lemma LessIsLeft(p: Page, items: seq<Image>, f: Filter, cursor: Option<Cursor>)
    requires PageFine(p, items, f, cursor) && p.next.Some?
    ensures |Left(items, p.next)| < |Left(items, cursor)|
  {
    var last := p.items[|p.items| - 1];
    assert last in p.items;
    forall x | x in Left(items, p.next) ensures x in Left(items, cursor) {
      if cursor.Some? { BeforeTransitive(cursor.value, At(last), At(x)); }
    }
    SmallerSet(Left(items, p.next), Left(items, cursor), last);
  }
}
