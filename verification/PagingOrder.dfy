/** Rows created at the same time: exactly when a listing has one order only, and exactly when reading
    an unchanging table page after page cannot skip a row. */
module PagingOrder {
  import opened Tables
  import opened Paging

  // ---------- Listings of the same rows ----------

  /** The rows of a listing created at some time or later. */
  function Newer(s: seq<Row>, at: int): seq<Row> {
    if s == [] then [] else (if s[0].createdAt >= at then [s[0]] else []) + Newer(s[1..], at)
  }

  lemma {:induction false} NewerCounts(s: seq<Row>, at: int, r: Row)
    ensures multiset(Newer(s, at))[r] == if r.createdAt >= at then multiset(s)[r] else 0
  {
    if s != [] {
      NewerCounts(s[1..], at, r);
      FrontRow(s);
      var head, rest := if s[0].createdAt >= at then [s[0]] else [], Newer(s[1..], at);
      assert multiset(head + rest) == multiset(head) + multiset(rest);
    }
  }

  lemma {:induction false} NothingNewer(s: seq<Row>, at: int)
    requires forall i :: 0 <= i < |s| ==> s[i].createdAt < at
    ensures Newer(s, at) == []
  {
    if s != [] { NothingNewer(s[1..], at); }
  }

  /** They stand at its front. */
  lemma {:induction false} NewerIsFront(s: seq<Row>, at: int)
    requires NewestFirst(s)
    ensures |Newer(s, at)| <= |s| && Newer(s, at) == s[..|Newer(s, at)|]
    ensures forall i :: 0 <= i < |s| ==> (s[i].createdAt >= at <==> i < |Newer(s, at)|)
  {
    if s != [] {
      var rest := s[1..];
      NewerIsFront(rest, at);
      assert forall i :: 1 <= i < |s| ==> s[i] == rest[i - 1];
      if s[0].createdAt < at {
        NothingNewer(rest, at);
      } else {
        assert s[..|Newer(rest, at)| + 1] == [s[0]] + rest[..|Newer(rest, at)|];
      }
    }
  }

  /** The creation times fall strictly from one side of a position to the other. */
  predicate Falls(s: seq<Row>, c: nat) { 0 < c < |s| ==> s[c - 1].createdAt > s[c].createdAt }

  /** There, two listings of the same rows have the same rows in front. */
  lemma TopAgree(s: seq<Row>, t: seq<Row>, c: nat)
    requires NewestFirst(s) && NewestFirst(t) && multiset(s) == multiset(t) && c <= |s| && Falls(s, c)
    ensures |t| == |s| && multiset(t[..c]) == multiset(s[..c])
  {
    SameLength(s, t);
    if c == |s| {
      assert s[..c] == s && t[..c] == t;
    } else if c > 0 {
      var at := s[c - 1].createdAt;
      NewerIsFront(s, at);
      NewerIsFront(t, at);
      assert |Newer(s, at)| == c;
      forall r: Row ensures multiset(Newer(s, at))[r] == multiset(Newer(t, at))[r] {
        NewerCounts(s, at, r);
        NewerCounts(t, at, r);
      }
      assert multiset(Newer(s, at)) == multiset(Newer(t, at));
      SameLength(Newer(s, at), Newer(t, at));
    }
  }

  lemma SliceAgree(s: seq<Row>, t: seq<Row>, a: nat, b: nat)
    requires NewestFirst(s) && NewestFirst(t) && multiset(s) == multiset(t) && a <= b <= |s| && Falls(s, a)
    requires Falls(s, b)
    ensures |t| == |s| && multiset(t[a..b]) == multiset(s[a..b])
  {
    TopAgree(s, t, a);
    TopAgree(s, t, b);
    SplitRows(s, a, b);
    SplitRows(t, a, b);
  }

  lemma SplitRows(s: seq<Row>, a: nat, b: nat)
    requires a <= b <= |s|
    ensures multiset(s[a..b]) == multiset(s[..b]) - multiset(s[..a])
  {
    assert s[..b] == s[..a] + s[a..b];
  }

  /** A listing with two neighbours of the same time exchanged. */
  function Swapped(s: seq<Row>, c: nat): (t: seq<Row>)
    requires 0 < c < |s|
    ensures |t| == |s|
  {
    s[c - 1 := s[c]][c := s[c - 1]]
  }

  lemma SwapIsListing(s: seq<Row>, c: nat)
    requires 0 < c < |s| && NewestFirst(s) && s[c - 1].createdAt == s[c].createdAt
    ensures IsListing(s, Swapped(s, c))
  {
    var t := Swapped(s, c);
    assert forall i :: 0 <= i < |s| ==> t[i].createdAt == s[i].createdAt;
    assert s == s[..c - 1] + [s[c - 1]] + [s[c]] + s[c + 1..];
    assert t == s[..c - 1] + [s[c]] + [s[c - 1]] + s[c + 1..];
  }

  // ---------- No row twice ----------

  predicate DistinctIds(s: seq<Row>) { forall i, k :: 0 <= i < k < |s| ==> s[i].id != s[k].id }

  lemma TwiceCounted(s: seq<Row>, i: nat, k: nat)
    requires i < k < |s| && s[i] == s[k]
    ensures multiset(s)[s[i]] >= 2
  {
    assert s == s[..k] + s[k..];
    assert s[..k][i] == s[i] && s[k..][0] == s[i];
    assert s[i] in s[..k] && s[i] in s[k..];
    assert multiset(s) == multiset(s[..k]) + multiset(s[k..]);
  }

  lemma {:induction false} CountedOnce(s: seq<Row>, r: Row)
    requires DistinctIds(s)
    ensures multiset(s)[r] <= 1
  {
    if s != [] {
      FrontRow(s);
      CountedOnce(s[1..], r);
      if r == s[0] { assert r !in s[1..]; }
    }
  }

  /** Where a row stands in a listing. */
  lemma PlaceOf(rows: seq<Row>, s: seq<Row>, i: nat) returns (j: nat)
    requires multiset(s) == multiset(rows) && i < |rows|
    ensures j < |s| && s[j] == rows[i]
  {
    assert rows[i] in multiset(rows);
    assert rows[i] in s;
    j :| 0 <= j < |s| && s[j] == rows[i];
  }

  lemma ListedOnce(rows: seq<Row>, s: seq<Row>)
    requires DistinctIds(rows) && multiset(s) == multiset(rows)
    ensures DistinctIds(s)
  {
    forall i, k | 0 <= i < k < |s| ensures s[i].id != s[k].id {
      var a := PlaceOf(s, rows, i);
      var b := PlaceOf(s, rows, k);
      if a == b {
        TwiceCounted(s, i, k);
        CountedOnce(rows, s[i]);
      }
    }
  }

  // ---------- One order ----------

  predicate Tied(s: seq<Row>) { exists i, k :: 0 <= i < k < |s| && s[i].createdAt == s[k].createdAt }

  ghost predicate OneOrderOnly(rows: seq<Row>) { forall s, t :: IsListing(rows, s) && IsListing(rows, t) ==> s == t }

  lemma TiedListing(rows: seq<Row>, s: seq<Row>)
    requires DistinctIds(rows) && multiset(s) == multiset(rows) && Tied(rows)
    ensures Tied(s)
  {
    var i, k :| 0 <= i < k < |rows| && rows[i].createdAt == rows[k].createdAt;
    var a := PlaceOf(rows, s, i);
    var b := PlaceOf(rows, s, k);
    assert rows[i].id != rows[k].id;
    assert 0 <= (if a < b then a else b) < (if a < b then b else a) < |s|;
  }

  /** In a listing, a tie is one between neighbours. */
  lemma NeighboursTie(s: seq<Row>) returns (c: nat)
    requires NewestFirst(s) && Tied(s)
    ensures 0 < c < |s| && s[c - 1].createdAt == s[c].createdAt
  {
    var i, k :| 0 <= i < k < |s| && s[i].createdAt == s[k].createdAt;
    c := i + 1;
    assert s[i].createdAt >= s[c].createdAt;
    if c < k { assert s[c].createdAt >= s[k].createdAt; }
  }

  lemma UntiedSame(s: seq<Row>, t: seq<Row>)
    requires NewestFirst(s) && NewestFirst(t) && multiset(s) == multiset(t) && !Tied(s)
    ensures s == t
  {
    SameLength(s, t);
    forall i | 0 <= i < |s| ensures s[i] == t[i] {
      SliceAgree(s, t, i, i + 1);
      assert s[i..i + 1] == [s[i]] && t[i..i + 1] == [t[i]];
      assert t[i] in multiset(s[i..i + 1]);
    }
  }

  /** The order of a listing is fixed if and only if no two rows were created at the same time. */
  lemma OneOrder(rows: seq<Row>)
    requires DistinctIds(rows)
    ensures OneOrderOnly(rows) <==> !Tied(rows)
  {
    var s := Newest(rows);
    NewestIsListing(rows);
    ListedOnce(rows, s);
    if Tied(rows) {
      TiedListing(rows, s);
      var c := NeighboursTie(s);
      SwapIsListing(s, c);
      assert Swapped(s, c)[c] == s[c - 1] && s[c - 1].id != s[c].id;
      assert IsListing(rows, Swapped(s, c));
    } else {
      forall t, u | IsListing(rows, t) && IsListing(rows, u) ensures t == u {
        ListedOnce(rows, t);
        if Tied(t) { TiedListing(t, rows); }
        UntiedSame(t, u);
      }
    }
  }

  // ---------- An unchanging table, page after page ----------

  /** All pages of one table, up to the first short one. */
  ghost predicate ReadingOf(rows: seq<Row>, limit: nat, offsets: seq<nat>, pages: seq<seq<Row>>) {
    && Stepped(limit, offsets) && Small(limit, offsets) && |offsets| == |pages|
    && (forall k :: 0 <= k < |pages| ==> ReadAt(limit, rows, offsets[k], pages[k]))
    && |pages[|pages| - 1]| < limit
  }

  ghost predicate Complete(rows: seq<Row>, pages: seq<seq<Row>>) {
    forall i :: 0 <= i < |rows| ==> Returned(rows[i], pages)
  }

  ghost predicate AlwaysComplete(rows: seq<Row>, limit: nat) {
    forall offsets, pages :: ReadingOf(rows, limit, offsets, pages) ==> Complete(rows, pages)
  }

  /** The last row of some full page and the first of the next were created at the same time. */
  predicate TieAcrossPages(s: seq<Row>, limit: nat)
    requires limit > 0
  {
    exists c :: 0 < c < |s| && c % limit == 0 && s[c - 1].createdAt == s[c].createdAt
  }

  lemma NextMultiple(x: nat, limit: nat)
    requires limit > 0
    ensures (x + limit) % limit == x % limit
  {
    Whole(x, limit);
    OneRemainder(x + limit, limit, x / limit + 1, x % limit);
  }

  lemma Whole(x: nat, limit: nat)
    requires limit > 0
    ensures x == (x / limit) * limit + x % limit
  {
  }

  lemma OneRemainder(x: nat, limit: nat, q: nat, r: nat)
    requires r < limit && x == q * limit + r
    ensures x % limit == r
  {
    var p := x / limit;
    Whole(x, limit);
    if p > q { MorePages(q, p, limit); } else if p < q { MorePages(p, q, limit); }
  }

  lemma MorePages(p: nat, q: nat, limit: nat)
    requires p < q
    ensures q * limit >= p * limit + limit
  {
    assert q * limit == (q - 1) * limit + limit;
    assert (q - 1) * limit >= p * limit;
  }

  lemma {:induction false} OffsetMultiple(limit: nat, offsets: seq<nat>, k: nat)
    requires Stepped(limit, offsets) && limit > 0 && k < |offsets|
    ensures offsets[k] % limit == 0
  {
    if k > 0 {
      OffsetMultiple(limit, offsets, k - 1);
      NextMultiple(offsets[k - 1], limit);
    }
  }

  /** The page a position falls in. */
  lemma {:induction false} PageWith(limit: nat, offsets: seq<nat>, j: nat, last: nat) returns (k: nat)
    requires Stepped(limit, offsets) && last < |offsets| && j < offsets[last] + limit
    ensures k <= last && offsets[k] <= j < offsets[k] + limit
    decreases last
  {
    if offsets[last] <= j { k := last; } else { k := PageWith(limit, offsets, j, last - 1); }
  }

  /** A page with no tie at either end shows the rows at its place, whatever order it was read in. */
  lemma ShownThere(s: seq<Row>, rows: seq<Row>, limit: nat, offset: nat, page: seq<Row>, j: nat)
    requires limit > 0 && IsListing(rows, s) && PageOf(rows, limit, offset, page) && offset % limit == 0
    requires !TieAcrossPages(s, limit) && offset <= j < offset + limit && j < |s|
    ensures s[j] in page
  {
    var t :| IsListing(rows, t) && page == Page(t, limit, offset);
    var end := if offset + limit < |s| then offset + limit else |s|;
    NextMultiple(offset, limit);
    assert Falls(s, offset) && Falls(s, end);
    SliceAgree(s, t, offset, end);
    assert page == t[offset..end];
    assert s[offset..end][j - offset] == s[j];
    assert s[j] in multiset(s[offset..end]);
  }

  lemma NoTieComplete(rows: seq<Row>, limit: nat, offsets: seq<nat>, pages: seq<seq<Row>>)
    requires limit > 0 && !TieAcrossPages(Newest(rows), limit) && ReadingOf(rows, limit, offsets, pages)
    ensures Complete(rows, pages)
  {
    var s, m := Newest(rows), |pages| - 1;
    NewestIsListing(rows);
    SameLength(rows, s);
    assert ReadAt(limit, rows, offsets[m], pages[m]);
    PageLength(rows, limit, offsets[m], pages[m]);
    forall i | 0 <= i < |rows| ensures Returned(rows[i], pages) {
      var j := PlaceOf(rows, s, i);
      var k := PageWith(limit, offsets, j, m);
      OffsetMultiple(limit, offsets, k);
      assert ReadAt(limit, rows, offsets[k], pages[k]);
      ShownThere(s, rows, limit, offsets[k], pages[k], j);
      var n :| 0 <= n < |pages[k]| && pages[k][n] == s[j];
      assert SameIdentity(rows[i], pages[k][n]);
    }
  }

  /** The reading that skips: one page is read with the tied rows the other way round. */
  function Orders(s: seq<Row>, c: nat, offset: nat): seq<Row>
    requires 0 < c < |s|
  {
    if offset == c then Swapped(s, c) else s
  }

  lemma SkippedRow(s: seq<Row>, c: nat, limit: nat, offset: nat, n: nat)
    requires limit > 0 && 0 < c < |s| && c % limit == 0 && offset % limit == 0 && DistinctIds(s)
    requires n < |Page(Orders(s, c, offset), limit, offset)|
    ensures !SameIdentity(s[c], Page(Orders(s, c, offset), limit, offset)[n])
  {
    var row := Page(Orders(s, c, offset), limit, offset)[n];
    var at := offset + n;
    assert row == Orders(s, c, offset)[at];
    if offset == c {
      assert at == c ==> row == s[c - 1];
      assert at > c ==> row == s[at];
    } else {
      OtherPage(c, limit, offset, n);
      assert row == s[at] && at != c;
    }
  }

  lemma OtherPage(c: nat, limit: nat, offset: nat, n: nat)
    requires limit > 0 && c % limit == 0 && offset % limit == 0 && c != offset && n < limit
    ensures offset + n != c
  {
    var p, q := c / limit, offset / limit;
    Whole(c, limit);
    Whole(offset, limit);
    if p > q { MorePages(q, p, limit); } else if p < q { MorePages(p, q, limit); }
  }

  function Offsets(limit: nat, n: nat): (os: seq<nat>)
    ensures |os| == n + 1 && Stepped(limit, os)
  {
    if n == 0 then [0] else Offsets(limit, n - 1) + [Offsets(limit, n - 1)[n - 1] + limit]
  }

  lemma {:induction false} LastOffset(limit: nat, n: nat)
    ensures forall k :: 0 <= k <= n ==> Offsets(limit, n)[k] <= Offsets(limit, n)[n] == n * limit
  {
    if n > 0 { LastOffset(limit, n - 1); }
  }

  lemma TieSkips(rows: seq<Row>, limit: nat)
    requires limit > 0 && DistinctIds(rows) && |rows| + limit < 0x8000_0000 && TieAcrossPages(Newest(rows), limit)
    ensures !AlwaysComplete(rows, limit)
  {
    var s := Newest(rows);
    NewestIsListing(rows);
    SameLength(rows, s);
    ListedOnce(rows, s);
    var c :| 0 < c < |s| && c % limit == 0 && s[c - 1].createdAt == s[c].createdAt;
    SwapIsListing(s, c);
    var offsets, pages := TiedReading(rows, s, c, limit);
    var i := PlaceOf(s, rows, c);
    forall k, n | 0 <= k < |pages| && 0 <= n < |pages[k]| ensures !SameIdentity(rows[i], pages[k][n]) {
      OffsetMultiple(limit, offsets, k);
      SkippedRow(s, c, limit, offsets[k], n);
    }
    assert !Returned(rows[i], pages);
  }

  lemma TiedReading(rows: seq<Row>, s: seq<Row>, c: nat, limit: nat) returns (offsets: seq<nat>, pages: seq<seq<Row>>)
    requires limit > 0 && 0 < c < |s| == |rows| && |rows| + limit < 0x8000_0000
    requires IsListing(rows, s) && IsListing(rows, Swapped(s, c))
    ensures ReadingOf(rows, limit, offsets, pages)
    ensures forall k :: 0 <= k < |pages| ==> pages[k] == Page(Orders(s, c, offsets[k]), limit, offsets[k])
  {
    var os := Offsets(limit, |rows| / limit);
    OffsetsFit(limit, |rows|);
    offsets := os;
    pages := seq(|os|, k requires 0 <= k < |os| => Page(Orders(s, c, os[k]), limit, os[k]));
    forall k | 0 <= k < |pages|
      ensures ReadAt(limit, rows, offsets[k], pages[k])
    {
      ReadInOrder(rows, s, c, limit, os[k]);
    }
    LastShort(s, c, limit, os[|os| - 1]);
  }

  lemma OffsetsFit(limit: nat, total: nat)
    requires limit > 0 && total + limit < 0x8000_0000
    ensures var os := Offsets(limit, total / limit); Small(limit, os) && os[|os| - 1] <= total < os[|os| - 1] + limit
  {
    LastOffset(limit, total / limit);
    Whole(total, limit);
  }

  lemma LastShort(s: seq<Row>, c: nat, limit: nat, offset: nat)
    requires 0 < c < |s| && offset <= |s| < offset + limit
    ensures |Page(Orders(s, c, offset), limit, offset)| < limit
  {
  }

  lemma ReadInOrder(rows: seq<Row>, s: seq<Row>, c: nat, limit: nat, offset: nat)
    requires 0 < c < |s| && IsListing(rows, s) && IsListing(rows, Swapped(s, c)) && limit < 0x8000_0000
    requires offset < 0x8000_0000
    ensures ReadAt(limit, rows, offset, Page(Orders(s, c, offset), limit, offset))
  {
    assert IsListing(rows, Orders(s, c, offset));
  }

  /** Reading an unchanging table page after page returns every row, whatever order each page was read
      in, if and only if no two rows at the end of a full page and the start of the next were created
      at the same time. */
  lemma PagesExact(rows: seq<Row>, limit: nat)
    requires limit > 0 && DistinctIds(rows) && |rows| + limit < 0x8000_0000
    ensures AlwaysComplete(rows, limit) <==> !TieAcrossPages(Newest(rows), limit)
  {
    if TieAcrossPages(Newest(rows), limit) {
      TieSkips(rows, limit);
    } else {
      forall offsets, pages | ReadingOf(rows, limit, offsets, pages) ensures Complete(rows, pages) {
        NoTieComplete(rows, limit, offsets, pages);
      }
    }
  }
}
