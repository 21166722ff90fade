/**
 * The last stage of the analyze route: rows are deduplicated by their
 * literal keyword through a `Map` (a later row replaces the value but the
 * keyword keeps its first position), then sorted in place, stably, by
 * descending score.
 */
module Results {
  import opened OrderedMaps
  import opened Metrics

  /** `new Map(rows.map((item) => [item.keyword, item]))` */
  function ByKeyword(rows: seq<Row>): (r: OrderedMap<string, Row>)
    ensures r.Valid()
  {
    if rows == [] then Empty()
    else ByKeyword(rows[..|rows| - 1]).Set(rows[|rows| - 1].keyword, rows[|rows| - 1])
  }

  /** `Array.from(new Map(...).values())` */
  function Dedup(rows: seq<Row>): seq<Row> {
    ByKeyword(rows).Values()
  }

  lemma ByKeywordSnoc(rows: seq<Row>, x: Row)
    ensures ByKeyword(rows + [x]) == ByKeyword(rows).Set(x.keyword, x)
  {
    assert (rows + [x])[..|rows|] == rows;
  }

  /** rows[i] is the last row with its keyword. */
  ghost predicate IsLastOf(rows: seq<Row>, i: int) {
    0 <= i < |rows| && forall j :: i < j < |rows| ==> rows[j].keyword != rows[i].keyword
  }

  ghost predicate HasKeyword(rows: seq<Row>, k: string) {
    exists i :: 0 <= i < |rows| && rows[i].keyword == k
  }

  lemma HasKeywordSnoc(rows: seq<Row>, x: Row, k: string)
    ensures HasKeyword(rows + [x], k) <==> HasKeyword(rows, k) || x.keyword == k
  {
    var all := rows + [x];
    if HasKeyword(all, k) {
      var i :| 0 <= i < |all| && all[i].keyword == k;
      if i < |rows| { assert all[i] == rows[i]; }
    }
    if HasKeyword(rows, k) {
      var i :| 0 <= i < |rows| && rows[i].keyword == k;
      assert all[i] == rows[i];
    }
    if x.keyword == k {
      assert all[|rows|] == x;
    }
  }

  /** The map holds each keyword that occurs, with the last row pushed for it. */
  lemma {:induction false} ByKeywordEntries(rows: seq<Row>, k: string)
    ensures k in ByKeyword(rows).entries <==> HasKeyword(rows, k)
    ensures k in ByKeyword(rows).entries ==>
      exists i :: IsLastOf(rows, i) && rows[i] == ByKeyword(rows).entries[k] && rows[i].keyword == k
    decreases |rows|
  {
    if rows != [] {
      var n := |rows| - 1;
      var prev, x := rows[..n], rows[n];
      assert rows == prev + [x];
      ByKeywordEntries(prev, k);
      ByKeywordSnoc(prev, x);
      HasKeywordSnoc(prev, x, k);
      if x.keyword == k {
        assert IsLastOf(rows, n);
      } else if k in ByKeyword(rows).entries {
        var i :| IsLastOf(prev, i) && prev[i] == ByKeyword(prev).entries[k] && prev[i].keyword == k;
        assert rows[i] == prev[i];
        assert IsLastOf(rows, i);
      }
    }
  }

  /** After dedup no keyword appears twice. */
  lemma DedupUnique(rows: seq<Row>)
    ensures forall i, j :: 0 <= i < j < |Dedup(rows)| ==> Dedup(rows)[i].keyword != Dedup(rows)[j].keyword
  {
    var m := ByKeyword(rows);
    forall k | k in m.entries ensures m.entries[k].keyword == k {
      ByKeywordEntries(rows, k);
    }
  }

  /** Dedup keeps exactly the keywords that occur, each with the last row pushed for it. */
  lemma DedupContents(rows: seq<Row>)
    ensures forall k :: HasKeyword(Dedup(rows), k) <==> HasKeyword(rows, k)
    ensures forall r :: r in Dedup(rows) ==> exists i :: IsLastOf(rows, i) && rows[i] == r
  {
    var m := ByKeyword(rows);
    var d := Dedup(rows);
    forall k ensures HasKeyword(d, k) <==> HasKeyword(rows, k) {
      ByKeywordEntries(rows, k);
      if HasKeyword(d, k) {
        var p :| 0 <= p < |d| && d[p].keyword == k;
        ByKeywordEntries(rows, m.keys[p]);
      }
      if HasKeyword(rows, k) {
        var i :| IsLastOf(rows, i) && rows[i] == m.entries[k] && rows[i].keyword == k;
        var p :| 0 <= p < |m.keys| && m.keys[p] == k;
        assert d[p].keyword == k;
      }
    }
    forall r | r in d ensures exists i :: IsLastOf(rows, i) && rows[i] == r {
      var p :| 0 <= p < |d| && d[p] == r;
      ByKeywordEntries(rows, m.keys[p]);
    }
  }

  /** A row with keyword `first` comes before any row with keyword k. */
  ghost predicate ComesBefore(rows: seq<Row>, first: string, k: string) {
    exists i :: 0 <= i < |rows| && rows[i].keyword == first && forall j :: 0 <= j <= i ==> rows[j].keyword != k
  }

  lemma ComesBeforeSnoc(rows: seq<Row>, x: Row, first: string, k: string)
    requires ComesBefore(rows, first, k)
    ensures ComesBefore(rows + [x], first, k)
  {
    var all := rows + [x];
    var i :| 0 <= i < |rows| && rows[i].keyword == first && forall j :: 0 <= j <= i ==> rows[j].keyword != k;
    assert all[i] == rows[i];
    forall j | 0 <= j <= i ensures all[j].keyword != k {
      assert all[j] == rows[j];
    }
  }

  lemma ComesBeforeNew(rows: seq<Row>, x: Row, first: string)
    requires HasKeyword(rows, first) && !HasKeyword(rows, x.keyword)
    ensures ComesBefore(rows + [x], first, x.keyword)
  {
    var all := rows + [x];
    var i :| 0 <= i < |rows| && rows[i].keyword == first;
    assert all[i] == rows[i];
    forall j | 0 <= j <= i ensures all[j].keyword != x.keyword {
      assert all[j] == rows[j];
    }
  }

  /** A keyword keeps the position of its first row: of two deduplicated rows, the earlier one's keyword was pushed first. */
  lemma {:induction false} DedupOrder(rows: seq<Row>, p: int, q: int)
    requires 0 <= p < q < |Dedup(rows)|
    ensures ComesBefore(rows, Dedup(rows)[p].keyword, Dedup(rows)[q].keyword)
    decreases |rows|
  {
    var n := |rows| - 1;
    var prev, x := rows[..n], rows[n];
    assert rows == prev + [x];
    var before := ByKeyword(prev);
    var m := ByKeyword(rows);
    ByKeywordSnoc(prev, x);
    ByKeywordEntries(rows, m.keys[p]);
    ByKeywordEntries(rows, m.keys[q]);
    assert Dedup(rows)[p].keyword == m.keys[p] && Dedup(rows)[q].keyword == m.keys[q];
    if q < |before.keys| {
      DedupOrder(prev, p, q);
      ByKeywordEntries(prev, before.keys[p]);
      ByKeywordEntries(prev, before.keys[q]);
      assert Dedup(prev)[p].keyword == m.keys[p] && Dedup(prev)[q].keyword == m.keys[q];
      ComesBeforeSnoc(prev, x, m.keys[p], m.keys[q]);
    } else {
      // the keyword at q was first pushed by the last row
      assert m.keys[q] == x.keyword && x.keyword !in before.entries;
      ByKeywordEntries(prev, x.keyword);
      assert m.keys[p] == before.keys[p] && m.keys[p] in before.entries;
      ByKeywordEntries(prev, m.keys[p]);
      ComesBeforeNew(prev, x, m.keys[p]);
    }
  }

  /** Non-increasing by score. */
  ghost predicate SortedDesc(s: seq<Row>) {
    forall i, j :: 0 <= i < j < |s| ==> s[i].score >= s[j].score
  }

  /** Insert x after every element whose score is at least x's. */
  function Insert(s: seq<Row>, x: Row): (r: seq<Row>)
    ensures |r| == |s| + 1
  {
    if s == [] then [x]
    else if s[|s| - 1].score >= x.score then s + [x]
    else Insert(s[..|s| - 1], x) + [s[|s| - 1]]
  }

  /** A stable sort by descending score (what `sort((a, b) => b.score - a.score)` yields). */
  function SortDesc(s: seq<Row>): (r: seq<Row>)
    ensures |r| == |s|
  {
    if s == [] then [] else Insert(SortDesc(s[..|s| - 1]), s[|s| - 1])
  }

  /** The rows with score v, in order. */
  function WithScore(s: seq<Row>, v: int): seq<Row> {
    if s == [] then []
    else WithScore(s[..|s| - 1], v) + (if s[|s| - 1].score == v then [s[|s| - 1]] else [])
  }

  lemma {:induction false} InsertElements(s: seq<Row>, x: Row)
    ensures multiset(Insert(s, x)) == multiset(s) + multiset{x}
    ensures forall y :: y in Insert(s, x) <==> y in s || y == x
    decreases |s|
  {
    if s != [] && s[|s| - 1].score < x.score {
      var n := |s| - 1;
      InsertElements(s[..n], x);
      assert s == s[..n] + [s[n]];
    }
  }

  lemma {:induction false} InsertSortedDesc(s: seq<Row>, x: Row)
    requires SortedDesc(s)
    ensures SortedDesc(Insert(s, x))
    decreases |s|
  {
    if s != [] && s[|s| - 1].score < x.score {
      var n := |s| - 1;
      var prev, last := s[..n], s[n];
      InsertSortedDesc(prev, x);
      InsertElements(prev, x);
      var ins := Insert(prev, x);
      forall i | 0 <= i < |ins| ensures ins[i].score >= last.score {
        assert ins[i] in ins;
        if ins[i] != x {
          var k :| 0 <= k < n && prev[k] == ins[i];
          assert prev[k] == s[k];
        }
      }
    }
  }

  lemma WithScoreSnoc(s: seq<Row>, x: Row, v: int)
    ensures WithScore(s + [x], v) == WithScore(s, v) + (if x.score == v then [x] else [])
  {
    assert (s + [x])[..|s|] == s;
  }

  lemma {:induction false} InsertStable(s: seq<Row>, x: Row, v: int)
    ensures WithScore(Insert(s, x), v) == WithScore(s, v) + (if x.score == v then [x] else [])
    decreases |s|
  {
    if s == [] {
      WithScoreSnoc([], x, v);
    } else if s[|s| - 1].score >= x.score {
      WithScoreSnoc(s, x, v);
    } else {
      var n := |s| - 1;
      var prev, last := s[..n], s[n];
      assert s == prev + [last];
      InsertStable(prev, x, v);
      var ins := Insert(prev, x);
      assert Insert(s, x) == ins + [last];
      WithScoreSnoc(ins, last, v);
      WithScoreSnoc(prev, last, v);
      assert x.score != last.score;
    }
  }

  /**
   * SortDesc is a stable sort: non-increasing by score, a permutation, and
   * the rows of any one score keep their relative order.
   */
  lemma {:induction false} SortDescCorrect(s: seq<Row>)
    ensures SortedDesc(SortDesc(s))
    ensures multiset(SortDesc(s)) == multiset(s)
    ensures forall v :: WithScore(SortDesc(s), v) == WithScore(s, v)
    decreases |s|
  {
    if s != [] {
      var n := |s| - 1;
      assert s == s[..n] + [s[n]];
      SortDescCorrect(s[..n]);
      InsertSortedDesc(SortDesc(s[..n]), s[n]);
      InsertElements(SortDesc(s[..n]), s[n]);
      forall v ensures WithScore(SortDesc(s), v) == WithScore(s, v) {
        InsertStable(SortDesc(s[..n]), s[n], v);
        WithScoreSnoc(s[..n], s[n], v);
      }
    }
  }

  /** Where insertion sort's inner loop stops: after every element scoring at least x. */
  lemma {:induction false} InsertAt(s: seq<Row>, x: Row, j: nat)
    requires j <= |s|
    requires forall k :: j <= k < |s| ==> s[k].score < x.score
    requires j > 0 ==> s[j - 1].score >= x.score
    ensures Insert(s, x) == s[..j] + [x] + s[j..]
    decreases |s|
  {
    if s != [] && j < |s| {
      var n := |s| - 1;
      InsertAt(s[..n], x, j);
      assert s[..n][..j] == s[..j];
      assert s[..n][j..] + [s[n]] == s[j..];
    }
  }

  lemma SortDescSnoc(s: seq<Row>, x: Row)
    ensures SortDesc(s + [x]) == Insert(SortDesc(s), x)
  {
    assert (s + [x])[..|s|] == s;
  }

  /** The array contents after the inner loop: the sorted prefix with x placed at j. */
  lemma ShiftedInsert(arr: seq<Row>, sorted: seq<Row>, x: Row, i: nat, j: nat)
    requires j <= i < |arr| && |sorted| == i
    requires forall k :: 0 <= k < j ==> arr[k] == sorted[k]
    requires arr[j] == x
    requires forall k :: j < k <= i ==> arr[k] == sorted[k - 1]
    ensures arr[..i + 1] == sorted[..j] + [x] + sorted[j..]
  {
    var result := sorted[..j] + [x] + sorted[j..];
    forall k | 0 <= k <= i ensures arr[k] == result[k] {
      if k < j {
        assert result[k] == sorted[k];
      } else if j < k {
        assert result[k] == sorted[k - 1];
      }
    }
  }

  /** One pass of insertion sort: moves a[i] back past every element of a[..i] scoring less. */
  method InsertLast(a: array<Row>, i: nat)
    requires i < a.Length
    modifies a
    ensures a[..i + 1] == Insert(old(a[..i]), old(a[i]))
    ensures forall k :: i < k < a.Length ==> a[k] == old(a[k])
  {
    var x := a[i];
    ghost var sorted := a[..i];
    var j := i;
    while j > 0 && a[j - 1].score < x.score
      invariant 0 <= j <= i
      invariant forall k :: 0 <= k < j ==> a[k] == sorted[k]
      invariant forall k :: j < k <= i ==> a[k] == sorted[k - 1]
      invariant forall k :: i < k < a.Length ==> a[k] == old(a[k])
      invariant forall k :: j <= k < i ==> sorted[k].score < x.score
    {
      a[j] := a[j - 1];
      j := j - 1;
    }
    a[j] := x;
    InsertAt(sorted, x, j);
    ShiftedInsert(a[..], sorted, x, i, j);
  }

  /** `uniqueData.sort((a, b) => b.score - a.score)`, as an insertion sort in place. */
  method SortByScore(a: array<Row>)
    modifies a
    ensures a[..] == SortDesc(old(a[..]))
  {
    ghost var input := a[..];
    var i := 0;
    while i < a.Length
      invariant 0 <= i <= a.Length
      invariant a[..i] == SortDesc(input[..i])
      invariant forall k :: i <= k < a.Length ==> a[k] == input[k]
    {
      InsertLast(a, i);
      SortDescSnoc(input[..i], input[i]);
      assert input[..i + 1] == input[..i] + [input[i]];
      i := i + 1;
    }
    assert input[..a.Length] == input;
  }

  /** Deduplicating and then sorting only keeps rows of the input. */
  lemma RankedFrom(rows: seq<Row>, r: Row)
    requires r in SortDesc(Dedup(rows))
    ensures r in rows
  {
    SortDescCorrect(Dedup(rows));
    assert r in multiset(Dedup(rows));
    assert r in Dedup(rows);
    DedupContents(rows);
    var i :| IsLastOf(rows, i) && rows[i] == r;
  }

  /** Deduplicating and then sorting gives a list ranked by score that holds each keyword once. */
  lemma RankedUnique(rows: seq<Row>)
    ensures SortedDesc(SortDesc(Dedup(rows)))
    ensures var ranked := SortDesc(Dedup(rows));
      forall i, j :: 0 <= i < j < |ranked| ==> ranked[i].keyword != ranked[j].keyword
  {
    var unique := Dedup(rows);
    var ranked := SortDesc(unique);
    SortDescCorrect(unique);
    DedupUnique(rows);
    forall i, j | 0 <= i < j < |ranked| ensures ranked[i].keyword != ranked[j].keyword {
      assert ranked[i] in multiset(unique) && ranked[j] in multiset(unique);
      var p :| 0 <= p < |unique| && unique[p] == ranked[i];
      var q :| 0 <= q < |unique| && unique[q] == ranked[j];
      AtMostOnce(unique, ranked[i]);
      CountedTwice(ranked, i, j);
    }
  }

  /** A row occurs at most once in a sequence whose rows have distinct keywords. */
  lemma {:induction false} AtMostOnce(rows: seq<Row>, x: Row)
    requires forall p, q :: 0 <= p < q < |rows| ==> rows[p].keyword != rows[q].keyword
    ensures multiset(rows)[x] <= 1
    decreases |rows|
  {
    if rows != [] {
      var n := |rows| - 1;
      assert rows == rows[..n] + [rows[n]];
      AtMostOnce(rows[..n], x);
      if x == rows[n] {
        assert x !in rows[..n];
      }
    }
  }

  /** A row found at two positions is counted twice. */
  lemma CountedTwice(rows: seq<Row>, i: int, j: int)
    requires 0 <= i < j < |rows|
    ensures rows[i] == rows[j] ==> multiset(rows)[rows[i]] >= 2
  {
    assert rows == rows[..i] + [rows[i]] + rows[i + 1..j] + [rows[j]] + rows[j + 1..];
  }

}
