/**
 * Suggestion collection of the analyze route: each seed's suggestion list
 * is tagged with discovery ranks, and all tagged terms are merged into a
 * `Map` keyed by the normalised term in which the best (lowest) rank wins.
 */
module Suggestions {
  import opened Common
  import opened OrderedMaps
  import opened Keys

  /** A term from the suggestion source and its position: 0 is the seed itself. */
  datatype Suggestion = Suggestion(keyword: string, rank: nat)

  /** What the merge stores per normalised key. */
  datatype Candidate = Candidate(original: string, rank: nat)

  type CandidateMap = OrderedMap<string, Candidate>

  /**
   * `fetchGoogleSuggestions`: `reply` is the suggestion list of the
   * response (`data[1] || []`), or None when the request or its parsing failed.
   */
  function Tag(seed: string, reply: Option<seq<string>>): (r: seq<Suggestion>)
    ensures reply.None? ==> r == []
    ensures reply.Some? ==> |r| == |reply.value| + 1 && r[0] == Suggestion(seed, 0)
    ensures reply.Some? ==> forall i :: 1 <= i < |r| ==> r[i] == Suggestion(reply.value[i - 1], i)
  {
    match reply
    case None => []
    case Some(terms) =>
      var all := [seed] + terms;
      seq(|all|, i requires 0 <= i < |all| => Suggestion(all[i], i))
  }

  /** Rank 0 belongs to the seed alone. */
  lemma TagRankZero(seed: string, reply: Option<seq<string>>, s: Suggestion)
    requires s in Tag(seed, reply) && s.rank == 0
    ensures s == Suggestion(seed, 0)
  {
    var tagged := Tag(seed, reply);
    var k :| 0 <= k < |tagged| && tagged[k] == s;
    assert k == 0;
  }

  function Key(s: Suggestion): string {
    Normalize(s.keyword)
  }

  /** One iteration of the merge: insert, or replace only on a strictly better rank. */
  function MergeStep(m: CandidateMap, s: Suggestion): (r: CandidateMap)
    requires m.Valid()
    ensures r.Valid()
  {
    var key := Key(s);
    if key !in m.entries || m.entries[key].rank > s.rank then
      m.Set(key, Candidate(s.keyword, s.rank))
    else
      m
  }

  /** The keys MergeStep adds: the item's own key, at the end, when it was absent. */
  lemma MergeStepKeys(m: CandidateMap, s: Suggestion)
    requires m.Valid()
    ensures MergeStep(m, s).entries.Keys == m.entries.Keys + {Key(s)}
    ensures Key(s) in m.entries ==> MergeStep(m, s).keys == m.keys
    ensures Key(s) !in m.entries ==> MergeStep(m, s).keys == m.keys + [Key(s)]
    ensures forall k :: k != Key(s) && k in m.entries ==> MergeStep(m, s).entries[k] == m.entries[k]
  {
  }

  /** The map after merging `items` in order into an empty map. */
  function Candidates(items: seq<Suggestion>): (r: CandidateMap)
    ensures r.Valid()
  {
    if items == [] then Empty()
    else MergeStep(Candidates(items[..|items| - 1]), items[|items| - 1])
  }

  /** Merging one more item is one more MergeStep. */
  lemma CandidatesSnoc(items: seq<Suggestion>, x: Suggestion)
    ensures Candidates(items + [x]) == MergeStep(Candidates(items), x)
  {
    assert (items + [x])[..|items|] == items;
  }

  /** items[i] has the lowest rank among the items with key k, and is the first item that does. */
  ghost predicate IsFirstBest(items: seq<Suggestion>, k: string, i: int) {
    && 0 <= i < |items|
    && Key(items[i]) == k
    && (forall j :: 0 <= j < |items| && Key(items[j]) == k ==> items[i].rank <= items[j].rank)
    && (forall j :: 0 <= j < i && Key(items[j]) == k ==> items[i].rank < items[j].rank)
  }

  ghost predicate Occurs(items: seq<Suggestion>, k: string) {
    exists i :: 0 <= i < |items| && Key(items[i]) == k
  }

  lemma OccursSnoc(items: seq<Suggestion>, x: Suggestion, k: string)
    ensures Occurs(items + [x], k) <==> Occurs(items, k) || Key(x) == k
  {
    var all := items + [x];
    if Occurs(all, k) {
      var i :| 0 <= i < |all| && Key(all[i]) == k;
      if i < |items| { assert all[i] == items[i]; }
    }
    if Occurs(items, k) {
      var i :| 0 <= i < |items| && Key(items[i]) == k;
      assert all[i] == items[i];
    }
    if Key(x) == k {
      assert all[|items|] == x;
    }
  }

  /** A key is in the map exactly when some merged item normalises to it. */
  lemma {:induction false} CandidateKeys(items: seq<Suggestion>, k: string)
    ensures k in Candidates(items).entries <==> Occurs(items, k)
    decreases |items|
  {
    if items != [] {
      var n := |items| - 1;
      var prev, x := items[..n], items[n];
      assert items == prev + [x];
      CandidateKeys(prev, k);
      CandidatesSnoc(prev, x);
      MergeStepKeys(Candidates(prev), x);
      OccursSnoc(prev, x, k);
    }
  }

  lemma FirstBestSnocOther(items: seq<Suggestion>, x: Suggestion, k: string, i: int)
    requires IsFirstBest(items, k, i) && Key(x) != k
    ensures IsFirstBest(items + [x], k, i)
  {
    var all := items + [x];
    forall j | 0 <= j < |all| && Key(all[j]) == k ensures all[i].rank <= all[j].rank {
      assert j < |items| && all[j] == items[j];
    }
    forall j | 0 <= j < i && Key(all[j]) == k ensures all[i].rank < all[j].rank {
      assert all[j] == items[j];
    }
  }

  lemma FirstBestSnocKeep(items: seq<Suggestion>, x: Suggestion, k: string, i: int)
    requires IsFirstBest(items, k, i) && Key(x) == k && items[i].rank <= x.rank
    ensures IsFirstBest(items + [x], k, i)
  {
    var all := items + [x];
    forall j | 0 <= j < |all| && Key(all[j]) == k ensures all[i].rank <= all[j].rank {
      if j < |items| { assert all[j] == items[j]; }
    }
    forall j | 0 <= j < i && Key(all[j]) == k ensures all[i].rank < all[j].rank {
      assert all[j] == items[j];
    }
  }

  lemma FirstBestSnocNew(items: seq<Suggestion>, x: Suggestion, k: string)
    requires Key(x) == k
    requires forall j :: 0 <= j < |items| && Key(items[j]) == k ==> x.rank < items[j].rank
    ensures IsFirstBest(items + [x], k, |items|)
  {
    var all := items + [x];
    forall j | 0 <= j < |items| ensures all[j] == items[j] { }
  }

  /**
   * Best rank wins: each key maps to the lowest rank seen for it, with the
   * term of the first item that reached that rank (a tie keeps the earlier one).
   */
  lemma {:induction false} CandidateBest(items: seq<Suggestion>, k: string)
    requires k in Candidates(items).entries
    ensures exists i :: IsFirstBest(items, k, i) && Candidates(items).entries[k] == Candidate(items[i].keyword, items[i].rank)
    decreases |items|
  {
    var n := |items| - 1;
    var prev, x := items[..n], items[n];
    assert items == prev + [x];
    var m := Candidates(prev);
    CandidatesSnoc(prev, x);
    MergeStepKeys(m, x);
    if Key(x) != k {
      CandidateBest(prev, k);
      var i :| IsFirstBest(prev, k, i) && m.entries[k] == Candidate(prev[i].keyword, prev[i].rank);
      FirstBestSnocOther(prev, x, k, i);
      assert items[i] == prev[i];
    } else if k !in m.entries {
      CandidateKeys(prev, k);
      FirstBestSnocNew(prev, x, k);
    } else if m.entries[k].rank > x.rank {
      CandidateBest(prev, k);
      var i :| IsFirstBest(prev, k, i) && m.entries[k] == Candidate(prev[i].keyword, prev[i].rank);
      FirstBestSnocNew(prev, x, k);
    } else {
      CandidateBest(prev, k);
      var i :| IsFirstBest(prev, k, i) && m.entries[k] == Candidate(prev[i].keyword, prev[i].rank);
      FirstBestSnocKeep(prev, x, k, i);
      assert items[i] == prev[i];
    }
  }

  ghost predicate IsPrefix<T>(a: seq<T>, b: seq<T>) {
    |a| <= |b| && b[..|a|] == a
  }

  lemma PrefixTransitive<T>(a: seq<T>, b: seq<T>, c: seq<T>)
    requires IsPrefix(a, b) && IsPrefix(b, c)
    ensures IsPrefix(a, c)
  {
    assert c[..|a|] == c[..|b|][..|a|];
  }

  lemma MergeStepPrefix(m: CandidateMap, x: Suggestion)
    requires m.Valid()
    ensures IsPrefix(m.keys, MergeStep(m, x).keys)
  {
    MergeStepKeys(m, x);
  }

  /** Keys are never removed or moved: merging more items only appends keys. */
  lemma {:induction false} CandidateKeysGrow(a: seq<Suggestion>, b: seq<Suggestion>)
    ensures IsPrefix(Candidates(a).keys, Candidates(a + b).keys)
    decreases |b|
  {
    if b == [] {
      assert a + b == a;
    } else {
      var n := |b| - 1;
      CandidateKeysGrow(a, b[..n]);
      assert a + b == (a + b[..n]) + [b[n]];
      CandidatesSnoc(a + b[..n], b[n]);
      MergeStepPrefix(Candidates(a + b[..n]), b[n]);
      PrefixTransitive(Candidates(a).keys, Candidates(a + b[..n]).keys, Candidates(a + b).keys);
    }
  }

  /** keys[p] occurs among the items before any occurrence of k. */
  ghost predicate OccursBefore(items: seq<Suggestion>, first: string, k: string) {
    exists i :: 0 <= i < |items| && Key(items[i]) == first && forall j :: 0 <= j <= i ==> Key(items[j]) != k
  }

  lemma OccursBeforeSnoc(items: seq<Suggestion>, x: Suggestion, first: string, k: string)
    requires OccursBefore(items, first, k)
    ensures OccursBefore(items + [x], first, k)
  {
    var all := items + [x];
    var i :| 0 <= i < |items| && Key(items[i]) == first && forall j :: 0 <= j <= i ==> Key(items[j]) != k;
    assert all[i] == items[i];
    forall j | 0 <= j <= i ensures Key(all[j]) != k {
      assert all[j] == items[j];
    }
  }

  lemma OccursBeforeNew(items: seq<Suggestion>, x: Suggestion, first: string)
    requires Occurs(items, first) && !Occurs(items, Key(x))
    ensures OccursBefore(items + [x], first, Key(x))
  {
    var all := items + [x];
    var i :| 0 <= i < |items| && Key(items[i]) == first;
    assert all[i] == items[i];
    forall j | 0 <= j <= i ensures Key(all[j]) != Key(x) {
      assert all[j] == items[j];
    }
  }

  /**
   * A key's position is that of its first insertion: of two keys, the
   * earlier one occurs among the items before any occurrence of the later one.
   */
  lemma {:induction false} CandidateOrder(items: seq<Suggestion>, p: int, q: int)
    requires 0 <= p < q < |Candidates(items).keys|
    ensures OccursBefore(items, Candidates(items).keys[p], Candidates(items).keys[q])
    decreases |items|
  {
    var n := |items| - 1;
    var prev, x := items[..n], items[n];
    assert items == prev + [x];
    var before := Candidates(prev);
    CandidatesSnoc(prev, x);
    MergeStepKeys(before, x);
    var keys := Candidates(items).keys;
    if q < |before.keys| {
      CandidateOrder(prev, p, q);
      assert keys[p] == before.keys[p] && keys[q] == before.keys[q];
      OccursBeforeSnoc(prev, x, keys[p], keys[q]);
    } else {
      // keys[q] was appended by the last item, so no earlier item has that key
      assert keys[q] == Key(x) && Key(x) !in before.entries;
      CandidateKeys(prev, Key(x));
      assert keys[p] == before.keys[p] && keys[p] in before.entries;
      CandidateKeys(prev, keys[p]);
      OccursBeforeNew(prev, x, keys[p]);
    }
  }
}
