/**
 * Metric enrichment of the analyze route: the candidates' terms are sent
 * to the metrics source in chunks of five, as one whitespace-stripped,
 * comma-joined hint string per chunk, and every returned record whose
 * normalised term is a candidate key becomes a scored result row.
 */
module Metrics {
  import opened Common
  import opened Text
  import opened Keys
  import opened OrderedMaps
  import opened Suggestions
  import opened Scoring

  /** A monthly query count as the source reports it: a number, or something else (such as "< 10"). */
  datatype Count = Number(n: int) | NotNumber

  /** One record of `keywordList`. */
  datatype MetricRecord = MetricRecord(relKeyword: string, monthlyPcQcCnt: Count, monthlyMobileQcCnt: Count, compIdx: string)

  /** One entry of `finalData`. */
  datatype Row = Row(keyword: string, rank: nat, vol: int, comp: string, score: int)

  const ChunkSize: nat := 5

  /** `Array.from(keywordMap.values()).map((v) => v.original)` */
  function AllKeys(m: CandidateMap): (r: seq<string>)
    requires m.Valid()
    ensures |r| == |m.keys|
    ensures forall i :: 0 <= i < |r| ==> r[i] == m.entries[m.keys[i]].original
  {
    var values := m.Values();
    seq(|values|, i requires 0 <= i < |values| => values[i].original)
  }

  /** `allKeys.slice(i, i + 5)` for i = 0, 5, 10, … while i < |allKeys|. */
  function Chunks(terms: seq<string>): (r: seq<seq<string>>)
    ensures |r| == (|terms| + ChunkSize - 1) / ChunkSize
  {
    seq((|terms| + ChunkSize - 1) / ChunkSize,
        c requires 0 <= c < (|terms| + ChunkSize - 1) / ChunkSize =>
          terms[c * ChunkSize .. Min(c * ChunkSize + ChunkSize, |terms|)])
  }

  /** Every chunk holds between one and five terms. */
  lemma ChunkSizes(terms: seq<string>)
    ensures forall c :: 0 <= c < |Chunks(terms)| ==> 1 <= |Chunks(terms)[c]| <= ChunkSize
  {
  }

  function Flatten(chunks: seq<seq<string>>): seq<string> {
    if chunks == [] then [] else Flatten(chunks[..|chunks| - 1]) + chunks[|chunks| - 1]
  }

  lemma {:induction false} FlattenChunksPrefix(terms: seq<string>, c: nat)
    requires c <= |Chunks(terms)|
    ensures Flatten(Chunks(terms)[..c]) == terms[..Min(c * ChunkSize, |terms|)]
  {
    if c > 0 {
      var cs := Chunks(terms);
      assert cs[..c][..c - 1] == cs[..c - 1];
      FlattenChunksPrefix(terms, c - 1);
      assert terms[..Min(c * ChunkSize, |terms|)]
          == terms[..(c - 1) * ChunkSize] + terms[(c - 1) * ChunkSize .. Min(c * ChunkSize, |terms|)];
    }
  }

  /** Chunking loses, adds and reorders nothing. */
  lemma ChunksFlatten(terms: seq<string>)
    ensures Flatten(Chunks(terms)) == terms
  {
    var cs := Chunks(terms);
    FlattenChunksPrefix(terms, |cs|);
    assert cs[..|cs|] == cs;
  }

  /** `keywords.map((k) => k.replace(/\s+/g, '')).join(',')` */
  function Hint(chunk: seq<string>): string {
    Join(seq(|chunk|, i requires 0 <= i < |chunk| => RemoveWhitespace(chunk[i])), ',')
  }

  /** The hint string carries no whitespace, and splitting it on commas gives back the stripped terms. */
  lemma HintRoundTrip(chunk: seq<string>)
    requires chunk != []
    requires forall k, i :: 0 <= k < |chunk| && 0 <= i < |chunk[k]| ==> chunk[k][i] != ','
    ensures Split(Hint(chunk), {','}) == seq(|chunk|, i requires 0 <= i < |chunk| => RemoveWhitespace(chunk[i]))
  {
    var parts := seq(|chunk|, i requires 0 <= i < |chunk| => RemoveWhitespace(chunk[i]));
    forall k | 0 <= k < |parts| ensures forall i :: 0 <= i < |parts[k]| ==> parts[k][i] != ',' {
      RemoveWhitespaceSubsequence(chunk[k]);
    }
    SplitJoin(parts, ',', {','});
  }

  /** Whatever whitespace removal keeps was already in the string. */
  lemma {:induction false} RemoveWhitespaceSubsequence(s: string)
    ensures forall i :: 0 <= i < |RemoveWhitespace(s)| ==> RemoveWhitespace(s)[i] in s
  {
    if s != [] {
      RemoveWhitespaceSubsequence(s[1..]);
    }
  }

  lemma {:induction false} JoinNoWhitespace(parts: seq<string>, sep: char)
    requires !IsWhitespace(sep)
    requires forall k :: 0 <= k < |parts| ==> NoWhitespace(parts[k])
    ensures NoWhitespace(Join(parts, sep))
  {
    if |parts| > 1 {
      JoinNoWhitespace(parts[1..], sep);
    }
  }

  /** The hint string holds no whitespace. */
  lemma HintNoWhitespace(chunk: seq<string>)
    ensures NoWhitespace(Hint(chunk))
  {
    JoinNoWhitespace(seq(|chunk|, i requires 0 <= i < |chunk| => RemoveWhitespace(chunk[i])), ',');
  }

  /**
   * `fetchNaverMetrics`: an empty chunk makes no request and yields nothing;
   * otherwise the source is asked with the hint string, and a failed
   * request or a missing `keywordList` yields nothing.
   */
  function FetchMetrics(chunk: seq<string>, metrics: string -> Option<seq<MetricRecord>>): seq<MetricRecord> {
    if |chunk| == 0 then []
    else match metrics(Hint(chunk))
      case None => []
      case Some(records) => records
  }

  /** `typeof c === 'number' ? c : 0` */
  function CountValue(c: Count): int {
    match c
    case Number(n) => n
    case NotNumber => 0
  }

  function Volume(rec: MetricRecord): int {
    CountValue(rec.monthlyPcQcCnt) + CountValue(rec.monthlyMobileQcCnt)
  }

  /** The volume is never negative when the numeric counts are not, whatever the non-numeric ones. */
  lemma VolumeNonNegative(rec: MetricRecord)
    requires rec.monthlyPcQcCnt.Number? ==> rec.monthlyPcQcCnt.n >= 0
    requires rec.monthlyMobileQcCnt.Number? ==> rec.monthlyMobileQcCnt.n >= 0
    ensures Volume(rec) >= 0
    ensures rec.monthlyPcQcCnt.NotNumber? ==> Volume(rec) == CountValue(rec.monthlyMobileQcCnt)
    ensures rec.monthlyMobileQcCnt.NotNumber? ==> Volume(rec) == CountValue(rec.monthlyPcQcCnt)
  {
  }

  /** The record's term is a candidate key. */
  predicate Matched(m: CandidateMap, rec: MetricRecord) {
    Normalize(rec.relKeyword) in m.entries
  }

  /** The row pushed for a matched record: its own term, the stored candidate rank, its volume and score. */
  function RowFor(m: CandidateMap, rec: MetricRecord, log10: real -> real): Row
    requires Matched(m, rec)
  {
    var rank := m.entries[Normalize(rec.relKeyword)].rank;
    Row(rec.relKeyword, rank, Volume(rec), rec.compIdx, Score(Volume(rec), rec.compIdx, rank, log10))
  }

  /** `rawData.forEach(...)`: the rows for the matched records, in record order. */
  function Rows(m: CandidateMap, records: seq<MetricRecord>, log10: real -> real): seq<Row> {
    if records == [] then []
    else
      var last := records[|records| - 1];
      Rows(m, records[..|records| - 1], log10) + (if Matched(m, last) then [RowFor(m, last, log10)] else [])
  }

  /** A row is produced exactly for each matched record. */
  lemma {:induction false} RowsExactly(m: CandidateMap, records: seq<MetricRecord>, log10: real -> real, r: Row)
    ensures r in Rows(m, records, log10) <==>
      exists i :: 0 <= i < |records| && Matched(m, records[i]) && r == RowFor(m, records[i], log10)
  {
    if records != [] {
      var n := |records| - 1;
      RowsExactly(m, records[..n], log10, r);
      if exists i :: 0 <= i < |records| && Matched(m, records[i]) && r == RowFor(m, records[i], log10) {
        var i :| 0 <= i < |records| && Matched(m, records[i]) && r == RowFor(m, records[i], log10);
        if i < n { assert records[..n][i] == records[i]; }
      }
      if exists i :: 0 <= i < n && Matched(m, records[..n][i]) && r == RowFor(m, records[..n][i], log10) {
        var i :| 0 <= i < n && Matched(m, records[..n][i]) && r == RowFor(m, records[..n][i], log10);
        assert records[..n][i] == records[i];
      }
    }
  }

  /** The rows of all chunks, chunk by chunk. */
  function Enriched(m: CandidateMap, chunks: seq<seq<string>>, metrics: string -> Option<seq<MetricRecord>>, log10: real -> real): seq<Row> {
    if chunks == [] then []
    else
      Enriched(m, chunks[..|chunks| - 1], metrics, log10)
        + Rows(m, FetchMetrics(chunks[|chunks| - 1], metrics), log10)
  }

  /** Every enriched row comes from a matched record of some chunk's reply, with the candidate's rank. */
  lemma {:induction false} EnrichedRowsMatched(m: CandidateMap, chunks: seq<seq<string>>,
                                               metrics: string -> Option<seq<MetricRecord>>, log10: real -> real, r: Row)
    requires r in Enriched(m, chunks, metrics, log10)
    ensures exists c, rec :: 0 <= c < |chunks| && rec in FetchMetrics(chunks[c], metrics) && Matched(m, rec) && r == RowFor(m, rec, log10)
  {
    var n := |chunks| - 1;
    var records := FetchMetrics(chunks[n], metrics);
    if r in Enriched(m, chunks[..n], metrics, log10) {
      EnrichedRowsMatched(m, chunks[..n], metrics, log10, r);
      var c, rec :| 0 <= c < n && rec in FetchMetrics(chunks[..n][c], metrics) && Matched(m, rec) && r == RowFor(m, rec, log10);
      assert chunks[..n][c] == chunks[c];
    } else {
      assert r in Rows(m, records, log10);
      RowsExactly(m, records, log10, r);
      var i :| 0 <= i < |records| && Matched(m, records[i]) && r == RowFor(m, records[i], log10);
      assert records[i] in records;
    }
  }
}
