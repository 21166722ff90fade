/**
 * The `POST` handler of the analyze route. The suggestion source and the
 * metrics source are parameters (`suggest` answers a seed, `metrics` answers
 * a hint string); besides its response the handler returns the calls it
 * made to them, in order. The methods follow the handler's loops and are
 * proved against the functional description `Handle`.
 */
module AnalyzeRoute {
  import opened Common
  import opened OrderedMaps
  import opened Keys
  import opened Suggestions
  import opened Scoring
  import opened Metrics
  import opened Results

  /** The request body: unreadable JSON, or an object whose `keywords` may be missing. */
  datatype Body = Malformed | Json(keywords: Option<seq<string>>)

  datatype Response = Ok(result: seq<Row>) | BadRequest(message: string) | ServerError(message: string)

  /** A request to one of the two external sources. */
  datatype Call = SuggestCall(seed: string) | MetricsCall(hint: string)

  const EmptyInputMessage: string := "키워드를 입력해주세요."
  const ServerErrorMessage: string := "서버 에러가 발생했습니다."

  /** All tagged suggestions, seed after seed. */
  function Collected(seeds: seq<string>, suggest: string -> Option<seq<string>>): seq<Suggestion> {
    if seeds == [] then []
    else Collected(seeds[..|seeds| - 1], suggest) + Tag(seeds[|seeds| - 1], suggest(seeds[|seeds| - 1]))
  }

  function SuggestCalls(seeds: seq<string>): seq<Call> {
    seq(|seeds|, i requires 0 <= i < |seeds| => SuggestCall(seeds[i]))
  }

  function MetricsCalls(chunks: seq<seq<string>>): seq<Call> {
    seq(|chunks|, c requires 0 <= c < |chunks| => MetricsCall(Hint(chunks[c])))
  }

  function CandidatesOf(seeds: seq<string>, suggest: string -> Option<seq<string>>): (m: CandidateMap)
    ensures m.Valid()
  {
    Candidates(Collected(seeds, suggest))
  }

  /** The result list for a non-empty seed list. */
  function Pipeline(seeds: seq<string>, suggest: string -> Option<seq<string>>,
                    metrics: string -> Option<seq<MetricRecord>>, log10: real -> real): seq<Row> {
    var m := CandidatesOf(seeds, suggest);
    SortDesc(Dedup(Enriched(m, Chunks(AllKeys(m)), metrics, log10)))
  }

  function Seeds(keywords: Option<seq<string>>): seq<string> {
    keywords.GetOr([])
  }

  /** The response: 500 for an unreadable body, 400 for no seeds, the ranked list otherwise. */
  function Handle(body: Body, suggest: string -> Option<seq<string>>,
                  metrics: string -> Option<seq<MetricRecord>>, log10: real -> real): Response {
    match body
    case Malformed => ServerError(ServerErrorMessage)
    case Json(keywords) =>
      if Seeds(keywords) == [] then BadRequest(EmptyInputMessage)
      else Ok(Pipeline(Seeds(keywords), suggest, metrics, log10))
  }

  /** The external calls: one per seed, then one per chunk of candidate terms; none on an error. */
  function HandleCalls(body: Body, suggest: string -> Option<seq<string>>): seq<Call> {
    match body
    case Malformed => []
    case Json(keywords) =>
      var seeds := Seeds(keywords);
      if seeds == [] then []
      else SuggestCalls(seeds) + MetricsCalls(Chunks(AllKeys(CandidatesOf(seeds, suggest))))
  }

  /** `fetchGoogleSuggestions(seed)` */
  method FetchGoogleSuggestions(seed: string, suggest: string -> Option<seq<string>>)
    returns (results: seq<Suggestion>, calls: seq<Call>)
    ensures results == Tag(seed, suggest(seed))
    ensures calls == [SuggestCall(seed)]
  {
    calls := [SuggestCall(seed)];
    var reply := suggest(seed);
    match reply {
      case None =>
        results := [];
      case Some(terms) =>
        var all := [seed] + terms;
        results := seq(|all|, i requires 0 <= i < |all| => Suggestion(all[i], i));
    }
  }

  /** `fetchNaverMetrics(chunk)`: no request at all for an empty chunk. */
  method FetchNaverMetrics(chunk: seq<string>, metrics: string -> Option<seq<MetricRecord>>)
    returns (records: seq<MetricRecord>, calls: seq<Call>)
    ensures records == FetchMetrics(chunk, metrics)
    ensures calls == if chunk == [] then [] else [MetricsCall(Hint(chunk))]
  {
    if |chunk| == 0 {
      return [], [];
    }
    var hint := Hint(chunk);
    calls := [MetricsCall(hint)];
    var reply := metrics(hint);
    records := if reply.Some? then reply.value else [];
  }

  lemma CollectedSnoc(seeds: seq<string>, seed: string, suggest: string -> Option<seq<string>>)
    ensures Collected(seeds + [seed], suggest) == Collected(seeds, suggest) + Tag(seed, suggest(seed))
  {
    assert (seeds + [seed])[..|seeds|] == seeds;
  }

  lemma TakeSnoc<T>(xs: seq<T>, j: nat)
    requires j < |xs|
    ensures xs[..j + 1] == xs[..j] + [xs[j]]
  {
  }

  lemma SuggestCallsSnoc(seeds: seq<string>, seed: string)
    ensures SuggestCalls(seeds + [seed]) == SuggestCalls(seeds) + [SuggestCall(seed)]
  {
  }

  lemma TakeOneMore<T>(done: seq<T>, xs: seq<T>, j: nat)
    requires j < |xs|
    ensures done + xs[..j + 1] == (done + xs[..j]) + [xs[j]]
  {
    assert xs[..j + 1] == xs[..j] + [xs[j]];
  }

  /** `results.forEach(...)`: merges one seed's tagged suggestions into the map. */
  method MergeResults(m0: CandidateMap, ghost done: seq<Suggestion>, results: seq<Suggestion>) returns (m: CandidateMap)
    requires m0 == Candidates(done)
    ensures m == Candidates(done + results)
  {
    m := m0;
    var j := 0;
    ghost var seen := done;
    assert done + results[..0] == done;
    while j < |results|
      invariant 0 <= j <= |results|
      invariant seen == done + results[..j]
      invariant m == Candidates(seen)
    {
      var item := results[j];
      ghost var next := MergeStep(m, item);
      var key := Normalize(item.keyword);
      if key !in m.entries || m.entries[key].rank > item.rank {
        m := m.Set(key, Candidate(item.keyword, item.rank));
      }
      assert m == next;
      CandidatesSnoc(seen, item);
      TakeOneMore(done, results, j);
      seen := seen + [item];
      j := j + 1;
    }
    assert results[..j] == results;
  }

  /** The merge loop over the seeds and their suggestions. */
  method CollectCandidates(seeds: seq<string>, suggest: string -> Option<seq<string>>)
    returns (m: CandidateMap, calls: seq<Call>)
    ensures m == CandidatesOf(seeds, suggest)
    ensures calls == SuggestCalls(seeds)
  {
    m := Empty();
    calls := [];
    var i := 0;
    ghost var merged: seq<Suggestion> := [];
    while i < |seeds|
      invariant 0 <= i <= |seeds|
      invariant merged == Collected(seeds[..i], suggest)
      invariant m == Candidates(merged)
      invariant calls == SuggestCalls(seeds[..i])
    {
      var results, c := FetchGoogleSuggestions(seeds[i], suggest);
      calls := calls + c;
      m := MergeResults(m, merged, results);
      TakeSnoc(seeds, i);
      CollectedSnoc(seeds[..i], seeds[i], suggest);
      SuggestCallsSnoc(seeds[..i], seeds[i]);
      merged := merged + results;
      i := i + 1;
    }
    assert seeds[..i] == seeds;
  }

  lemma RowsSnoc(m: CandidateMap, records: seq<MetricRecord>, x: MetricRecord, log10: real -> real)
    ensures Rows(m, records + [x], log10)
         == Rows(m, records, log10) + (if Matched(m, x) then [RowFor(m, x, log10)] else [])
  {
    assert (records + [x])[..|records|] == records;
  }

  lemma EnrichedSnoc(m: CandidateMap, chunks: seq<seq<string>>, chunk: seq<string>,
                     metrics: string -> Option<seq<MetricRecord>>, log10: real -> real)
    ensures Enriched(m, chunks + [chunk], metrics, log10)
         == Enriched(m, chunks, metrics, log10) + Rows(m, FetchMetrics(chunk, metrics), log10)
  {
    assert (chunks + [chunk])[..|chunks|] == chunks;
  }

  /** The rows pushed for one chunk's records. */
  method JoinRecords(m: CandidateMap, records: seq<MetricRecord>, log10: real -> real) returns (rows: seq<Row>)
    ensures rows == Rows(m, records, log10)
  {
    rows := [];
    var j := 0;
    ghost var seen: seq<MetricRecord> := [];
    while j < |records|
      invariant 0 <= j <= |records|
      invariant seen == records[..j]
      invariant rows == Rows(m, seen, log10)
    {
      var item := records[j];
      var key := Normalize(item.relKeyword);
      if key in m.entries {
        var rank := m.entries[key].rank;
        var vol := Volume(item);
        rows := rows + [Row(item.relKeyword, rank, vol, item.compIdx, Score(vol, item.compIdx, rank, log10))];
        assert rows == Rows(m, seen, log10) + [RowFor(m, item, log10)];
      }
      RowsSnoc(m, seen, item, log10);
      TakeSnoc(records, j);
      seen := seen + [item];
      j := j + 1;
    }
    assert records[..j] == records;
  }

  lemma MetricsCallsSnoc(chunks: seq<seq<string>>, chunk: seq<string>)
    ensures MetricsCalls(chunks + [chunk]) == MetricsCalls(chunks) + [MetricsCall(Hint(chunk))]
  {
  }

  /** Chunk c exists exactly when its start 5c is inside the term list, and is then the slice the loop takes. */
  lemma ChunkAt(terms: seq<string>, c: nat)
    ensures c * ChunkSize < |terms| <==> c < |Chunks(terms)|
    ensures c < |Chunks(terms)| ==>
      var chunk := terms[c * ChunkSize .. Min(c * ChunkSize + ChunkSize, |terms|)];
      Chunks(terms)[c] == chunk && chunk != []
  {
  }

  /** One chunk's round: fetch its metrics, then join them against the candidates. */
  method ProcessChunk(m: CandidateMap, chunk: seq<string>, metrics: string -> Option<seq<MetricRecord>>,
                      log10: real -> real)
    returns (found: seq<Row>, calls: seq<Call>)
    ensures found == Rows(m, FetchMetrics(chunk, metrics), log10)
    ensures calls == if chunk == [] then [] else [MetricsCall(Hint(chunk))]
  {
    var records;
    records, calls := FetchNaverMetrics(chunk, metrics);
    found := JoinRecords(m, records, log10);
  }

  /** The chunk loop: `for (let i = 0; i < allKeys.length; i += chunkSize)`. */
  method EnrichCandidates(m: CandidateMap, allKeys: seq<string>, metrics: string -> Option<seq<MetricRecord>>,
                          log10: real -> real)
    returns (rows: seq<Row>, calls: seq<Call>)
    ensures rows == Enriched(m, Chunks(allKeys), metrics, log10)
    ensures calls == MetricsCalls(Chunks(allKeys))
  {
    ghost var chunks := Chunks(allKeys);
    rows := [];
    calls := [];
    var i := 0;
    ghost var c := 0;
    ghost var done: seq<seq<string>> := [];
    while i < |allKeys|
      invariant 0 <= c <= |chunks| && i == c * ChunkSize
      invariant done == chunks[..c]
      invariant rows == Enriched(m, done, metrics, log10)
      invariant calls == MetricsCalls(done)
    {
      ChunkAt(allKeys, c);
      var chunk := allKeys[i..Min(i + ChunkSize, |allKeys|)];
      var found, cc := ProcessChunk(m, chunk, metrics, log10);
      rows := rows + found;
      calls := calls + cc;
      EnrichedSnoc(m, done, chunk, metrics, log10);
      MetricsCallsSnoc(done, chunk);
      TakeSnoc(chunks, c);
      done := done + [chunk];
      i := i + ChunkSize;
      c := c + 1;
    }
    ChunkAt(allKeys, c);
    assert chunks[..c] == chunks;
  }

  /** `POST(req)` */
  method Post(body: Body, suggest: string -> Option<seq<string>>,
              metrics: string -> Option<seq<MetricRecord>>, log10: real -> real)
    returns (resp: Response, calls: seq<Call>)
    ensures resp == Handle(body, suggest, metrics, log10)
    ensures calls == HandleCalls(body, suggest)
  {
    if body.Malformed? {
      return ServerError(ServerErrorMessage), [];
    }
    var seeds := Seeds(body.keywords);
    if |seeds| == 0 {
      return BadRequest(EmptyInputMessage), [];
    }
    var m, suggestCalls := CollectCandidates(seeds, suggest);
    var allKeys := AllKeys(m);
    var finalData, metricsCalls := EnrichCandidates(m, allKeys, metrics, log10);
    var uniqueData := Dedup(finalData);
    assert Pipeline(seeds, suggest, metrics, log10) == SortDesc(uniqueData);
    var sorted := new Row[|uniqueData|](k requires 0 <= k < |uniqueData| => uniqueData[k]);
    assert sorted[..] == uniqueData;
    SortByScore(sorted);
    resp := Ok(sorted[..]);
    calls := suggestCalls + metricsCalls;
  }

  /** The status of the response: 500 exactly for an unreadable body, 400 exactly for a missing or empty list. */
  lemma HandleStatus(body: Body, suggest: string -> Option<seq<string>>,
                     metrics: string -> Option<seq<MetricRecord>>, log10: real -> real)
    ensures Handle(body, suggest, metrics, log10).ServerError? <==> body.Malformed?
    ensures Handle(body, suggest, metrics, log10).BadRequest? <==> body.Json? && Seeds(body.keywords) == []
    ensures !Handle(body, suggest, metrics, log10).Ok? ==> HandleCalls(body, suggest) == []
    ensures Handle(body, suggest, metrics, log10).Ok? ==>
      |HandleCalls(body, suggest)| == |Seeds(body.keywords)| + |Chunks(AllKeys(CandidatesOf(Seeds(body.keywords), suggest)))|
  {
  }

  /** A missing or empty keyword list is refused with the 400 message and calls neither source. */
  lemma HandleEmpty(keywords: Option<seq<string>>, suggest: string -> Option<seq<string>>,
                    metrics: string -> Option<seq<MetricRecord>>, log10: real -> real)
    requires keywords.None? || keywords.value == []
    ensures Handle(Json(keywords), suggest, metrics, log10) == BadRequest(EmptyInputMessage)
    ensures HandleCalls(Json(keywords), suggest) == []
  {
  }

  /** Every collected suggestion is one of the tagged suggestions of some seed. */
  lemma {:induction false} CollectedFrom(seeds: seq<string>, suggest: string -> Option<seq<string>>, s: Suggestion)
    requires s in Collected(seeds, suggest)
    ensures exists j :: 0 <= j < |seeds| && s in Tag(seeds[j], suggest(seeds[j]))
    decreases |seeds|
  {
    var n := |seeds| - 1;
    var prev := seeds[..n];
    if s in Collected(prev, suggest) {
      CollectedFrom(prev, suggest, s);
      var j :| 0 <= j < |prev| && s in Tag(prev[j], suggest(prev[j]));
      assert prev[j] == seeds[j];
    }
  }

  /** The result list is ranked by score (descending) and holds each keyword once. */
  lemma PipelineRanked(seeds: seq<string>, suggest: string -> Option<seq<string>>,
                       metrics: string -> Option<seq<MetricRecord>>, log10: real -> real)
    ensures SortedDesc(Pipeline(seeds, suggest, metrics, log10))
    ensures var rows := Pipeline(seeds, suggest, metrics, log10);
      forall i, j :: 0 <= i < j < |rows| ==> rows[i].keyword != rows[j].keyword
  {
    var m := CandidatesOf(seeds, suggest);
    var enriched := Enriched(m, Chunks(AllKeys(m)), metrics, log10);
    assert Pipeline(seeds, suggest, metrics, log10) == SortDesc(Dedup(enriched));
    RankedUnique(enriched);
  }

  /**
   * Where a result row comes from: a metrics record of one of the requested chunks whose term
   * normalises to a candidate key; that key came from a seed's suggestions, the row carries the
   * lowest rank seen for it, and the score is computed from the row's own volume, competition and rank.
   */
  lemma PipelineRowOrigin(seeds: seq<string>, suggest: string -> Option<seq<string>>,
                          metrics: string -> Option<seq<MetricRecord>>, log10: real -> real, r: Row)
    requires r in Pipeline(seeds, suggest, metrics, log10)
    ensures var chunks := Chunks(AllKeys(CandidatesOf(seeds, suggest)));
      exists c, rec :: 0 <= c < |chunks| && rec in FetchMetrics(chunks[c], metrics)
        && r.keyword == rec.relKeyword && r.vol == Volume(rec) && r.comp == rec.compIdx
    ensures var items := Collected(seeds, suggest);
      exists i :: IsFirstBest(items, Normalize(r.keyword), i) && r.rank == items[i].rank
        && exists j :: 0 <= j < |seeds| && items[i] in Tag(seeds[j], suggest(seeds[j]))
    ensures r.score == Score(r.vol, r.comp, r.rank, log10)
  {
    var items := Collected(seeds, suggest);
    var m := CandidatesOf(seeds, suggest);
    var chunks := Chunks(AllKeys(m));
    PipelineRowEnriched(seeds, suggest, metrics, log10, r);
    EnrichedRowsMatched(m, chunks, metrics, log10, r);
    var c, rec :| 0 <= c < |chunks| && rec in FetchMetrics(chunks[c], metrics) && Matched(m, rec)
      && r == RowFor(m, rec, log10);
    var key := Normalize(rec.relKeyword);
    CandidateBest(items, key);
    var i :| IsFirstBest(items, key, i) && m.entries[key] == Candidate(items[i].keyword, items[i].rank);
    CollectedFrom(seeds, suggest, items[i]);
  }

  /** A result row is one of the enriched rows. */
  lemma PipelineRowEnriched(seeds: seq<string>, suggest: string -> Option<seq<string>>,
                            metrics: string -> Option<seq<MetricRecord>>, log10: real -> real, r: Row)
    requires r in Pipeline(seeds, suggest, metrics, log10)
    ensures var m := CandidatesOf(seeds, suggest);
      r in Enriched(m, Chunks(AllKeys(m)), metrics, log10)
  {
    var m := CandidatesOf(seeds, suggest);
    RankedFrom(Enriched(m, Chunks(AllKeys(m)), metrics, log10), r);
  }
}
