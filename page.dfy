/**
 * The `Home` page component of `app/page.tsx`: the keyword count and the
 * three-keyword limit derived from the input box, the analyse button's
 * enabled state, the click handler, and the badges of the result table.
 * The component's state hooks are the fields of `Home`; the reply of the
 * analyze route and the number of 800 ms ticks before it arrives are
 * parameters of the handler.
 */
module Page {
  import opened Common
  import opened Text
  import opened Keys
  import opened Suggestions
  import opened Scoring
  import opened Metrics
  import opened Results
  import opened AnalyzeRoute
  import opened Client

  /** At most this many keywords are analysed per request. */
  const Limit: nat := 3
  const OverLimitAlert: string := "키워드는 한 번에 최대 3개까지만 분석 가능합니다."

  /** `keywordCount` */
  function KeywordCount(input: string): nat {
    |Keywords(input)|
  }

  /** `isOverLimit` */
  predicate IsOverLimit(input: string) {
    KeywordCount(input) > Limit
  }

  /** `disabled={loading || isOverLimit || keywordCount === 0}` */
  predicate ButtonDisabled(loading: bool, input: string) {
    loading || IsOverLimit(input) || KeywordCount(input) == 0
  }

  /** Typing more keywords after a separator never lifts the limit. */
  lemma OverLimitStays(a: string, c: char, b: string)
    requires c in Separators && IsOverLimit(a)
    ensures IsOverLimit(a + [c] + b) && IsOverLimit(b + [c] + a)
  {
    KeywordsConcat(a, c, b);
    KeywordsConcat(b, c, a);
  }

  /** An enabled button means the click passes both guards and sends one to three keywords. */
  lemma EnabledPassesGuards(loading: bool, input: string)
    requires !ButtonDisabled(loading, input)
    ensures Trim(input) != [] && !IsOverLimit(input)
    ensures 1 <= |Keywords(input)| <= Limit
  {
    if Trim(input) == [] {
      KeywordsBlank(input);
    }
  }

  /** The keywords an enabled button sends are never refused with the 400 answer. */
  lemma EnabledRequestAccepted(loading: bool, input: string, suggest: string -> Option<seq<string>>,
                               metrics: string -> Option<seq<MetricRecord>>, log10: real -> real)
    requires !ButtonDisabled(loading, input)
    ensures Handle(Json(Some(Keywords(input))), suggest, metrics, log10).Ok?
  {
  }

  class Home {
    var input: string
    var loading: bool
    var data: seq<Row>
    var loadingMsg: string

    /** The initial state of the four `useState` hooks. */
    constructor()
      ensures input == [] && !loading && data == [] && loadingMsg == InitialLoadingMessage
    {
      input := [];
      loading := false;
      data := [];
      loadingMsg := InitialLoadingMessage;
    }

    /** The text area's `onChange`. */
    method SetInput(text: string)
      modifies this
      ensures input == text
      ensures loading == old(loading) && data == old(data) && loadingMsg == old(loadingMsg)
    {
      input := text;
    }

    /**
     * `handleAnalyze`: nothing for blank input, an alert and nothing else
     * over the limit; otherwise the request carries the parsed keywords,
     * and once the reply is handled the page is no longer loading, shows
     * the reply's rows (or none) and the message the rotation reached.
     */
    method HandleAnalyze(reply: Option<Response>, ticks: nat) returns (request: Option<seq<string>>, alert: Option<string>)
      modifies this
      ensures input == old(input)
      ensures Trim(input) == [] ==> request.None? && alert.None? && unchanged(this)
      ensures Trim(input) != [] && IsOverLimit(input) ==>
        request.None? && alert == Some(OverLimitAlert) && unchanged(this)
      ensures Trim(input) != [] && !IsOverLimit(input) ==>
        && request == Some(Keywords(input))
        && !loading
        && data == ReplyData(reply)
        && alert == ReplyAlert(reply)
        && loadingMsg == LoadingMessages[ticks % |LoadingMessages|]
    {
      if Trim(input) == [] {
        return None, None;
      }
      if IsOverLimit(input) {
        return None, Some(OverLimitAlert);
      }
      loading := true;
      data := [];
      var msgIndex, shown := RotateMessages(ticks);
      loadingMsg := LoadingMessages[msgIndex];
      request := Some(Keywords(input));
      alert := Settle(reply);
    }

    /** The `try`/`catch`/`finally` around the request, entered with the list cleared. */
    method Settle(reply: Option<Response>) returns (alert: Option<string>)
      requires data == []
      modifies this
      ensures data == ReplyData(reply) && alert == ReplyAlert(reply) && !loading
      ensures input == old(input) && loadingMsg == old(loadingMsg)
    {
      match reply {
        case None =>
          alert := Some(FailureAlert);
        case Some(Ok(rows)) =>
          data := rows;
          alert := None;
        case Some(BadRequest(message)) =>
          alert := if message != [] then Some(message) else None;
        case Some(ServerError(message)) =>
          alert := if message != [] then Some(message) else None;
      }
      loading := false;
    }
  }

  /** The rank cell: a SEED badge, a highlighted "n위" badge, or plain "n위" text. */
  datatype RankBadge = SeedBadge | Highlighted(rank: nat) | PlainRank(rank: nat)

  function RankBadgeOf(rank: nat): RankBadge {
    if rank == 0 then SeedBadge
    else if rank <= 3 then Highlighted(rank)
    else PlainRank(rank)
  }

  /** A rank gets a badge (SEED or highlighted) exactly when the score formula gives it a rank bonus. */
  lemma RankBadgeMatchesBonus(rank: nat)
    ensures RankBadgeOf(rank) == SeedBadge <==> rank == 0
    ensures RankBadgeOf(rank).PlainRank? <==> RankBonus(rank) == 0
    ensures RankBadgeOf(rank).Highlighted? ==> RankBonus(rank) >= 5 && RankBadgeOf(rank).rank == rank
  {
  }

  /** The competition cell: 낮음, 중간 or 높음. */
  datatype CompetitionBadge = LowBadge | MidBadge | HighBadge

  function CompetitionBadgeOf(comp: string): CompetitionBadge {
    if comp == "LOW" || comp == "낮음" then LowBadge
    else if comp == "MID" || comp == "중간" then MidBadge
    else HighBadge
  }

  /** The score pill's colour: green from 70, orange from 40, grey below. */
  datatype ScoreTier = Green | Orange | Grey

  function ScoreTierOf(score: int): ScoreTier {
    if score >= 70 then Green
    else if score >= 40 then Orange
    else Grey
  }

  /** The tiers in order, Grey lowest. */
  function TierLevel(t: ScoreTier): nat {
    match t
    case Grey => 0
    case Orange => 1
    case Green => 2
  }

  /** A higher score never gets a lower tier. */
  lemma ScoreTierMonotone(a: int, b: int)
    requires a <= b
    ensures TierLevel(ScoreTierOf(a)) <= TierLevel(ScoreTierOf(b))
  {
  }

  /** Down a result list ranked by score the pill colours never rise. */
  lemma RankedTiers(rows: seq<Row>)
    requires SortedDesc(rows)
    ensures forall i, j :: 0 <= i < j < |rows| ==>
      TierLevel(ScoreTierOf(rows[j].score)) <= TierLevel(ScoreTierOf(rows[i].score))
  {
    forall i, j | 0 <= i < j < |rows|
      ensures TierLevel(ScoreTierOf(rows[j].score)) <= TierLevel(ScoreTierOf(rows[i].score))
    {
      ScoreTierMonotone(rows[j].score, rows[i].score);
    }
  }

  /** The badge and the score's competition factor agree on the recognised labels; any other label shows 높음 but scores as uncontested. */
  lemma CompetitionBadgeVsFactor(comp: string)
    ensures CompetitionBadgeOf(comp) == LowBadge ==> CompetitionFactor(comp) == 1.0
    ensures CompetitionBadgeOf(comp) == MidBadge ==> CompetitionFactor(comp) == 0.7
    ensures CompetitionBadgeOf(comp) == HighBadge ==>
      (CompetitionFactor(comp) == 0.3 <==> comp == "HIGH" || comp == "높음")
    ensures CompetitionBadgeOf(comp) == HighBadge && comp != "HIGH" && comp != "높음" ==> CompetitionFactor(comp) == 1.0
  {
  }

  /** A result row with the SEED badge is a seed itself, up to spacing and case. */
  lemma SeedBadgeIsSeed(seeds: seq<string>, suggest: string -> Option<seq<string>>,
                        metrics: string -> Option<seq<MetricRecord>>, log10: real -> real, r: Row)
    requires r in Pipeline(seeds, suggest, metrics, log10)
    requires RankBadgeOf(r.rank) == SeedBadge
    ensures exists j :: 0 <= j < |seeds| && Normalize(r.keyword) == Normalize(seeds[j])
  {
    PipelineRowOrigin(seeds, suggest, metrics, log10, r);
    var items := Collected(seeds, suggest);
    var i :| IsFirstBest(items, Normalize(r.keyword), i) && r.rank == items[i].rank
      && exists j :: 0 <= j < |seeds| && items[i] in Tag(seeds[j], suggest(seeds[j]));
    var j :| 0 <= j < |seeds| && items[i] in Tag(seeds[j], suggest(seeds[j]));
    TagRankZero(seeds[j], suggest(seeds[j]), items[i]);
  }
}
