/**
 * What the two page components share: the keyword parse of the input box,
 * `input.split(/,|\n/).map(k => k.trim()).filter(k => k)`, and the rolling
 * loading message driven by an 800 ms interval.
 */
module Client {
  import opened Common
  import opened Text
  import opened Metrics
  import opened AnalyzeRoute

  /** The characters the pattern `/,|\n/` splits on. */
  const Separators: set<char> := {',', '\n'}

  const InitialLoadingMessage: string := "시스템 초기화 중..."
  const FailureAlert: string := "분석 중 오류가 발생했습니다."

  const LoadingMessages: seq<string> := [
    "Google 연관 검색어 수집 중...",
    "잠재 트래픽 데이터 분석 중...",
    "네이버 광고 API 접속 시도...",
    "경쟁 강도 계산 중...",
    "황금 키워드 필터링 중...",
    "데이터 정렬 및 시각화 중..."
  ]

  /** `.map(f)` over a list of strings. */
  function MapAll(f: string -> string, parts: seq<string>): (r: seq<string>)
    ensures |r| == |parts|
  {
    seq(|parts|, i requires 0 <= i < |parts| => f(parts[i]))
  }

  lemma MapAllAppend(f: string -> string, a: seq<string>, b: seq<string>)
    ensures MapAll(f, a + b) == MapAll(f, a) + MapAll(f, b)
  {
  }

  /** `.filter(k => k)`: an empty string is falsy, every other string is kept. */
  function NonEmpty(parts: seq<string>): (r: seq<string>)
    ensures forall k :: 0 <= k < |r| ==> r[k] != [] && r[k] in parts
  {
    if parts == [] then []
    else
      var last := parts[|parts| - 1];
      NonEmpty(parts[..|parts| - 1]) + (if last == [] then [] else [last])
  }

  /** The keyword list the page derives from its input box. */
  function Keywords(input: string): seq<string> {
    NonEmpty(MapAll(Trim, Split(input, Separators)))
  }

  lemma {:induction false} NonEmptyAppend(a: seq<string>, b: seq<string>)
    ensures NonEmpty(a + b) == NonEmpty(a) + NonEmpty(b)
    decreases |b|
  {
    if b != [] {
      var n := |b| - 1;
      assert (a + b)[..|a + b| - 1] == a + b[..n];
      NonEmptyAppend(a, b[..n]);
    } else {
      assert a + b == a;
    }
  }

  /** A trimmed piece keeps no character that its piece did not have. */
  lemma TrimKeepsNoSeparator(s: string)
    requires forall i :: 0 <= i < |s| ==> s[i] !in Separators
    ensures forall i :: 0 <= i < |Trim(s)| ==> Trim(s)[i] !in Separators
  {
    TrimShape(s);
    var i, j :| TrimmedAt(s, Trim(s), i, j);
    assert forall k :: 0 <= k < |Trim(s)| ==> Trim(s)[k] == s[i + k];
  }

  /** Each keyword is non-empty, has no surrounding whitespace and holds neither `,` nor a newline. */
  lemma KeywordsShape(input: string)
    ensures forall k :: 0 <= k < |Keywords(input)| ==>
      Keywords(input)[k] != [] && IsTrimmed(Keywords(input)[k])
    ensures forall k, i :: 0 <= k < |Keywords(input)| && 0 <= i < |Keywords(input)[k]| ==>
      Keywords(input)[k][i] !in Separators
  {
    var pieces := Split(input, Separators);
    var trimmed := MapAll(Trim, pieces);
    forall k | 0 <= k < |Keywords(input)|
      ensures IsTrimmed(Keywords(input)[k])
      ensures forall i :: 0 <= i < |Keywords(input)[k]| ==> Keywords(input)[k][i] !in Separators
    {
      var p :| 0 <= p < |trimmed| && trimmed[p] == Keywords(input)[k];
      TrimShape(pieces[p]);
      TrimKeepsNoSeparator(pieces[p]);
    }
  }

  /** Input order: the keywords before a separator come first, then those after it. */
  lemma KeywordsConcat(a: string, c: char, b: string)
    requires c in Separators
    ensures Keywords(a + [c] + b) == Keywords(a) + Keywords(b)
  {
    SplitAtSeparator(a, c, b, Separators);
    var pa := Split(a, Separators);
    var pb := Split(b, Separators);
    MapAllAppend(Trim, pa, pb);
    NonEmptyAppend(MapAll(Trim, pa), MapAll(Trim, pb));
  }

  lemma MapAllSingle(f: string -> string, s: string)
    ensures MapAll(f, [s]) == [f(s)]
  {
  }

  lemma NonEmptySingle(s: string)
    ensures NonEmpty([s]) == if s == [] then [] else [s]
  {
    assert [s][..0] == [];
  }

  /** Input without a separator is one keyword, its trimmed self, unless it is blank. */
  lemma KeywordsSingle(s: string)
    requires forall i :: 0 <= i < |s| ==> s[i] !in Separators
    ensures Keywords(s) == if Trim(s) == [] then [] else [Trim(s)]
  {
    SplitNoSeparator(s, Separators);
    MapAllSingle(Trim, s);
    NonEmptySingle(Trim(s));
  }

  /** Input made only of whitespace and separators gives no keywords. */
  lemma {:induction false} KeywordsNone(input: string)
    requires forall i :: 0 <= i < |input| ==> IsWhitespace(input[i]) || input[i] in Separators
    ensures Keywords(input) == []
    decreases |input|
  {
    if forall i :: 0 <= i < |input| ==> input[i] !in Separators {
      TrimEmpty(input);
      KeywordsSingle(input);
    } else {
      var p :| 0 <= p < |input| && input[p] in Separators;
      var a, b := input[..p], input[p + 1..];
      assert input == a + [input[p]] + b;
      KeywordsConcat(a, input[p], b);
      KeywordsNone(a);
      KeywordsNone(b);
    }
  }

  /** Blank input gives no keywords. */
  lemma KeywordsBlank(input: string)
    requires Trim(input) == []
    ensures Keywords(input) == []
  {
    TrimEmpty(input);
    KeywordsNone(input);
  }

  lemma NextMessage(t: nat)
    ensures (t % |LoadingMessages| + 1) % |LoadingMessages| == (t + 1) % |LoadingMessages|
  {
    assert |LoadingMessages| == 6;
  }

  /**
   * The message rotation: message 0 when the request starts, then
   * `msgIndex = (msgIndex + 1) % loadingMessages.length` on each of the
   * `ticks` interval callbacks that fire before the reply arrives.
   */
  method RotateMessages(ticks: nat) returns (msgIndex: nat, shown: seq<string>)
    ensures msgIndex < |LoadingMessages| && msgIndex == ticks % |LoadingMessages|
    ensures |shown| == ticks + 1
    ensures forall k :: 0 <= k < |shown| ==> shown[k] == LoadingMessages[k % |LoadingMessages|]
    ensures shown[ticks] == LoadingMessages[msgIndex]
  {
    msgIndex := 0;
    shown := [LoadingMessages[0]];
    var t := 0;
    while t < ticks
      invariant 0 <= t <= ticks
      invariant msgIndex == t % |LoadingMessages|
      invariant |shown| == t + 1
      invariant forall k :: 0 <= k < |shown| ==> shown[k] == LoadingMessages[k % |LoadingMessages|]
    {
      NextMessage(t);
      msgIndex := (msgIndex + 1) % |LoadingMessages|;
      shown := shown + [LoadingMessages[msgIndex]];
      t := t + 1;
    }
  }

  /**
   * The rows left on screen once the reply is handled: the list was cleared
   * when the request started and is replaced only by a `result`.
   */
  function ReplyData(reply: Option<Response>): seq<Row> {
    match reply
    case Some(Ok(rows)) => rows
    case _ => []
  }

  /**
   * The alert raised for a reply: the `error` text when there is one (an
   * empty text is falsy and raises nothing), the fixed failure text when
   * the request or its JSON decoding threw (`None`).
   */
  function ReplyAlert(reply: Option<Response>): Option<string> {
    match reply
    case None => Some(FailureAlert)
    case Some(Ok(_)) => None
    case Some(BadRequest(message)) => if message != [] then Some(message) else None
    case Some(ServerError(message)) => if message != [] then Some(message) else None
  }

  /** For a reply of the analyze route, an alert is raised exactly when the route did not answer with a result. */
  lemma RouteReplyAlert(body: Body, suggest: string -> Option<seq<string>>,
                        metrics: string -> Option<seq<MetricRecord>>, log10: real -> real)
    ensures var resp := Handle(body, suggest, metrics, log10);
      ReplyAlert(Some(resp)).Some? <==> !resp.Ok?
    ensures var resp := Handle(body, suggest, metrics, log10);
      !resp.Ok? ==> ReplyData(Some(resp)) == [] && ReplyAlert(Some(resp)) == Some(resp.message)
  {
  }
}
