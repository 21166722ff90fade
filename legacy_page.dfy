/**
 * The older `Home` page component of `src/app/page.tsx`: the same parse
 * and the same reply handling as the current page, but without a keyword
 * limit, and with a button that is disabled only while loading.
 */
module LegacyPage {
  import opened Common
  import opened Text
  import opened Metrics
  import opened AnalyzeRoute
  import opened Client
  import Page

  /** `disabled={loading}` */
  predicate ButtonDisabled(loading: bool) {
    loading
  }

  class Home {
    var input: string
    var loading: bool
    var data: seq<Row>
    var loadingMsg: string

    /** The initial state of the four `useState` hooks. */
    constructor()
      ensures input == [] && !loading && data == [] && loadingMsg == InitialLoadingMessage
    {
      input := [];
      loading := false;
      data := [];
      loadingMsg := InitialLoadingMessage;
    }

    /** The text area's `onChange`. */
    method SetInput(text: string)
      modifies this
      ensures input == text
      ensures loading == old(loading) && data == old(data) && loadingMsg == old(loadingMsg)
    {
      input := text;
    }

    /**
     * `handleAnalyze`: nothing for blank input; otherwise every parsed
     * keyword is sent, however many there are, and once the reply is
     * handled the page is no longer loading, shows the reply's rows (or
     * none) and the message the rotation reached.
     */
    method HandleAnalyze(reply: Option<Response>, ticks: nat) returns (request: Option<seq<string>>, alert: Option<string>)
      modifies this
      ensures input == old(input)
      ensures Trim(input) == [] ==> request.None? && alert.None? && unchanged(this)
      ensures Trim(input) != [] ==>
        && request == Some(Keywords(input))
        && !loading
        && data == ReplyData(reply)
        && alert == ReplyAlert(reply)
        && loadingMsg == LoadingMessages[ticks % |LoadingMessages|]
    {
      if Trim(input) == [] {
        return None, None;
      }
      loading := true;
      data := [];
      var msgIndex, shown := RotateMessages(ticks);
      loadingMsg := LoadingMessages[msgIndex];
      var keywords := Keywords(input);
      request := Some(keywords);
      alert := Settle(reply);
    }

    /** The `try`/`catch`/`finally` around the request, entered with the list cleared. */
    method Settle(reply: Option<Response>) returns (alert: Option<string>)
      requires data == []
      modifies this
      ensures data == ReplyData(reply) && alert == ReplyAlert(reply) && !loading
      ensures input == old(input) && loadingMsg == old(loadingMsg)
    {
      match reply {
        case None =>
          alert := Some(FailureAlert);
        case Some(Ok(rows)) =>
          data := rows;
          alert := None;
        case Some(BadRequest(message)) =>
          alert := if message != [] then Some(message) else None;
        case Some(ServerError(message)) =>
          alert := if message != [] then Some(message) else None;
      }
      loading := false;
    }
  }

  /**
   * Input made only of separators with at least one comma, such as ",,",
   * is not blank, so the click goes through with an empty keyword list,
   * which the analyze route answers with its 400 message, shown as an alert.
   */
  lemma SeparatorsOnlyRejected(input: string, suggest: string -> Option<seq<string>>,
                               metrics: string -> Option<seq<MetricRecord>>, log10: real -> real)
    requires forall i :: 0 <= i < |input| ==> input[i] in Separators
    requires ',' in input
    ensures Trim(input) != [] && Keywords(input) == []
    ensures Handle(Json(Some(Keywords(input))), suggest, metrics, log10) == BadRequest(EmptyInputMessage)
    ensures ReplyAlert(Some(Handle(Json(Some(Keywords(input))), suggest, metrics, log10))) == Some(EmptyInputMessage)
  {
    assert Trim(input) != [] by {
      TrimEmpty(input);
    }
    assert Keywords(input) == [] by {
      KeywordsNone(input);
    }
    HandleEmpty(Some(Keywords(input)), suggest, metrics, log10);
  }

  /**
   * Input of more than three keywords: the current page flags it as over the
   * limit and keeps its button disabled even when idle, while the older page
   * lets it past the blank guard with its button enabled, so its
   * `HandleAnalyze` sends every keyword.
   */
  lemma SendsBeyondLimit(input: string)
    requires |Keywords(input)| > Page.Limit
    ensures Page.IsOverLimit(input) && Page.ButtonDisabled(false, input)
    ensures !ButtonDisabled(false) && Trim(input) != []
  {
    if Trim(input) == [] {
      KeywordsBlank(input);
    }
  }
}
