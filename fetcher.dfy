/**
  The decision logic of `getPoligraftAnalysis` in lib/main.js, without the
  network: what to do with the first response of the extraction service
  (retry with "%20" removed, give up on an empty body, or start polling), and
  the polling rule with its budget of ten status requests.
*/
module Fetcher {
  import opened Wrappers

  /** The number of status requests `attemptsLeft` allows. */
  const MaxAttempts: nat := 10

  /** The payload status that marks a finished analysis. */
  const EntitiesLinked := "Entities Linked"

  /** The URL fragment that the retry after a 500 removes. */
  const EncodedSpace := "%20"

  // ------------------------------------------------------ the "%20" strip

  /** `pat` occurs in `s` at position `i`. */
  predicate OccursAt(s: string, pat: string, i: nat) {
    i + |pat| <= |s| && s[i..i + |pat|] == pat
  }

  /** An occurrence past the first character is an occurrence in the tail. */
  lemma OccursShift(s: string, pat: string, i: nat)
    requires 1 <= i && |s| > 0
    ensures OccursAt(s, pat, i) <==> OccursAt(s[1..], pat, i - 1)
  {
    if i + |pat| <= |s| {
      var here, there := s[i..i + |pat|], s[1..][i - 1..i - 1 + |pat|];
      assert |here| == |there|;
      forall k | 0 <= k < |pat| ensures here[k] == there[k] {
        assert here[k] == s[i + k];
        assert there[k] == s[1..][i - 1 + k];
      }
      assert here == there;
    }
  }

  /** The first position at which `pat` occurs in `s`. */
  function IndexOf(s: string, pat: string): (r: Option<nat>)
    ensures r.Some? ==> OccursAt(s, pat, r.value)
    ensures r.Some? ==> forall i :: 0 <= i < r.value ==> !OccursAt(s, pat, i)
    ensures r.None? ==> forall i :: 0 <= i <= |s| ==> !OccursAt(s, pat, i)
    decreases |s|
  {
    if OccursAt(s, pat, 0) then Some(0)
    else if |s| == 0 then None
    else
      match IndexOf(s[1..], pat)
      case None =>
        assert forall i :: 1 <= i <= |s| ==> !OccursAt(s, pat, i) by {
          forall i | 1 <= i <= |s| ensures !OccursAt(s, pat, i) {
            OccursShift(s, pat, i);
          }
        }
        None
      case Some(k) =>
        OccursShift(s, pat, k + 1);
        assert forall i :: 1 <= i < k + 1 ==> !OccursAt(s, pat, i) by {
          forall i | 1 <= i < k + 1 ensures !OccursAt(s, pat, i) {
            OccursShift(s, pat, i);
          }
        }
        Some(k + 1)
  }

  /** JavaScript's `s.replace(pat, "")` with a string pattern: only the first occurrence goes. */
  function RemoveFirst(s: string, pat: string): string {
    match IndexOf(s, pat)
    case None => s
    case Some(i) => s[..i] + s[i + |pat|..]
  }

  /** Removing "%20" changes the URL exactly when it contains "%20", and then shortens it by three. */
  lemma RemoveFirstSpec(s: string)
    ensures RemoveFirst(s, EncodedSpace) != s <==> exists i :: 0 <= i <= |s| && OccursAt(s, EncodedSpace, i)
    ensures RemoveFirst(s, EncodedSpace) != s ==> |RemoveFirst(s, EncodedSpace)| == |s| - 3
  {
  }

  /** Only the first of two occurrences is removed. */
  lemma RemoveFirstOnce()
    ensures RemoveFirst("a%20b%20c", EncodedSpace) == "ab%20c"
  {
    assert "a%20b%20c"[0..3][0] == 'a';
    assert OccursAt("a%20b%20c", EncodedSpace, 1);
    assert IndexOf("a%20b%20c", EncodedSpace) == Some(1);
  }

  // ----------------------------------------------- the first response

  /** The extraction service's answer; `slug` is `None` when the JSON body is null. */
  datatype FirstResponse = FirstResponse(status: int, slug: Option<string>)

  /** What `getPoligraftAnalysis` does next. */
  datatype Step = RetryWith(url: string) | EmptyResponse | StartPolling(slug: string)

  /**
    As written: after a 500 the retry URL is computed from the active tab's
    URL, whatever `page_url` this call was made with.
  */
  function NextStepAsWritten(r: FirstResponse, pageUrl: string, activeUrl: string): Step {
    var stripped := RemoveFirst(activeUrl, EncodedSpace);
    if r.status == 500 && activeUrl != stripped then RetryWith(stripped)
    else if r.slug.None? then EmptyResponse
    else StartPolling(r.slug.value)
  }

  /**
    When the active URL holds "%20" and the service keeps answering 500, the
    retried call asks for the same URL again: the retries never end.
  */
  lemma AsWrittenRetriesForever(pageUrl: string, activeUrl: string, slug: Option<string>)
    requires NextStepAsWritten(FirstResponse(500, slug), pageUrl, activeUrl).RetryWith?
    ensures var u := NextStepAsWritten(FirstResponse(500, slug), pageUrl, activeUrl).url;
      NextStepAsWritten(FirstResponse(500, slug), u, activeUrl) == RetryWith(u)
  {
  }

  /** The URL "a%20b" with a service that always answers 500 is retried as "ab", then as "ab" again. */
  lemma AsWrittenCounterexample()
    ensures NextStepAsWritten(FirstResponse(500, None), "a%20b", "a%20b") == RetryWith("ab")
    ensures NextStepAsWritten(FirstResponse(500, None), "ab", "a%20b") == RetryWith("ab")
  {
    assert OccursAt("a%20b", EncodedSpace, 1);
    assert "a%20b"[0..3][0] == 'a';
    assert IndexOf("a%20b", EncodedSpace) == Some(1);
    assert RemoveFirst("a%20b", EncodedSpace) == "ab";
  }

  /** Corrected: the retry strips the URL this call was made with. */
  function NextStep(r: FirstResponse, pageUrl: string): Step {
    var stripped := RemoveFirst(pageUrl, EncodedSpace);
    if r.status == 500 && pageUrl != stripped then RetryWith(stripped)
    else if r.slug.None? then EmptyResponse
    else StartPolling(r.slug.value)
  }

  /**
    On the top-level call `page_url` is the active tab's URL when the request
    is made. If the tab still shows it when the first response arrives, the
    corrected rule makes the source's own decision.
  */
  lemma NextStepInitialCall(r: FirstResponse, url: string)
    ensures NextStep(r, url) == NextStepAsWritten(r, url, url)
  {
  }

  /**
    The source reads the active tab's URL again when the response arrives.
    After a tab change to "b%20c", a 500 for page "a" retries another page.
  */
  lemma TabChangeCounterexample()
    ensures NextStepAsWritten(FirstResponse(500, Some("s")), "a", "b%20c") == RetryWith("bc")
    ensures NextStep(FirstResponse(500, Some("s")), "a") == StartPolling("s")
  {
    assert OccursAt("b%20c", EncodedSpace, 1);
    assert "b%20c"[0..3][0] == 'b';
    assert IndexOf("b%20c", EncodedSpace) == Some(1);
    assert RemoveFirst("b%20c", EncodedSpace) == "bc";
  }

  /**
    A retry happens only after a 500 for a URL containing "%20" and asks for a
    URL three characters shorter; otherwise a null body is an error and any
    other body starts polling.
  */
  lemma NextStepSpec(r: FirstResponse, pageUrl: string)
    ensures NextStep(r, pageUrl).RetryWith? <==>
      r.status == 500 && exists i :: 0 <= i <= |pageUrl| && OccursAt(pageUrl, EncodedSpace, i)
    ensures NextStep(r, pageUrl).RetryWith? ==> |NextStep(r, pageUrl).url| == |pageUrl| - 3
    ensures !NextStep(r, pageUrl).RetryWith? ==>
      NextStep(r, pageUrl) == if r.slug.None? then EmptyResponse else StartPolling(r.slug.value)
  {
  }

  /** The number of retries the corrected rule makes when every answer is a 500. */
  function RetriesUnder500(pageUrl: string): (n: nat)
    ensures 3 * n <= |pageUrl|
    decreases |pageUrl|
  {
    match NextStep(FirstResponse(500, None), pageUrl)
    case RetryWith(u) =>
      NextStepSpec(FirstResponse(500, None), pageUrl);
      1 + RetriesUnder500(u)
    case _ => 0
  }

  // ------------------------------------------------------------ polling

  /** A status response: HTTP status and the payload's `status` field. */
  datatype StatusResponse = StatusResponse(status: int, payloadStatus: string)

  /** How one status response is treated. */
  datatype Verdict = Success | Stop | Retry

  function Classify(r: StatusResponse): (v: Verdict)
    ensures v == Success <==> r.status == 200 || (r.status == 202 && r.payloadStatus == EntitiesLinked)
    ensures v == Stop <==> r.status != 200 && r.status != 202
    ensures v == Retry <==> r.status == 202 && r.payloadStatus != EntitiesLinked
  {
    if r.status == 200 || (r.status == 202 && r.payloadStatus == EntitiesLinked) then Success
    else if r.status != 202 then Stop
    else Retry
  }

  /**
    How polling ends: the callback receives response `attempt`; polling stops
    silently at response `attempt`; the error is shown after the budget is spent;
    or the given responses run out before `attempt` is answered.
  */
  datatype PollOutcome = Delivered(attempt: nat) | Halted(attempt: nat) | GaveUp | Unanswered(attempt: nat)

  /** The index of the first response that is not a retry, or `|rs|`. */
  function FirstNonRetry(rs: seq<StatusResponse>): (j: nat)
    ensures j <= |rs|
    ensures forall k :: 0 <= k < j ==> Classify(rs[k]) == Retry
    ensures j < |rs| ==> Classify(rs[j]) != Retry
    decreases |rs|
  {
    if |rs| == 0 || Classify(rs[0]) != Retry then 0 else 1 + FirstNonRetry(rs[1..])
  }

  /** The specification of polling over the responses the service would give. */
  function Expected(rs: seq<StatusResponse>): PollOutcome {
    var j := FirstNonRetry(rs);
    if j >= MaxAttempts then GaveUp
    else if j == |rs| then Unanswered(j)
    else if Classify(rs[j]) == Success then Delivered(j)
    else Halted(j)
  }

  /**
    poll: the recursion `pollAgain` as a loop. `attemptsLeft` starts at ten,
    each retry takes one, and no request is made once it reaches zero.
    `requests` counts the status requests that were answered.
  */
  method Poll(responses: seq<StatusResponse>) returns (outcome: PollOutcome, requests: nat)
    ensures outcome == Expected(responses)
    ensures requests <= MaxAttempts && requests <= |responses|
    ensures requests == match outcome
      case Delivered(k) => k + 1
      case Halted(k) => k + 1
      case GaveUp => MaxAttempts
      case Unanswered(k) => k
  {
    var attemptsLeft := MaxAttempts;
    requests := 0;
    var done := false;
    outcome := GaveUp;
    while !done
      invariant 0 <= attemptsLeft <= MaxAttempts
      invariant !done ==> requests == MaxAttempts - attemptsLeft && requests <= |responses|
      invariant !done ==> forall k :: 0 <= k < requests ==> Classify(responses[k]) == Retry
      invariant done ==> outcome == Expected(responses)
      invariant done ==> requests == match outcome
        case Delivered(k) => k + 1
        case Halted(k) => k + 1
        case GaveUp => MaxAttempts
        case Unanswered(k) => k
      decreases attemptsLeft, !done
    {
      if attemptsLeft > 0 {
        if requests == |responses| {
          outcome, done := Unanswered(requests), true;
        } else {
          var response := responses[requests];
          requests := requests + 1;
          var verdict := Classify(response);
          if verdict == Success {
            outcome, done := Delivered(requests - 1), true;
          } else if verdict == Stop {
            outcome, done := Halted(requests - 1), true;
          } else {
            attemptsLeft := attemptsLeft - 1;
          }
        }
      } else {
        outcome, done := GaveUp, true;
      }
    }
  }

  // ---------------------------------------------------------- properties

  /** The callback receives a response exactly when it is the first non-retry, a success, within the budget. */
  lemma {:induction false} DeliveredIff(rs: seq<StatusResponse>, k: nat)
    ensures Expected(rs) == Delivered(k) <==>
      k < MaxAttempts && k < |rs| && Classify(rs[k]) == Success
      && forall j :: 0 <= j < k ==> Classify(rs[j]) == Retry
  {
  }

  /** Polling gives up exactly when the first ten responses are all retries. */
  lemma GaveUpIff(rs: seq<StatusResponse>)
    ensures Expected(rs) == GaveUp <==>
      |rs| >= MaxAttempts && forall j :: 0 <= j < MaxAttempts ==> Classify(rs[j]) == Retry
  {
  }

  /** A status other than 200 and 202 ends polling without the callback or the error. */
  lemma HaltedIff(rs: seq<StatusResponse>, k: nat)
    ensures Expected(rs) == Halted(k) <==>
      k < MaxAttempts && k < |rs| && rs[k].status != 200 && rs[k].status != 202
      && forall j :: 0 <= j < k ==> Classify(rs[j]) == Retry
  {
  }

  /** Ten answers "Entities Extracted" end in the error; a link on the third attempt is delivered. */
  lemma PollExamples()
    ensures Expected(seq(10, _ => StatusResponse(202, "Entities Extracted"))) == GaveUp
    ensures Expected([StatusResponse(202, "Entities Extracted"), StatusResponse(202, "Entities Extracted"),
                      StatusResponse(202, EntitiesLinked)]) == Delivered(2)
  {
    GaveUpIff(seq(10, _ => StatusResponse(202, "Entities Extracted")));
    DeliveredIff([StatusResponse(202, "Entities Extracted"), StatusResponse(202, "Entities Extracted"),
                  StatusResponse(202, EntitiesLinked)], 2);
  }
}
