/**
 * The decision part of `check_one`: from what one page load produced (a status, the page
 * text, or the exception that cut it short) to the `(url, status, reason)` triple, where a
 * missing reason means the target is healthy.
 */
module Probe {
  import opened Wrappers
  import opened Text

  const KeywordTag := "KEYWORD:"
  const ErrorTag := "ERROR:"
  const TimeoutReason := "TIMEOUT"
  const NotFoundReason := "HTTP_404"

  /**
   * What the browser reported for one attempt. `Loaded` holds the navigation response status
   * (none when navigation gave no response) and the page's HTML; the two exceptional ends
   * hold the status recorded before the exception, if navigation had already returned.
   */
  datatype Attempt =
    | Loaded(response: Option<int>, html: string)
    | TimedOut(statusSeen: Option<int>)
    | Raised(errorName: string, statusSeen: Option<int>)

  /** What `check_one` returns. */
  datatype ProbeResult = ProbeResult(url: string, status: Option<int>, reason: Option<string>)

  /** The first keyword, in list order, that occurs in `low`. */
  function FirstKeyword(keywords: seq<string>, low: string): (r: Option<string>)
    ensures r.None? <==> forall i :: 0 <= i < |keywords| ==> !Contains(low, keywords[i])
    ensures r.Some? ==> exists i :: && 0 <= i < |keywords| && keywords[i] == r.value
                                   && Contains(low, keywords[i])
                                   && forall j :: 0 <= j < i ==> !Contains(low, keywords[j])
    decreases |keywords|
  {
    if keywords == [] then None
    else if Contains(low, keywords[0]) then Some(keywords[0])
    else
      var r := FirstKeyword(keywords[1..], low);
      assert forall i :: 0 < i < |keywords| ==> keywords[1..][i - 1] == keywords[i];
      r
  }

  /**
   * The reason a page with `html` and `status` fails by. A keyword in the lower-cased page
   * decides the reason whatever the status, and the earliest such keyword in the list wins;
   * without one, 404 and then 500-or-above are failures and every other status (or none)
   * is a success.
   */
  function PageReason(keywords: seq<string>, status: Option<int>, html: string): (r: Option<string>)
    ensures forall i ::
      && 0 <= i < |keywords| && Contains(Lower(html), keywords[i])
      && (forall j :: 0 <= j < i ==> !Contains(Lower(html), keywords[j]))
      ==> r == Some(KeywordTag + keywords[i])
    ensures (forall i :: 0 <= i < |keywords| ==> !Contains(Lower(html), keywords[i])) ==>
      && (status == Some(404) ==> r == Some(NotFoundReason))
      && (status.Some? && status.value >= 500 ==> r == Some("HTTP_" + IntToString(status.value)))
      && (status != Some(404) && !(status.Some? && status.value >= 500) ==> r == None)
  {
    match FirstKeyword(keywords, Lower(html))
    case Some(k) => Some(KeywordTag + k)
    case None =>
      if status == Some(404) then Some(NotFoundReason)
      else if status.Some? && status.value >= 500 then Some("HTTP_" + IntToString(status.value))
      else None
  }

  /** The keyword loop of `check_one`: stops at the first keyword found in `low`. */
  method ScanKeywords(keywords: seq<string>, low: string) returns (reason: Option<string>)
    ensures reason == match FirstKeyword(keywords, low)
                      case Some(k) => Some(KeywordTag + k)
                      case None => None
  {
    reason := None;
    var i := 0;
    while i < |keywords|
      invariant 0 <= i <= |keywords|
      invariant FirstKeyword(keywords, low) == FirstKeyword(keywords[i..], low)
    {
      if Contains(low, keywords[i]) {
        reason := Some(KeywordTag + keywords[i]);
        break;
      }
      assert keywords[i..][1..] == keywords[i + 1..];
      i := i + 1;
    }
  }

  /** The triple `check_one` returns for `url` after `attempt`. */
  function Outcome(keywords: seq<string>, url: string, attempt: Attempt): ProbeResult
  {
    match attempt
    case Loaded(status, html) => ProbeResult(url, status, PageReason(keywords, status, html))
    case TimedOut(status) => ProbeResult(url, status, Some(TimeoutReason))
    case Raised(name, status) => ProbeResult(url, status, Some(ErrorTag + name))
  }

  /**
   * `check_one` once the browser has answered: lower-case the page, scan it for keywords,
   * fall back to the status; a timeout or any other exception becomes its own reason.
   */
  method CheckOne(keywords: seq<string>, url: string, attempt: Attempt) returns (res: ProbeResult)
    ensures res == Outcome(keywords, url, attempt)
  {
    match attempt
    case Loaded(status, html) =>
      var low := Lower(html);
      var reason := ScanKeywords(keywords, low);
      if reason == None {
        if status == Some(404) {
          reason := Some(NotFoundReason);
        } else if status.Some? && status.value >= 500 {
          reason := Some("HTTP_" + IntToString(status.value));
        }
      }
      res := ProbeResult(url, status, reason);
    case TimedOut(status) =>
      res := ProbeResult(url, status, Some(TimeoutReason));
    case Raised(name, status) =>
      res := ProbeResult(url, status, Some(ErrorTag + name));
  }

  /**
   * An attempt counts as a success exactly when the page loaded, no keyword occurs in it,
   * and its status is neither 404 nor 500 or above.
   */
  lemma {:induction false} SuccessIff(keywords: seq<string>, url: string, attempt: Attempt)
    ensures Outcome(keywords, url, attempt).reason.None? <==>
      && attempt.Loaded?
      && (forall i :: 0 <= i < |keywords| ==> !Contains(Lower(attempt.html), keywords[i]))
      && attempt.response != Some(404)
      && !(attempt.response.Some? && attempt.response.value >= 500)
  {
  }

  /** Only an attempt that raised something other than a timeout yields an `ERROR:` reason. */
  lemma ErrorReasonIff(keywords: seq<string>, url: string, attempt: Attempt)
    ensures var r := Outcome(keywords, url, attempt).reason;
      r.Some? && ErrorTag <= r.value <==> attempt.Raised?
  {
    var r := Outcome(keywords, url, attempt).reason;
    assert ErrorTag[0] == 'E';
    match attempt
    case Loaded(status, html) =>
      if r.Some? {
        assert r.value[0] == 'K' || r.value[0] == 'H';
      }
    case TimedOut(_) =>
      assert r.value[0] == 'T';
    case Raised(name, _) =>
      assert r.value == ErrorTag + name;
  }
}
