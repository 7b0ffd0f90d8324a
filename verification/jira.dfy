/** `createJiraIssue` of main.go: the payload it posts and how it reads the reply. */
module Jira {
  import opened Wrappers
  import opened Errors
  import opened Decimal
  import opened GitHub

  const ProjectKey := "GT"
  const IssueType := "Task"
  const SummaryPrefix := "GitHub Issue #"
  const DescriptionPrefix := "Imported from GitHub: "
  const SummaryHeading := "\n\nSummarized Description:\n"
  const StatusErrorText := "Jira API responded with status "

  /** The `fields` object of the JSON document posted to `/rest/api/2/issue`. */
  datatype Payload = Payload(projectKey: string, summary: string, description: string, issueType: string)

  /**
   * What the HTTP exchange yielded: a failure before any response (building the
   * request or `client.Do`), or a response with its code, status line and body.
   */
  datatype HttpReply =
    | TransportError(err: Error)
    | Response(statusCode: int, status: string, body: string)

  /** The payload that was posted and the error `createJiraIssue` returned (`None` for nil). */
  datatype JiraCall = JiraCall(payload: Payload, err: Option<Error>)

  /** The status check of `createJiraIssue`: a response with a 2xx status code. */
  predicate Succeeded(reply: HttpReply)
  {
    reply.Response? && 200 <= reply.statusCode < 300
  }

  /** Position of the first `c` in `s`, or `|s|` when there is none. */
  function IndexOf(s: string, c: char): (k: nat)
    ensures k <= |s|
    ensures k < |s| ==> s[k] == c
    ensures forall j :: 0 <= j < k ==> s[j] != c
  {
    if s == [] then 0 else if s[0] == c then 0 else 1 + IndexOf(s[1..], c)
  }

  /** The `summary` field: `"GitHub Issue #%d: %s"` of the issue number and title. */
  function SummaryLine(number: int, title: string): string
  {
    SummaryPrefix + IntToString(number) + ": " + title
  }

  /** The `description` field: the issue's URL, a heading, then the generated summary. */
  function Description(url: string, summary: string): string
  {
    DescriptionPrefix + url + SummaryHeading + summary
  }

  /** Reads a summary line back into the issue number and title. */
  function ParseSummaryLine(s: string): Option<(int, string)>
  {
    if |s| < |SummaryPrefix| || s[..|SummaryPrefix|] != SummaryPrefix then None
    else
      var rest := s[|SummaryPrefix|..];
      var k := IndexOf(rest, ':');
      if k + 2 <= |rest| && rest[k + 1] == ' ' then
        match ParseInt(rest[..k])
        case None => None
        case Some(n) => Some((n, rest[k + 2..]))
      else None
  }

  /** Reads a description back into the URL (up to the first line break) and the summary. */
  function ParseDescription(s: string): Option<(string, string)>
  {
    if |s| < |DescriptionPrefix| || s[..|DescriptionPrefix|] != DescriptionPrefix then None
    else
      var rest := s[|DescriptionPrefix|..];
      var k := IndexOf(rest, '\n');
      if k + |SummaryHeading| <= |rest| && rest[k..k + |SummaryHeading|] == SummaryHeading then
        Some((rest[..k], rest[k + |SummaryHeading|..]))
      else None
  }

  /** The summary line determines the issue number and title it was built from. */
  lemma SummaryLineRoundTrip(number: int, title: string)
    ensures ParseSummaryLine(SummaryLine(number, title)) == Some((number, title))
  {
    var digits := IntToString(number);
    var s := SummaryLine(number, title);
    assert s[..|SummaryPrefix|] == SummaryPrefix;
    var rest := s[|SummaryPrefix|..];
    assert rest == digits + [':'] + " " + title;
    IntToStringHasNo(number, ':');
    assert rest[|digits|] == ':';
    assert IndexOf(rest, ':') == |digits|;
    assert rest[..|digits|] == digits;
    IntToStringRoundTrip(number);
    assert rest[|digits| + 2..] == title;
  }

  /**
   * The description starts with the prefix and the URL and ends with the summary; when
   * the URL holds no line break, both can be read back out of it.
   */
  lemma DescriptionRoundTrip(url: string, summary: string)
    ensures |Description(url, summary)| >= |DescriptionPrefix| + |url| + |summary|
    ensures Description(url, summary)[..|DescriptionPrefix| + |url|] == DescriptionPrefix + url
    ensures Description(url, summary)[|Description(url, summary)| - |summary|..] == summary
    ensures '\n' !in url ==> ParseDescription(Description(url, summary)) == Some((url, summary))
  {
    var s := Description(url, summary);
    assert s[..|DescriptionPrefix| + |url|] == DescriptionPrefix + url;
    assert s[|s| - |summary|..] == summary;
    if '\n' !in url {
      assert s[..|DescriptionPrefix|] == DescriptionPrefix;
      var rest := s[|DescriptionPrefix|..];
      assert rest == url + SummaryHeading + summary;
      assert rest[|url|] == '\n';
      assert IndexOf(rest, '\n') == |url|;
      assert rest[..|url|] == url;
      assert rest[|url|..|url| + |SummaryHeading|] == SummaryHeading;
      assert rest[|url| + |SummaryHeading|..] == summary;
    }
  }

  /**
   * The payload built for an issue: fixed project key and issue type, a summary line
   * that identifies the issue, and a description carrying its URL and the summary.
   */
  function BuildPayload(issue: Issue, summary: string): (p: Payload)
    ensures p.projectKey == ProjectKey && p.issueType == IssueType
    ensures ParseSummaryLine(p.summary) == Some((issue.number, issue.title))
    ensures |p.description| >= |DescriptionPrefix| + |issue.htmlURL| + |summary|
    ensures p.description[..|DescriptionPrefix| + |issue.htmlURL|] == DescriptionPrefix + issue.htmlURL
    ensures p.description[|p.description| - |summary|..] == summary
    ensures '\n' !in issue.htmlURL ==> ParseDescription(p.description) == Some((issue.htmlURL, summary))
  {
    SummaryLineRoundTrip(issue.number, issue.title);
    DescriptionRoundTrip(issue.htmlURL, summary);
    Payload(ProjectKey, SummaryLine(issue.number, issue.title), Description(issue.htmlURL, summary), IssueType)
  }

  /**
   * `createJiraIssue(issue, summary)` given the reply the Jira server gave: success
   * exactly for a 2xx status; transport errors are passed through unchanged; any other
   * status becomes an error naming the status line.
   */
  function CreateJiraIssue(issue: Issue, summary: string, reply: HttpReply): (r: JiraCall)
    ensures r.payload == BuildPayload(issue, summary)
    ensures r.err.None? <==> reply.Response? && 200 <= reply.statusCode < 300
    ensures reply.TransportError? ==> r.err == Some(reply.err)
    ensures reply.Response? && r.err.Some? ==> r.err.value.Message() == StatusErrorText + reply.status
  {
    var payload := BuildPayload(issue, summary);
    match reply
    case TransportError(err) => JiraCall(payload, Some(err))
    case Response(code, status, _) =>
      if 200 <= code < 300 then JiraCall(payload, None)
      else JiraCall(payload, Some(Cause(StatusErrorText + status)))
  }

  /** The payload for issue #42 "Crash on save". */
  lemma PayloadExample(url: string)
    ensures BuildPayload(Issue(7, 42, "Crash on save", "steps...", url, false), "S").summary
      == "GitHub Issue #42: Crash on save"
  {
    assert DigitChar(4) == '4' && DigitChar(2) == '2';
    assert NatToString(42) == NatToString(4) + [DigitChar(2)];
    assert IntToString(42) == "42";
    assert SummaryLine(42, "Crash on save") == "GitHub Issue #42: Crash on save";
  }
}
