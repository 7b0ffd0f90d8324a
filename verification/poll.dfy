/**
 * `pollGitHub` of main.go: one poll cycle over the open-issue listing, consulting and
 * updating the package-level ledger `processedIssueIDs`.
 *
 * The GitHub listing, the summarizer's event stream and the Jira reply are oracle
 * inputs: `Listing` is what `Issues.ListByRepo` returned, and for the i-th listed issue
 * `fates[i]` holds the events its summary call observed and the reply its creation got.
 */
module Poll {
  import opened Wrappers
  import opened Errors
  import opened GitHub
  import opened Jira
  import S = Summarizer

  /** The head and tail around the `%s` of the prompt template main.go formats with the body. */
  const IssuePromptHead := "Please analyze this GitHub issue description and create a clear, concise summary:\n\n"
  const IssuePromptTail := "\n\nPlease format the response as follows:\n1. Brief overview (1-2 sentences)\n2. Key points (bullet points)\n3. Technical details (if any)\n4. Impact and dependencies (if mentioned)"

  /** What `Issues.ListByRepo` returned. */
  datatype Listing = ListFailed(err: Error) | Listed(issues: seq<Issue>)

  /** What the outside world answered for one listed issue. */
  datatype IssueIO = IssueIO(summaryTrace: S.Trace, jiraReply: HttpReply)

  /**
   * The observable outcome of a cycle: the ledger afterwards, the IDs whose summary was
   * requested, whose Jira creation was attempted, and whose creation succeeded, each in
   * order; `halted` when `log.Fatalf` ended the process.
   */
  datatype Report = Report(
    ledger: map<int, bool>,
    summarized: seq<int>,
    attempted: seq<int>,
    created: seq<int>,
    halted: bool)

  /**
   * The template main.go passes to `SummarizeWithCustomPrompt`. Its format string holds
   * exactly one `%s` and no other verb, so `fmt.Sprintf` puts the body in its place.
   */
  function IssuePrompt(body: string): (t: string)
    ensures t != "" && S.EffectiveTemplate(t) == t
    ensures |t| == |IssuePromptHead| + |body| + |IssuePromptTail| && t[|IssuePromptHead|..|IssuePromptHead| + |body|] == body
  {
    IssuePromptHead + body + IssuePromptTail
  }

  /** `processedIssueIDs[id]`: a missing key reads as false. */
  function IsProcessed(ledger: map<int, bool>, id: int): bool
  {
    id in ledger && ledger[id]
  }

  /** The IDs of `issues`, in order. */
  function Ids(issues: seq<Issue>): seq<int>
  {
    if issues == [] then [] else [issues[0].id] + Ids(issues[1..])
  }

  /**
   * The two facts about one issue's exchanges that steer the cycle: whether its summary
   * call returns an error, and whether Jira answers its creation with a 2xx status.
   */
  datatype Fate = Fate(summaryFails: bool, replySucceeds: bool)
  {
    /** Summary generation and Jira creation both succeed for this issue. */
    predicate CreationSucceeds()
    {
      !summaryFails && replySucceeds
    }
  }

  function FateOf(io: IssueIO): Fate
  {
    Fate(S.Collected(io.summaryTrace).1.Some?, Succeeded(io.jiraReply))
  }

  function Fates(io: seq<IssueIO>): (fates: seq<Fate>)
    ensures |fates| == |io|
    ensures forall i :: 0 <= i < |io| ==> fates[i] == FateOf(io[i])
  {
    seq(|io|, i requires 0 <= i < |io| => FateOf(io[i]))
  }

  predicate NoDuplicates(ids: seq<int>)
  {
    forall i, j :: 0 <= i < j < |ids| ==> ids[i] != ids[j]
  }

  function Prepend(summarized: seq<int>, attempted: seq<int>, created: seq<int>, r: Report): Report
  {
    r.(summarized := summarized + r.summarized, attempted := attempted + r.attempted, created := created + r.created)
  }

  /** Prepending in two steps is prepending the concatenations. */
  lemma PrependTwice(s0: seq<int>, a0: seq<int>, c0: seq<int>, s1: seq<int>, a1: seq<int>, c1: seq<int>, r: Report)
    ensures Prepend(s0, a0, c0, Prepend(s1, a1, c1, r)) == Prepend(s0 + s1, a0 + a1, c0 + c1, r)
  {
    assert s0 + (s1 + r.summarized) == (s0 + s1) + r.summarized;
    assert a0 + (a1 + r.attempted) == (a0 + a1) + r.attempted;
    assert c0 + (c1 + r.created) == (c0 + c1) + r.created;
  }

  /** The next ledger after one issue whose summary succeeded. */
  function StepLedger(ledger: map<int, bool>, id: int, fate: Fate): map<int, bool>
  {
    if !IsProcessed(ledger, id) && fate.replySucceeds then ledger[id := true] else ledger
  }

  /** One loop iteration of `pollGitHub` past an issue whose summary succeeded. */
  lemma ScanAdvance(start: map<int, bool>, issues: seq<Issue>, fates: seq<Fate>, i: nat,
                    s: seq<int>, a: seq<int>, c: seq<int>, ledger: map<int, bool>)
    requires |fates| == |issues| && i < |issues|
    requires !issues[i].isPullRequest && !fates[i].summaryFails
    requires Scan(start, issues, fates) == Prepend(s, a, c, Scan(ledger, issues[i..], fates[i..]))
    ensures var id := issues[i].id;
      var unmarked := !IsProcessed(ledger, id);
      Scan(start, issues, fates) == Prepend(s + [id], if unmarked then a + [id] else a,
        if unmarked && fates[i].replySucceeds then c + [id] else c,
        Scan(StepLedger(ledger, id, fates[i]), issues[i + 1..], fates[i + 1..]))
  {
    var id := issues[i].id;
    assert issues[i..][1..] == issues[i + 1..] && fates[i..][1..] == fates[i + 1..];
    assert issues[i..][0] == issues[i] && fates[i..][0] == fates[i];
    var next := Scan(StepLedger(ledger, id, fates[i]), issues[i + 1..], fates[i + 1..]);
    if IsProcessed(ledger, id) {
      assert Scan(ledger, issues[i..], fates[i..]) == Prepend([id], [], [], next);
      PrependTwice(s, a, c, [id], [], [], next);
    } else if fates[i].replySucceeds {
      assert Scan(ledger, issues[i..], fates[i..]) == Prepend([id], [id], [id], next);
      PrependTwice(s, a, c, [id], [id], [id], next);
    } else {
      assert Scan(ledger, issues[i..], fates[i..]) == Prepend([id], [id], [], next);
      PrependTwice(s, a, c, [id], [id], [], next);
    }
  }

  /**
   * The loop of `pollGitHub` over the listed issues, one issue at a time: stop at a pull
   * request; request a summary; halt on a summary error; otherwise, unless the ledger
   * already marks the ID, create the Jira issue and mark the ID when that succeeds.
   */
  function Scan(ledger: map<int, bool>, issues: seq<Issue>, fates: seq<Fate>): Report
    requires |fates| == |issues|
    decreases |issues|
  {
    if issues == [] || issues[0].isPullRequest then Report(ledger, [], [], [], false)
    else
      var id := issues[0].id;
      if fates[0].summaryFails then Report(ledger, [id], [], [], true)
      else if IsProcessed(ledger, id) then Prepend([id], [], [], Scan(ledger, issues[1..], fates[1..]))
      else if fates[0].replySucceeds then
        Prepend([id], [id], [id], Scan(ledger[id := true], issues[1..], fates[1..]))
      else Prepend([id], [id], [], Scan(ledger, issues[1..], fates[1..]))
  }

  /** A whole cycle: a failed listing ends it at once. */
  function Cycle(ledger: map<int, bool>, listing: Listing, io: seq<IssueIO>): Report
    requires listing.Listed? ==> |io| == |listing.issues|
  {
    match listing
    case ListFailed(_) => Report(ledger, [], [], [], false)
    case Listed(issues) => Scan(ledger, issues, Fates(io))
  }

  /** The package state of main.go that outlives a cycle. */
  class Poller {
    var processedIssueIDs: map<int, bool>
    const sum: S.Summarizer

    constructor (sum: S.Summarizer)
      ensures processedIssueIDs == map[] && this.sum == sum
    {
      processedIssueIDs := map[];
      this.sum := sum;
    }

    /** One call of `pollGitHub`. */
    method PollGitHub(listing: Listing, io: seq<IssueIO>)
      returns (summarized: seq<int>, attempted: seq<int>, created: seq<int>, halted: bool)
      requires listing.Listed? ==> |io| == |listing.issues|
      modifies this
      ensures Report(processedIssueIDs, summarized, attempted, created, halted)
        == Cycle(old(processedIssueIDs), listing, io)
      ensures listing.ListFailed? ==>
        processedIssueIDs == old(processedIssueIDs) && attempted == [] && summarized == [] && !halted
      ensures forall id :: IsProcessed(old(processedIssueIDs), id) ==> IsProcessed(processedIssueIDs, id)
      ensures forall id :: id in attempted ==> !IsProcessed(old(processedIssueIDs), id)
    {
      summarized, attempted, created, halted := [], [], [], false;
      if listing.ListFailed? {
        return;
      }
      var issues := listing.issues;
      ghost var start := processedIssueIDs;
      ghost var fates := Fates(io);
      var i := 0;
      assert issues[0..] == issues && fates[0..] == fates;
      while i < |issues|
        invariant i <= |issues|
        invariant Scan(start, issues, fates)
          == Prepend(summarized, attempted, created, Scan(processedIssueIDs, issues[i..], fates[i..]))
      {
        ScanStep(processedIssueIDs, issues[i..], fates[i..]);
        assert issues[i..][0] == issues[i] && fates[i..][0] == fates[i] == FateOf(io[i]);
        var issue := issues[i];
        if issue.isPullRequest {
          break;
        }
        var _, summary, err := S.SummarizeWithCustomPrompt(sum, issue.body, IssuePrompt(issue.body), io[i].summaryTrace);
        if err.Some? {
          // log.Fatalf: the process exits here.
          summarized := summarized + [issue.id];
          halted := true;
          break;
        }
        ScanAdvance(start, issues, fates, i, summarized, attempted, created, processedIssueIDs);
        summarized := summarized + [issue.id];
        if !IsProcessed(processedIssueIDs, issue.id) {
          attempted := attempted + [issue.id];
          var call := CreateJiraIssue(issue, summary, io[i].jiraReply);
          if call.err.None? {
            processedIssueIDs := processedIssueIDs[issue.id := true];
            created := created + [issue.id];
          }
        }
        i := i + 1;
      }
      ScanLedgerGrows(start, issues, fates);
      ScanAttemptsOnlyUnprocessed(start, issues, fates);
    }
  }

  // ---------------------------------------------------------------------------
  // Properties of a cycle

  /** Unfolds `Scan` once over a non-empty listing; it exists only to hand that step to the loop of `PollGitHub`. */
  lemma ScanStep(ledger: map<int, bool>, issues: seq<Issue>, fates: seq<Fate>)
    requires |fates| == |issues| && issues != []
    ensures var id := issues[0].id;
      Scan(ledger, issues, fates) ==
        if issues[0].isPullRequest then Report(ledger, [], [], [], false)
        else if fates[0].summaryFails then Report(ledger, [id], [], [], true)
        else if IsProcessed(ledger, id) then Prepend([id], [], [], Scan(ledger, issues[1..], fates[1..]))
        else if fates[0].replySucceeds then Prepend([id], [id], [id], Scan(ledger[id := true], issues[1..], fates[1..]))
        else Prepend([id], [id], [], Scan(ledger, issues[1..], fates[1..]))
  {
  }

  /**
   * Mark only on success, and nothing else changes: every created ID ends up marked, and
   * every other entry of the ledger is exactly as before.
   */
  lemma {:induction false} ScanLedger(ledger: map<int, bool>, issues: seq<Issue>, fates: seq<Fate>)
    requires |fates| == |issues|
    ensures forall id :: id in Scan(ledger, issues, fates).created ==>
      id in Scan(ledger, issues, fates).ledger && Scan(ledger, issues, fates).ledger[id]
    ensures forall id :: id !in Scan(ledger, issues, fates).created ==>
      (id in Scan(ledger, issues, fates).ledger <==> id in ledger)
    ensures forall id :: id !in Scan(ledger, issues, fates).created && id in ledger ==>
      Scan(ledger, issues, fates).ledger[id] == ledger[id]
    decreases |issues|
  {
    if issues != [] && !issues[0].isPullRequest {
      var id := issues[0].id;
      if !fates[0].summaryFails {
        if IsProcessed(ledger, id) {
          ScanLedger(ledger, issues[1..], fates[1..]);
        } else if fates[0].replySucceeds {
          ScanLedger(ledger[id := true], issues[1..], fates[1..]);
        } else {
          ScanLedger(ledger, issues[1..], fates[1..]);
        }
      }
    }
  }

  /**
   * The ledger only grows: no key is removed, no `true` entry is cleared, and every entry
   * that is new or changed is `true`.
   */
  lemma ScanLedgerGrows(ledger: map<int, bool>, issues: seq<Issue>, fates: seq<Fate>)
    requires |fates| == |issues|
    ensures forall id :: id in ledger ==>
      id in Scan(ledger, issues, fates).ledger && (ledger[id] ==> Scan(ledger, issues, fates).ledger[id])
    ensures forall id :: id in Scan(ledger, issues, fates).ledger && !(id in ledger && Scan(ledger, issues, fates).ledger[id] == ledger[id]) ==>
      Scan(ledger, issues, fates).ledger[id]
  {
    ScanLedger(ledger, issues, fates);
  }

  /**
   * No duplicate creation: an ID already marked is never attempted, every created ID was
   * attempted, and within one cycle an ID is created at most once.
   */
  lemma {:induction false} ScanAttemptsOnlyUnprocessed(ledger: map<int, bool>, issues: seq<Issue>, fates: seq<Fate>)
    requires |fates| == |issues|
    ensures forall id :: id in Scan(ledger, issues, fates).attempted ==> !IsProcessed(ledger, id)
    ensures forall id :: id in Scan(ledger, issues, fates).created ==> id in Scan(ledger, issues, fates).attempted
    ensures NoDuplicates(Scan(ledger, issues, fates).created)
    decreases |issues|
  {
    if issues != [] && !issues[0].isPullRequest && !fates[0].summaryFails {
      var id := issues[0].id;
      var r := Scan(ledger, issues, fates);
      if IsProcessed(ledger, id) {
        ScanAttemptsOnlyUnprocessed(ledger, issues[1..], fates[1..]);
      } else if fates[0].replySucceeds {
        var marked := ledger[id := true];
        var rest := Scan(marked, issues[1..], fates[1..]);
        ScanAttemptsOnlyUnprocessed(marked, issues[1..], fates[1..]);
        assert IsProcessed(marked, id);
        assert forall x :: !IsProcessed(marked, x) ==> x != id && !IsProcessed(ledger, x);
        assert r.attempted == [id] + rest.attempted && r.created == [id] + rest.created;
        assert id !in rest.attempted && id !in rest.created;
        assert forall j :: 0 < j < |r.created| ==> r.created[j] == rest.created[j - 1] && r.created[j] in rest.created;
      } else {
        var rest := Scan(ledger, issues[1..], fates[1..]);
        ScanAttemptsOnlyUnprocessed(ledger, issues[1..], fates[1..]);
        assert r.attempted == [id] + rest.attempted && r.created == rest.created;
      }
    }
  }

  /** Every created ID belongs to a listed issue whose summary and Jira creation both succeeded. */
  lemma {:induction false} ScanCreatesOnlyOnSuccess(ledger: map<int, bool>, issues: seq<Issue>, fates: seq<Fate>)
    requires |fates| == |issues|
    ensures forall id :: id in Scan(ledger, issues, fates).created ==>
        exists j :: 0 <= j < |issues| && issues[j].id == id && fates[j].CreationSucceeds()
    decreases |issues|
  {
    if issues != [] && !issues[0].isPullRequest && !fates[0].summaryFails {
      var id := issues[0].id;
      var r := Scan(ledger, issues, fates);
      var marked := if !IsProcessed(ledger, id) && fates[0].replySucceeds then ledger[id := true] else ledger;
      var rest := Scan(marked, issues[1..], fates[1..]);
      ScanCreatesOnlyOnSuccess(marked, issues[1..], fates[1..]);
      assert r.created == rest.created || (r.created == [id] + rest.created && fates[0].CreationSucceeds());
      forall x | x in r.created
        ensures exists j :: 0 <= j < |issues| && issues[j].id == x && fates[j].CreationSucceeds()
      {
        if x in rest.created {
          var j :| 0 <= j < |issues[1..]| && issues[1..][j].id == x && fates[1..][j].CreationSucceeds();
          assert issues[j + 1] == issues[1..][j] && fates[j + 1] == fates[1..][j];
        } else {
          assert issues[0].id == x && fates[0].CreationSucceeds();
        }
      }
    }
  }

  /**
   * The scan stops at a pull request: nothing at or after it influences the cycle, even
   * issues listed after it.
   */
  lemma {:induction false} ScanStopsAtPullRequest(ledger: map<int, bool>, issues: seq<Issue>, fates: seq<Fate>, k: nat)
    requires |fates| == |issues|
    requires k < |issues| && issues[k].isPullRequest
    ensures Scan(ledger, issues, fates) == Scan(ledger, issues[..k], fates[..k])
    decreases k
  {
    if k > 0 && !issues[0].isPullRequest {
      assert issues[..k][1..] == issues[1..][..k - 1] && fates[..k][1..] == fates[1..][..k - 1];
      assert issues[..k][0] == issues[0] && fates[..k][0] == fates[0];
      var id := issues[0].id;
      if !fates[0].summaryFails {
        var ledger' := if !IsProcessed(ledger, id) && fates[0].replySucceeds
          then ledger[id := true] else ledger;
        ScanStopsAtPullRequest(ledger', issues[1..], fates[1..], k - 1);
      }
    }
  }

  /**
   * Every issue reached is summarized before the ledger check, marked or not: when no
   * pull request and no summary error intervene, all listed IDs are summarized in order.
   */
  lemma {:induction false} ScanSummarizesEveryIssue(ledger: map<int, bool>, issues: seq<Issue>, fates: seq<Fate>)
    requires |fates| == |issues|
    requires forall j :: 0 <= j < |issues| ==> !issues[j].isPullRequest && !fates[j].summaryFails
    ensures !Scan(ledger, issues, fates).halted
    ensures Scan(ledger, issues, fates).summarized == Ids(issues)
    decreases |issues|
  {
    if issues != [] {
      var id := issues[0].id;
      var ledger' := if !IsProcessed(ledger, id) && fates[0].replySucceeds
        then ledger[id := true] else ledger;
      assert !issues[0].isPullRequest && !fates[0].summaryFails;
      var rest := Scan(ledger', issues[1..], fates[1..]);
      assert Scan(ledger, issues, fates).summarized == [id] + rest.summarized;
      ScanSummarizesEveryIssue(ledger', issues[1..], fates[1..]);
      assert Ids(issues) == [id] + Ids(issues[1..]);
    }
  }

  /**
   * A summary error halts the process: the failing issue is the last one summarized, and
   * it and every later issue are never attempted; the ledger and the attempts are those
   * of the issues before it.
   */
  lemma {:induction false} ScanHaltsOnSummaryError(ledger: map<int, bool>, issues: seq<Issue>, fates: seq<Fate>, k: nat)
    requires |fates| == |issues|
    requires k < |issues| && !issues[k].isPullRequest && fates[k].summaryFails
    requires forall j :: 0 <= j < k ==> !issues[j].isPullRequest && !fates[j].summaryFails
    ensures Scan(ledger, issues, fates).halted
    ensures Scan(ledger, issues, fates).summarized == Ids(issues[..k + 1])
    ensures Scan(ledger, issues, fates).ledger == Scan(ledger, issues[..k], fates[..k]).ledger
    ensures Scan(ledger, issues, fates).attempted == Scan(ledger, issues[..k], fates[..k]).attempted
    ensures Scan(ledger, issues, fates).created == Scan(ledger, issues[..k], fates[..k]).created
    decreases k
  {
    var id := issues[0].id;
    if k > 0 {
      assert issues[..k][1..] == issues[1..][..k - 1] && fates[..k][1..] == fates[1..][..k - 1];
      assert issues[..k][0] == issues[0] && fates[..k][0] == fates[0];
      assert issues[..k + 1][1..] == issues[1..][..k];
      var ledger' := if !IsProcessed(ledger, id) && fates[0].replySucceeds
        then ledger[id := true] else ledger;
      assert forall j :: 0 <= j < |issues| - 1 ==> issues[1..][j] == issues[j + 1] && fates[1..][j] == fates[j + 1];
      ScanHaltsOnSummaryError(ledger', issues[1..], fates[1..], k - 1);
      assert Ids(issues[..k + 1]) == [id] + Ids(issues[1..][..k]);
    } else {
      assert issues[..1] == [issues[0]];
    }
  }

  /**
   * Idempotence across cycles: an ID created in one cycle, or marked before it, is never
   * attempted again in the next cycle, whatever that cycle lists.
   */
  lemma NextCycleSkipsCreated(
    ledger: map<int, bool>, issues1: seq<Issue>, fates1: seq<Fate>, issues2: seq<Issue>, fates2: seq<Fate>)
    requires |fates1| == |issues1| && |fates2| == |issues2|
    ensures forall id :: id in Scan(ledger, issues1, fates1).created ==>
      id !in Scan(Scan(ledger, issues1, fates1).ledger, issues2, fates2).attempted
    ensures forall id :: IsProcessed(ledger, id) ==>
      id !in Scan(ledger, issues1, fates1).attempted && id !in Scan(Scan(ledger, issues1, fates1).ledger, issues2, fates2).attempted
  {
    var r1 := Scan(ledger, issues1, fates1);
    assert forall id :: id in r1.created ==> IsProcessed(r1.ledger, id) by {
      ScanLedger(ledger, issues1, fates1);
    }
    assert forall id :: IsProcessed(ledger, id) ==> IsProcessed(r1.ledger, id) by {
      ScanLedgerGrows(ledger, issues1, fates1);
    }
    assert forall id :: IsProcessed(ledger, id) ==> id !in r1.attempted by {
      ScanAttemptsOnlyUnprocessed(ledger, issues1, fates1);
    }
    ScanAttemptsOnlyUnprocessed(r1.ledger, issues2, fates2);
  }
}
