/** The `TestCaseGenerator` component of `client/src/components/New.jsx`
    (routed at `/test`) and of its near-identical copy
    `client/src/components/Test.jsx`: the component state, the generate/poll
    workflow, the screenshot preview, the main-pane choice and the suite text
    of `downloadTestSuite`.

    Network replies are parameters: the trigger's settlement, `poll(i)` for
    the reply to the poll at 0-based attempt `i`, and the screenshot reply.
    Every request and every 6-second delay is appended to `trace` together
    with a snapshot of the busy flags at that moment. */
module Workflow {
  import opened Wrappers

  /** The most poll attempts one generation makes. */
  const MaxAttempts: nat := 30

  /** The delay before each poll, in milliseconds. */
  const PollDelayMs: nat := 6000

  /** A test-case record as the client receives it in the results JSON;
      `code` is read only by `downloadTestSuite`. */
  datatype TestCase = TestCase(
    xpath: string,
    status: string,
    error: Option<string>,
    elementOuterHTML: string,
    code: Option<string>)

  /** A request the component sends, or a fixed delay it waits. */
  datatype Request =
    | GenerateTests(url: string)
    | Delay(ms: nat)
    | FetchResults
    | CaptureScreenshot(url: string)

  /** The component state visible while a request is outstanding. */
  datatype Snapshot = Snapshot(generating: bool, fetchingResults: bool, loadingScreenshot: bool, caseCount: nat)

  datatype Sent = Sent(request: Request, state: Snapshot)

  /** How `fetch` of the trigger settles; its response is never inspected. */
  datatype TriggerReply = Settled | Rejected

  /** How one poll ends: the fetch (or the parsing of its body) throws, the
      response is not ok, or it is ok with a parsed array. */
  datatype PollReply = PollThrows | NotOk | Ok(cases: seq<TestCase>)

  /** How the screenshot request ends. */
  datatype ShotReply = ShotThrows | ShotNotOk | ShotOk(body: seq<bv8>)

  /** An object URL referring to a fetched image body. */
  datatype ObjectUrl = ObjectUrl(blob: seq<bv8>)

  /** A poll reply that ends the loop with results. */
  predicate Hit(r: PollReply) {
    r.Ok? && r.cases != []
  }

  /** A poll reply after which the loop goes on. */
  predicate Continues(r: PollReply) {
    r.NotOk? || (r.Ok? && r.cases == [])
  }

  /** How the poll loop ends: a break at attempt `attempts` (1-based) with
      the non-empty array, all attempts spent with `tests` as left, or an
      exception at attempt `attempts`. */
  datatype PollEnd = Broke(attempts: nat, cases: seq<TestCase>) | Exhausted(tests: seq<TestCase>) | Threw(attempts: nat)

  /** The poll loop from 0-based attempt `i` with local result `tests`. */
  function Poll(poll: nat -> PollReply, i: nat, tests: seq<TestCase>): PollEnd
    decreases MaxAttempts - i
  {
    if i >= MaxAttempts then Exhausted(tests)
    else match poll(i)
      case PollThrows => Threw(i + 1)
      case NotOk => Poll(poll, i + 1, tests)
      case Ok(cases) => if |cases| > 0 then Broke(i + 1, cases) else Poll(poll, i + 1, cases)
  }

  /** The number of poll requests a loop end stands for. */
  function Attempts(e: PollEnd): nat {
    match e
    case Broke(k, _) => k
    case Exhausted(_) => MaxAttempts
    case Threw(k) => k
  }

  /** How the poll loop from attempt `i` with an empty local result ends:
      it breaks at the first attempt whose reply is a hit, throws at the first
      reply that throws, and otherwise runs out after the last attempt with
      the result still empty. */
  lemma {:induction false} PollEnds(poll: nat -> PollReply, i: nat)
    requires i <= MaxAttempts
    ensures match Poll(poll, i, [])
      case Broke(k, c) =>
        i < k <= MaxAttempts && Hit(poll(k - 1)) && c == poll(k - 1).cases
        && forall j :: i <= j < k - 1 ==> Continues(poll(j))
      case Threw(k) =>
        i < k <= MaxAttempts && poll(k - 1).PollThrows?
        && forall j :: i <= j < k - 1 ==> Continues(poll(j))
      case Exhausted(t) =>
        t == [] && forall j :: i <= j < MaxAttempts ==> Continues(poll(j))
    decreases MaxAttempts - i
  {
    if i < MaxAttempts {
      match poll(i)
      case PollThrows =>
      case NotOk =>
        PollEnds(poll, i + 1);
      case Ok(cases) =>
        if |cases| == 0 {
          assert cases == [];
          PollEnds(poll, i + 1);
        }
    }
  }

  /** A hit at 1-based attempt `k`, with every earlier reply continuing the
      loop, ends the loop at attempt `k` with that array. */
  lemma {:induction false} PollFirstHit(poll: nat -> PollReply, i: nat, k: nat)
    requires i < k <= MaxAttempts && Hit(poll(k - 1))
    requires forall j :: i <= j < k - 1 ==> Continues(poll(j))
    ensures Poll(poll, i, []) == Broke(k, poll(k - 1).cases)
    decreases k - i
  {
    if i < k - 1 {
      assert Continues(poll(i));
      if poll(i).Ok? {
        assert poll(i).cases == [];
      }
      PollFirstHit(poll, i + 1, k);
    }
  }

  /** The poll count of a generation. */
  function PollCount(trigger: TriggerReply, poll: nat -> PollReply): nat {
    if trigger.Rejected? then 0 else Attempts(Poll(poll, 0, []))
  }

  /** The final `testCases` of a generation. */
  function FinalCases(trigger: TriggerReply, poll: nat -> PollReply): seq<TestCase> {
    if trigger.Rejected? then []
    else match Poll(poll, 0, [])
      case Broke(_, c) => c
      case Exhausted(t) => t
      case Threw(_) => []
  }

  /** At most 30 polls are made, and the final list is either empty or the
      non-empty array of the reply at the last attempt made, which is the
      first hit. */
  lemma GenerationResult(trigger: TriggerReply, poll: nat -> PollReply)
    ensures PollCount(trigger, poll) <= MaxAttempts
    ensures var r, n := FinalCases(trigger, poll), PollCount(trigger, poll);
      r == [] || (0 < n && Hit(poll(n - 1)) && r == poll(n - 1).cases
                  && forall j :: 0 <= j < n - 1 ==> !Hit(poll(j)))
  {
    PollEnds(poll, 0);
  }

  /** A first hit at 1-based attempt `k` gives exactly `k` polls and that array. */
  lemma GenerationFirstHit(poll: nat -> PollReply, k: nat)
    requires 0 < k <= MaxAttempts && Hit(poll(k - 1))
    requires forall j :: 0 <= j < k - 1 ==> Continues(poll(j))
    ensures PollCount(Settled, poll) == k
    ensures FinalCases(Settled, poll) == poll(k - 1).cases
  {
    PollFirstHit(poll, 0, k);
  }

  /** Replies that all continue the loop from attempt `i` on run it out
      with the local result still empty. */
  lemma {:induction false} PollRunsOut(poll: nat -> PollReply, i: nat)
    requires i <= MaxAttempts
    requires forall j :: i <= j < MaxAttempts ==> Continues(poll(j))
    ensures Poll(poll, i, []) == Exhausted([])
    decreases MaxAttempts - i
  {
    if i < MaxAttempts {
      assert Continues(poll(i));
      if poll(i).Ok? {
        assert poll(i).cases == [];
      }
      PollRunsOut(poll, i + 1);
    }
  }

  /** An exception at 1-based attempt `k`, with every earlier reply
      continuing the loop, ends the loop at attempt `k`. */
  lemma {:induction false} PollThrowsAt(poll: nat -> PollReply, i: nat, k: nat)
    requires i < k <= MaxAttempts && poll(k - 1).PollThrows?
    requires forall j :: i <= j < k - 1 ==> Continues(poll(j))
    ensures Poll(poll, i, []) == Threw(k)
    decreases k - i
  {
    if i < k - 1 {
      assert Continues(poll(i));
      if poll(i).Ok? {
        assert poll(i).cases == [];
      }
      PollThrowsAt(poll, i + 1, k);
    }
  }

  /** A results resource that never holds a non-empty array (and never
      throws) gives all 30 polls and an empty list. */
  lemma GenerationExhausted(poll: nat -> PollReply)
    requires forall j :: 0 <= j < MaxAttempts ==> Continues(poll(j))
    ensures PollCount(Settled, poll) == MaxAttempts
    ensures FinalCases(Settled, poll) == []
  {
    PollRunsOut(poll, 0);
  }

  /** An exception at poll attempt `k` empties the list after `k` polls. */
  lemma GenerationThrows(poll: nat -> PollReply, k: nat)
    requires 0 < k <= MaxAttempts && poll(k - 1).PollThrows?
    requires forall j :: 0 <= j < k - 1 ==> Continues(poll(j))
    ensures PollCount(Settled, poll) == k
    ensures FinalCases(Settled, poll) == []
  {
    PollThrowsAt(poll, 0, k);
  }

  /** The delay and the poll request of each of the first `n` attempts. */
  function PollRequests(n: nat, s: Snapshot): (r: seq<Sent>)
    ensures |r| == 2 * n
  {
    if n == 0 then []
    else PollRequests(n - 1, s) + [Sent(Delay(PollDelayMs), s), Sent(FetchResults, s)]
  }

  /** Every poll-loop entry is a delay of 6 seconds followed by the results
      request, all sent in state `s`. */
  lemma {:induction false} PollRequestsShape(n: nat, s: Snapshot)
    ensures forall i :: 0 <= i < n ==>
      PollRequests(n, s)[2 * i] == Sent(Delay(PollDelayMs), s)
      && PollRequests(n, s)[2 * i + 1] == Sent(FetchResults, s)
  {
    if n > 0 {
      PollRequestsShape(n - 1, s);
      var r := PollRequests(n, s);
      assert r[..2 * (n - 1)] == PollRequests(n - 1, s);
    }
  }

  /** The poll loop of `generateTestCases`: before each of at most 30
      attempts it waits 6 seconds and requests the results; it stops at the
      first reply that throws or holds a non-empty array. Returns the number
      of polls, the local result, whether an exception ended the loop, and
      the requests made, all in state `busy`. */
  method PollResults(poll: nat -> PollReply, busy: Snapshot)
    returns (polls: nat, tests: seq<TestCase>, threw: bool, sent: seq<Sent>)
    ensures polls == PollCount(Settled, poll) <= MaxAttempts
    ensures sent == PollRequests(polls, busy)
    ensures threw <==> Poll(poll, 0, []).Threw?
    ensures !threw ==> tests == FinalCases(Settled, poll)
  {
    polls, tests, threw, sent := 0, [], false, [];
    var i := 0;
    ghost var end: PollEnd := Exhausted([]);
    while i < MaxAttempts
      invariant 0 <= i <= MaxAttempts && polls == i && tests == []
      invariant Poll(poll, 0, []) == Poll(poll, i, tests)
      invariant sent == PollRequests(i, busy)
      invariant !threw
    {
      sent := sent + [Sent(Delay(PollDelayMs), busy), Sent(FetchResults, busy)];
      polls := polls + 1;
      var res := poll(i);
      if res.PollThrows? {
        threw := true;
        end := Threw(polls);
        assert Poll(poll, i, []) == end;
        break;
      }
      if res.Ok? {
        tests := res.cases;
        if |tests| > 0 {
          end := Broke(polls, tests);
          assert Poll(poll, i, []) == end;
          break;
        }
      }
      i := i + 1;
    }
    assert Poll(poll, 0, []) == end && polls == Attempts(end);
  }

  /** What the main pane shows. */
  datatype Pane = Loading | NoResults | Listing(count: nat)

  /** The separator `downloadTestSuite` joins with: a blank line. */
  const Separator: string := "\n\n"

  /** `parts.join("\n\n")`. */
  function Join(parts: seq<string>): string {
    if |parts| == 0 then ""
    else if |parts| == 1 then parts[0]
    else Join(parts[..|parts| - 1]) + Separator + parts[|parts| - 1]
  }

  /** The sum of the part lengths. */
  function TotalLength(parts: seq<string>): nat {
    if parts == [] then 0 else TotalLength(parts[..|parts| - 1]) + |parts[|parts| - 1]|
  }

  /** Where part `k` starts in the joined text. */
  function Offset(parts: seq<string>, k: nat): nat
    requires k <= |parts|
  {
    TotalLength(parts[..k]) + 2 * k
  }

  /** Offsets of a prefix agree with those of the whole. */
  lemma OffsetPrefix(parts: seq<string>, n: nat, k: nat)
    requires k <= n <= |parts|
    ensures Offset(parts[..n], k) == Offset(parts, k)
  {
    assert parts[..n][..k] == parts[..k];
  }

  /** The next part starts one separator after the end of the previous one. */
  lemma OffsetNext(parts: seq<string>, k: nat)
    requires k < |parts|
    ensures Offset(parts, k + 1) == Offset(parts, k) + |parts[k]| + 2
  {
    assert parts[..k + 1][..k] == parts[..k];
  }

  /** `n` parts join to their total length plus `n - 1` separators. */
  lemma {:induction false} JoinLength(parts: seq<string>)
    requires parts != []
    ensures |Join(parts)| == TotalLength(parts) + 2 * (|parts| - 1)
  {
    if |parts| == 1 {
      assert parts[..0] == [];
    } else {
      JoinLength(parts[..|parts| - 1]);
    }
  }

  /** Part `k` sits at its offset in the joined text. */
  lemma {:induction false} JoinPart(parts: seq<string>, k: nat)
    requires k < |parts|
    ensures Offset(parts, k) + |parts[k]| <= |Join(parts)|
    ensures Join(parts)[Offset(parts, k)..Offset(parts, k) + |parts[k]|] == parts[k]
  {
    var n := |parts|;
    JoinLength(parts);
    if n == 1 {
      assert parts[..0] == [];
    } else {
      var front := parts[..n - 1];
      var j, jf := Join(parts), Join(front);
      var o := Offset(parts, k);
      assert j == jf + Separator + parts[n - 1];
      if k < n - 1 {
        JoinPart(front, k);
        OffsetPrefix(parts, n - 1, k);
        assert front[k] == parts[k];
        assert j[o..o + |parts[k]|] == jf[o..o + |parts[k]|];
      } else {
        JoinLength(front);
        assert parts[..n - 1] == front;
        assert o == |jf| + 2;
      }
    }
  }

  /** A separator follows every part but the last. */
  lemma {:induction false} JoinSeparator(parts: seq<string>, k: nat)
    requires k + 1 < |parts|
    ensures Offset(parts, k) + |parts[k]| + 2 <= |Join(parts)|
    ensures Join(parts)[Offset(parts, k) + |parts[k]|..Offset(parts, k) + |parts[k]| + 2] == Separator
  {
    var n := |parts|;
    var front := parts[..n - 1];
    var j, jf := Join(parts), Join(front);
    assert j == jf + Separator + parts[n - 1];
    OffsetPrefix(parts, n - 1, k);
    var o := Offset(parts, k) + |parts[k]|;
    assert front[k] == parts[k];
    if k + 1 < n - 1 {
      JoinSeparator(front, k);
      assert j[o..o + 2] == jf[o..o + 2];
    } else {
      JoinLength(front);
      OffsetNext(front, k);
      assert TotalLength(front) == TotalLength(front[..k + 1]) by {
        assert front[..k + 1] == front;
      }
      assert o == |jf|;
    }
  }

  /** The joined text consists of every part at its offset, with one separator
      between consecutive parts: `n` parts give `n - 1` separators. */
  lemma JoinLayout(parts: seq<string>)
    requires parts != []
    ensures |Join(parts)| == TotalLength(parts) + 2 * (|parts| - 1)
    ensures forall k :: 0 <= k < |parts| ==>
      Offset(parts, k) + |parts[k]| <= |Join(parts)|
      && Join(parts)[Offset(parts, k)..Offset(parts, k) + |parts[k]|] == parts[k]
    ensures forall k :: 0 <= k < |parts| - 1 ==>
      Offset(parts, k) + |parts[k]| + 2 <= |Join(parts)|
      && Join(parts)[Offset(parts, k) + |parts[k]|..Offset(parts, k) + |parts[k]| + 2] == Separator
  {
    JoinLength(parts);
    forall k | 0 <= k < |parts|
      ensures Offset(parts, k) + |parts[k]| <= |Join(parts)|
      ensures Join(parts)[Offset(parts, k)..Offset(parts, k) + |parts[k]|] == parts[k]
    {
      JoinPart(parts, k);
    }
    forall k | 0 <= k < |parts| - 1
      ensures Offset(parts, k) + |parts[k]| + 2 <= |Join(parts)|
      ensures Join(parts)[Offset(parts, k) + |parts[k]|..Offset(parts, k) + |parts[k]| + 2] == Separator
    {
      JoinSeparator(parts, k);
    }
  }

  /** The component's state. */
  class TestCaseGenerator {
    var url: string
    var isGenerating: bool
    var isFetchingResults: bool
    var isLoadingScreenshot: bool
    var testCases: seq<TestCase>
    var screenshot: Option<ObjectUrl>
    /** Requests sent and delays waited, oldest first. */
    var trace: seq<Sent>

    /** The initial `useState` values. */
    constructor ()
      ensures url == "" && !isGenerating && !isFetchingResults && !isLoadingScreenshot
      ensures testCases == [] && screenshot == None && trace == []
    {
      url := "";
      isGenerating := false;
      isFetchingResults := false;
      isLoadingScreenshot := false;
      testCases := [];
      screenshot := None;
      trace := [];
    }

    function Current(): Snapshot
      reads this
    {
      Snapshot(isGenerating, isFetchingResults, isLoadingScreenshot, |testCases|)
    }

    /** The URL input's `onChange`. */
    method SetUrl(value: string)
      modifies this
      ensures url == value
      ensures isGenerating == old(isGenerating) && isFetchingResults == old(isFetchingResults)
      ensures isLoadingScreenshot == old(isLoadingScreenshot) && testCases == old(testCases)
      ensures screenshot == old(screenshot) && trace == old(trace)
    {
      url := value;
    }

    /** `generateTestCases`: with a URL, set both busy flags and clear the
        list, send the trigger, then poll at most 30 times, 6 seconds apart,
        until an ok reply holds a non-empty array; an exception anywhere
        empties the list. Both flags are cleared on every path. */
    method GenerateTestCases(trigger: TriggerReply, poll: nat -> PollReply) returns (polls: nat)
      modifies this
      ensures url == old(url) && screenshot == old(screenshot)
      ensures isLoadingScreenshot == old(isLoadingScreenshot)
      ensures old(url) == "" ==>
        polls == 0 && trace == old(trace) && testCases == old(testCases)
        && isGenerating == old(isGenerating) && isFetchingResults == old(isFetchingResults)
      ensures old(url) != "" ==> !isGenerating && !isFetchingResults && MainPane() != Loading
      ensures old(url) != "" ==> polls == PollCount(trigger, poll)
      ensures old(url) != "" ==> testCases == FinalCases(trigger, poll)
      ensures old(url) != "" ==>
        var busy := Snapshot(true, true, old(isLoadingScreenshot), 0);
        trace == old(trace) + [Sent(GenerateTests(url), busy)] + PollRequests(polls, busy)
    {
      polls := 0;
      if url == "" {
        return;
      }
      isGenerating := true;
      isFetchingResults := true;
      testCases := [];
      var busy := Current();
      trace := trace + [Sent(GenerateTests(url), busy)];
      if trigger.Rejected? {
        testCases := [];
      } else {
        var tests, threw, sent;
        polls, tests, threw, sent := PollResults(poll, busy);
        trace := trace + sent;
        if threw {
          testCases := [];
        } else {
          testCases := tests;
        }
      }
      isGenerating := false;
      isFetchingResults := false;
    }

    /** `fetchScreenshot`: with a URL, set the loading flag, send the capture
        request, keep a reference to the body of an ok reply and clear the
        preview otherwise; the flag is cleared on every path. */
    method FetchScreenshot(reply: ShotReply)
      modifies this
      ensures url == old(url) && testCases == old(testCases)
      ensures isGenerating == old(isGenerating) && isFetchingResults == old(isFetchingResults)
      ensures old(url) == "" ==>
        screenshot == old(screenshot) && trace == old(trace)
        && isLoadingScreenshot == old(isLoadingScreenshot)
      ensures old(url) != "" ==>
        !isLoadingScreenshot
        && trace == old(trace) + [Sent(CaptureScreenshot(url),
                                       Snapshot(isGenerating, isFetchingResults, true, |testCases|))]
        && (reply.ShotOk? ==> screenshot == Some(ObjectUrl(reply.body)))
        && (!reply.ShotOk? ==> screenshot == None)
    {
      if url == "" {
        return;
      }
      isLoadingScreenshot := true;
      trace := trace + [Sent(CaptureScreenshot(url), Current())];
      match reply {
        case ShotOk(body) =>
          screenshot := Some(ObjectUrl(body));
        case ShotNotOk =>
          screenshot := None;
        case ShotThrows =>
          screenshot := None;
      }
      isLoadingScreenshot := false;
    }

    /** The main pane: the loading view while results are awaited, otherwise
        the empty view for an empty list and the list headed by its count. */
    function MainPane(): (p: Pane)
      reads this
      ensures p == Loading <==> isFetchingResults
      ensures p == NoResults <==> !isFetchingResults && testCases == []
      ensures p.Listing? ==> p.count == |testCases| > 0
    {
      if isFetchingResults then Loading
      else if |testCases| == 0 then NoResults
      else Listing(|testCases|)
    }

    /** `downloadTestSuite`'s file contents: the records' `code` fields joined
        by a blank line, a missing `code` joining as the empty string (as
        `Array.prototype.join` treats `undefined`). Record `k`'s code sits at
        `Offset(Codes(testCases), k)`, followed by the separator unless it is
        the last record. */
    function DownloadText(): (s: string)
      reads this
      ensures testCases == [] ==> s == ""
      ensures testCases != [] ==> |s| == TotalLength(Codes(testCases)) + 2 * (|testCases| - 1)
      ensures forall k :: 0 <= k < |testCases| ==> SuiteHolds(testCases, s, k)
      ensures forall k :: 0 <= k < |testCases| - 1 ==> SuiteSeparates(testCases, s, k)
    {
      var parts := Codes(testCases);
      SuiteLayout(testCases);
      if parts == [] then ""
      else JoinLength(parts); Join(parts)
    }
  }

  /** The `code` field of each record, a missing one as the empty string. */
  function Codes(cases: seq<TestCase>): seq<string> {
    seq(|cases|, i requires 0 <= i < |cases| => cases[i].code.GetOr(""))
  }

  /** Record `k`'s code, a missing one as the empty string, sits unchanged at
      offset `Offset(Codes(cases), k)` of `text`. */
  predicate SuiteHolds(cases: seq<TestCase>, text: string, k: nat)
    requires k < |cases|
  {
    var c, o := cases[k].code.GetOr(""), Offset(Codes(cases), k);
    o + |c| <= |text| && text[o..o + |c|] == c
  }

  /** A blank line follows record `k`'s code in `text`. */
  predicate SuiteSeparates(cases: seq<TestCase>, text: string, k: nat)
    requires k < |cases|
  {
    var e := Offset(Codes(cases), k) + |cases[k].code.GetOr("")|;
    e + 2 <= |text| && text[e..e + 2] == Separator
  }

  /** The suite text holds each record's code at its offset, in record order,
      with a blank line between consecutive records. */
  lemma SuiteLayout(cases: seq<TestCase>)
    ensures forall k :: 0 <= k < |cases| ==> SuiteHolds(cases, Join(Codes(cases)), k)
    ensures forall k :: 0 <= k < |cases| - 1 ==> SuiteSeparates(cases, Join(Codes(cases)), k)
  {
    var parts := Codes(cases);
    forall k | 0 <= k < |cases|
      ensures SuiteHolds(cases, Join(parts), k)
    {
      assert parts[k] == cases[k].code.GetOr("");
      JoinPart(parts, k);
    }
    forall k | 0 <= k < |cases| - 1
      ensures SuiteSeparates(cases, Join(parts), k)
    {
      assert parts[k] == cases[k].code.GetOr("");
      JoinSeparator(parts, k);
    }
  }
}
