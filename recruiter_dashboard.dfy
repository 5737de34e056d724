/** The recruiter dashboard (src/app/recruiter/dashboard/page.tsx): the
    filter pipeline of `applyFilters` and the summary cards.

    Dates are compared as `new Date(...)` values: `dateOf` is the browser's
    date parser, `None` for a string it cannot read (an invalid date, which
    compares false with everything). */
module RecruiterDashboard {
  import opened Text
  import opened Lists

  datatype CandidateInfo = CandidateInfo(name: Option<string>, email: Option<string>)

  /** A submission as the recruiter submissions API returns it. */
  datatype Submission = Submission(
    id: string, testId: string, status: string, disqualified: bool,
    createdAt: string, submittedAt: Option<string>,
    candidate: Option<CandidateInfo>, testTitle: Option<string>, testType: string)

  /** The dashboard's `FilterState`; every field starts as 'all' or empty. */
  datatype FilterState = FilterState(testId: string, status: string, search: string,
                                     startDate: string, endDate: string)

  const INITIAL_FILTERS := FilterState("all", "all", "", "", "")

  // ---------------------------------------------------------------------------
  // The single filters
  // ---------------------------------------------------------------------------

  /** The guard of a filter pass: the field is truthy and not 'all'. */
  predicate Selects(value: string) {
    value != "" && value != "all"
  }

  predicate SameTest(f: FilterState, s: Submission) {
    s.testId == f.testId
  }

  /** The status pass: 'disqualified' looks at the flag, not at the status. */
  predicate SameStatus(f: FilterState, s: Submission) {
    if f.status == "disqualified" then s.disqualified else s.status == f.status
  }

  /** `s.candidates?.name?.toLowerCase() || ''`. */
  function LowerName(s: Submission): string {
    if s.candidate.Some? && s.candidate.value.name.Some? then ToLower(s.candidate.value.name.value) else ""
  }

  function LowerEmail(s: Submission): string {
    if s.candidate.Some? && s.candidate.value.email.Some? then ToLower(s.candidate.value.email.value) else ""
  }

  predicate SearchHit(f: FilterState, s: Submission) {
    Contains(LowerName(s), ToLower(f.search)) || Contains(LowerEmail(s), ToLower(f.search))
  }

  /** `a >= b` on two dates; an invalid date on either side compares false. */
  predicate NotBefore(a: Option<int>, b: Option<int>) {
    a.Some? && b.Some? && a.value >= b.value
  }

  predicate FromStart(f: FilterState, dateOf: string -> Option<int>, s: Submission) {
    NotBefore(dateOf(s.createdAt), dateOf(f.startDate))
  }

  predicate UntilEnd(f: FilterState, dateOf: string -> Option<int>, s: Submission) {
    NotBefore(dateOf(f.endDate), dateOf(s.createdAt))
  }

  /** The reference condition: the conjunction of the filters that are switched on. */
  predicate Matches(f: FilterState, dateOf: string -> Option<int>, s: Submission)
    ensures !Selects(f.testId) && !Selects(f.status) && f.search == "" && f.startDate == "" && f.endDate == "" ==>
      Matches(f, dateOf, s)
    ensures Matches(f, dateOf, s) && Selects(f.testId) ==> s.testId == f.testId
  {
    (Selects(f.testId) ==> SameTest(f, s))
    && (Selects(f.status) ==> SameStatus(f, s))
    && (f.search != "" ==> SearchHit(f, s))
    && (f.startDate != "" ==> FromStart(f, dateOf, s))
    && (f.endDate != "" ==> UntilEnd(f, dateOf, s))
  }

  function Matcher(f: FilterState, dateOf: string -> Option<int>): Submission -> bool {
    (s: Submission) => Matches(f, dateOf, s)
  }

  /** Whether pass `k` (1 to 5) of the pipeline is switched on. */
  predicate StageOn(f: FilterState, k: nat) {
    if k == 1 then Selects(f.testId)
    else if k == 2 then Selects(f.status)
    else if k == 3 then f.search != ""
    else if k == 4 then f.startDate != ""
    else f.endDate != ""
  }

  /** The test of pass `k`. */
  predicate StageTest(f: FilterState, dateOf: string -> Option<int>, k: nat, s: Submission) {
    if k == 1 then SameTest(f, s)
    else if k == 2 then SameStatus(f, s)
    else if k == 3 then SearchHit(f, s)
    else if k == 4 then FromStart(f, dateOf, s)
    else UntilEnd(f, dateOf, s)
  }

  /** The conjunction of the first `k` passes of the pipeline that are on. */
  predicate FirstPasses(f: FilterState, dateOf: string -> Option<int>, k: nat, s: Submission) {
    k == 0 || (FirstPasses(f, dateOf, k - 1, s) && (StageOn(f, k) ==> StageTest(f, dateOf, k, s)))
  }

  function Stage(f: FilterState, dateOf: string -> Option<int>, k: nat): Submission -> bool {
    (s: Submission) => FirstPasses(f, dateOf, k, s)
  }

  /** All five passes together are the reference condition. */
  lemma AllPassesMatch(f: FilterState, dateOf: string -> Option<int>, s: Submission)
    ensures FirstPasses(f, dateOf, 5, s) == Matches(f, dateOf, s)
  {
    assert FirstPasses(f, dateOf, 1, s) == (Selects(f.testId) ==> SameTest(f, s));
    assert FirstPasses(f, dateOf, 2, s) == (FirstPasses(f, dateOf, 1, s) && (Selects(f.status) ==> SameStatus(f, s)));
    assert FirstPasses(f, dateOf, 3, s) == (FirstPasses(f, dateOf, 2, s) && (f.search != "" ==> SearchHit(f, s)));
    assert FirstPasses(f, dateOf, 4, s) == (FirstPasses(f, dateOf, 3, s) && (f.startDate != "" ==> FromStart(f, dateOf, s)));
  }

  /** One guarded pass of `applyFilters`: the list is unchanged when the guard is
      off, and otherwise filtered so that it equals the filter by the extended
      conjunction. */
  lemma Pass(all: seq<Submission>, filtered: seq<Submission>, acc: Submission -> bool,
             on: bool, p: Submission -> bool, acc2: Submission -> bool)
    requires filtered == Keep(all, acc)
    requires forall s :: acc2(s) == (acc(s) && (on ==> p(s)))
    ensures (if on then Keep(filtered, p) else filtered) == Keep(all, acc2)
  {
    if on {
      KeepKeep(all, acc, p, acc2);
    } else {
      KeepSame(all, acc, acc2);
    }
  }

  // The callbacks handed to `filter` by the passes of `applyFilters`.

  function ByTest(f: FilterState): Submission -> bool {
    (s: Submission) => s.testId == f.testId
  }

  function ByFlag(): Submission -> bool {
    (s: Submission) => s.disqualified
  }

  function ByStatus(f: FilterState): Submission -> bool {
    (s: Submission) => s.status == f.status
  }

  function BySearch(searchLower: string): Submission -> bool {
    (s: Submission) => Contains(LowerName(s), searchLower) || Contains(LowerEmail(s), searchLower)
  }

  function FromStartDate(dateOf: string -> Option<int>, startDate: string): Submission -> bool {
    (s: Submission) => NotBefore(dateOf(s.createdAt), dateOf(startDate))
  }

  function UntilEndDate(dateOf: string -> Option<int>, endDate: string): Submission -> bool {
    (s: Submission) => NotBefore(dateOf(endDate), dateOf(s.createdAt))
  }

  /** The callback pass `k` filters with. */
  function StageFilter(f: FilterState, dateOf: string -> Option<int>, k: nat): Submission -> bool {
    if k == 1 then ByTest(f)
    else if k == 2 then (if f.status == "disqualified" then ByFlag() else ByStatus(f))
    else if k == 3 then BySearch(ToLower(f.search))
    else if k == 4 then FromStartDate(dateOf, f.startDate)
    else UntilEndDate(dateOf, f.endDate)
  }

  /** Each callback implements the test of its pass. */
  lemma StageFilterTests(f: FilterState, dateOf: string -> Option<int>, k: nat, s: Submission)
    requires 1 <= k <= 5
    ensures StageFilter(f, dateOf, k)(s) == StageTest(f, dateOf, k, s)
  {
  }

  lemma {:induction false} KeepSame(s: seq<Submission>, p: Submission -> bool, q: Submission -> bool)
    requires forall x :: p(x) == q(x)
    ensures Keep(s, p) == Keep(s, q)
    decreases |s|
  {
    if |s| > 0 {
      KeepSame(s[1..], p, q);
    }
  }

  /** Pass `k` of `applyFilters`: `filtered = filtered.filter(callback)` when
      the pass's filter is set, nothing otherwise.  Given the submissions kept
      by the passes before it, it keeps those that also pass its own test. */
  method FilterPass(all: seq<Submission>, filtered: seq<Submission>, f: FilterState,
                    dateOf: string -> Option<int>, k: nat)
    returns (next: seq<Submission>)
    requires 1 <= k <= 5
    requires filtered == Keep(all, Stage(f, dateOf, k - 1))
    ensures next == Keep(all, Stage(f, dateOf, k))
    ensures next == if StageOn(f, k) then Keep(filtered, StageFilter(f, dateOf, k)) else filtered
  {
    if StageOn(f, k) {
      forall s ensures StageFilter(f, dateOf, k)(s) == StageTest(f, dateOf, k, s) {
        StageFilterTests(f, dateOf, k, s);
      }
      Pass(all, filtered, Stage(f, dateOf, k - 1), true, StageFilter(f, dateOf, k), Stage(f, dateOf, k));
      next := Keep(filtered, StageFilter(f, dateOf, k));
    } else {
      KeepSame(all, Stage(f, dateOf, k - 1), Stage(f, dateOf, k));
      next := filtered;
    }
  }

  /** `applyFilters`: the test, status, search and date passes in turn, each
      one only when its filter is set.  The result is the submissions that
      satisfy every active filter, in their original order. */
  method ApplyFilters(submissions: seq<Submission>, f: FilterState, dateOf: string -> Option<int>)
    returns (filtered: seq<Submission>)
    ensures filtered == Keep(submissions, Matcher(f, dateOf))
  {
    filtered := submissions;
    KeepEverything(submissions, Stage(f, dateOf, 0));
    filtered := FilterPass(submissions, filtered, f, dateOf, 1);  // by test
    filtered := FilterPass(submissions, filtered, f, dateOf, 2);  // by status, or by the flag
    filtered := FilterPass(submissions, filtered, f, dateOf, 3);  // by search
    filtered := FilterPass(submissions, filtered, f, dateOf, 4);  // from the start date
    filtered := FilterPass(submissions, filtered, f, dateOf, 5);  // until the end date
    AllStagesMatch(submissions, f, dateOf);
  }

  /** After the last pass the submissions kept are those every filter matches. */
  lemma AllStagesMatch(submissions: seq<Submission>, f: FilterState, dateOf: string -> Option<int>)
    ensures Keep(submissions, Stage(f, dateOf, 5)) == Keep(submissions, Matcher(f, dateOf))
  {
    forall s: Submission ensures Stage(f, dateOf, 5)(s) == Matcher(f, dateOf)(s) {
      AllPassesMatch(f, dateOf, s);
    }
    KeepSame(submissions, Stage(f, dateOf, 5), Matcher(f, dateOf));
  }

  /** The initial filters keep every submission. */
  lemma InitialFiltersKeepEverything(submissions: seq<Submission>, dateOf: string -> Option<int>)
    ensures Keep(submissions, Matcher(INITIAL_FILTERS, dateOf)) == submissions
  {
    KeepEverything(submissions, Matcher(INITIAL_FILTERS, dateOf));
  }

  /** The filtered list keeps the order of the submissions, and it holds exactly
      the submissions that pass every active filter. */
  lemma FilteredIsOrderedSelection(submissions: seq<Submission>, f: FilterState,
                                   dateOf: string -> Option<int>, s: Submission)
    ensures Subsequence(Keep(submissions, Matcher(f, dateOf)), submissions)
    ensures s in Keep(submissions, Matcher(f, dateOf)) <==> s in submissions && Matches(f, dateOf, s)
  {
    KeepIsSubsequence(submissions, Matcher(f, dateOf));
    if s in submissions && Matches(f, dateOf, s) {
      var i :| 0 <= i < |submissions| && submissions[i] == s;
      assert Matcher(f, dateOf)(submissions[i]);
    }
    if s in Keep(submissions, Matcher(f, dateOf)) {
      var r := Keep(submissions, Matcher(f, dateOf));
      var i :| 0 <= i < |r| && r[i] == s;
      assert Matcher(f, dateOf)(r[i]);
    }
  }

  /** The 'disqualified' status shows every disqualified submission whatever its
      status field says, and nothing else. */
  lemma DisqualifiedStatusSelectsFlag(submissions: seq<Submission>, dateOf: string -> Option<int>, s: Submission)
    requires s in submissions
    ensures var f := INITIAL_FILTERS.(status := "disqualified");
      s in Keep(submissions, Matcher(f, dateOf)) <==> s.disqualified
  {
    FilteredIsOrderedSelection(submissions, INITIAL_FILTERS.(status := "disqualified"), dateOf, s);
  }

  /** Searching is case-insensitive: upper- and lower-case searches select the
      same submissions. */
  lemma SearchIgnoresCase(f: FilterState, dateOf: string -> Option<int>, s: Submission)
    requires f.search != ""
    ensures Matches(f, dateOf, s) == Matches(f.(search := ToLower(f.search)), dateOf, s)
  {
    assert ToLower(ToLower(f.search)) == ToLower(f.search) by {
      LowerIsIdempotent(f.search);
    }
  }

  lemma LowerIsIdempotent(s: string)
    ensures ToLower(ToLower(s)) == ToLower(s)
  {
    assert forall c :: LowerChar(LowerChar(c)) == LowerChar(c);
  }

  // ---------------------------------------------------------------------------
  // The summary cards
  // ---------------------------------------------------------------------------

  datatype Stats = Stats(myTests: nat, totalSubmissions: nat, awaitingReview: nat, passed: nat)

  predicate IsSubmitted(s: Submission) {
    s.status == "submitted"
  }

  predicate IsPassed(s: Submission) {
    s.status == "passed"
  }

  /** The four cards, computed over every submission, not over the filtered
      list: the test count, all submissions, the submitted ones ("Awaiting
      Review") and the passed ones. */
  function DashboardStats(testCount: nat, submissions: seq<Submission>): (r: Stats)
    ensures r.myTests == testCount && r.totalSubmissions == |submissions|
    ensures r.awaitingReview == |Keep(submissions, IsSubmitted)|
    ensures r.passed == |Keep(submissions, IsPassed)|
    ensures r.awaitingReview + r.passed <= r.totalSubmissions
  {
    var awaiting := Keep(submissions, IsSubmitted);
    var passed := Keep(submissions, IsPassed);
    KeepDisjoint(submissions, IsSubmitted, IsPassed);
    Stats(testCount, |submissions|, |awaiting|, |passed|)
  }

  /** However the filters are set, the submitted submissions on screen are no
      more than the "Awaiting Review" card counts. */
  lemma AwaitingCardBoundsFilteredList(testCount: nat, submissions: seq<Submission>,
                                       f: FilterState, dateOf: string -> Option<int>)
    ensures |Keep(Keep(submissions, Matcher(f, dateOf)), IsSubmitted)|
      <= DashboardStats(testCount, submissions).awaitingReview
  {
    FiltersCommute(submissions, Matcher(f, dateOf), IsSubmitted);
  }
}
