/** The admin's recruiter list (src/app/admin/recruiters/page.tsx): the
    search filter, the summary totals and the add-recruiter dialog. */
module AdminRecruiters {
  import opened Text
  import opened Lists

  datatype RecruiterStats = RecruiterStats(testsCreated: nat, linksCreated: nat, submissions: nat,
                                           completedSubmissions: nat)

  datatype Recruiter = Recruiter(id: string, email: string, name: string, role: string, stats: RecruiterStats)

  /** A recruiter is kept when the name or the email contains the term, with
      case ignored on both sides. */
  predicate MatchesSearch(r: Recruiter, term: string) {
    Contains(ToLower(r.name), ToLower(term)) || Contains(ToLower(r.email), ToLower(term))
  }

  /** `filteredRecruiters`. */
  function FilteredRecruiters(recruiters: seq<Recruiter>, term: string): (r: seq<Recruiter>)
    ensures Subsequence(r, recruiters)
    ensures |r| <= |recruiters|
    ensures forall i :: 0 <= i < |r| ==> MatchesSearch(r[i], term)
    ensures forall i :: 0 <= i < |recruiters| ==> (MatchesSearch(recruiters[i], term) ==> recruiters[i] in r)
  {
    var keep := (x: Recruiter) => MatchesSearch(x, term);
    KeepIsSubsequence(recruiters, keep);
    Keep(recruiters, keep)
  }

  /** An empty search keeps every recruiter. */
  lemma EmptySearchKeepsAll(recruiters: seq<Recruiter>)
    ensures FilteredRecruiters(recruiters, "") == recruiters
  {
    var keep := (x: Recruiter) => MatchesSearch(x, "");
    forall x: Recruiter ensures keep(x) {
      ContainsEmptyAndSelf(ToLower(x.name));
    }
    KeepEverything(recruiters, keep);
  }

  // ---------------------------------------------------------------------------
  // Summary statistics
  // ---------------------------------------------------------------------------

  /** `recruiters.reduce((sum, r) => sum + field(r), 0)`. */
  function SumBy(recruiters: seq<Recruiter>, field: Recruiter -> nat): (total: nat)
    ensures |recruiters| > 0 ==> total >= field(recruiters[0])
  {
    if |recruiters| == 0 then 0 else field(recruiters[0]) + SumBy(recruiters[1..], field)
  }

  /** Sums add up across a split of the list. */
  lemma {:induction false} SumByAppend(a: seq<Recruiter>, b: seq<Recruiter>, field: Recruiter -> nat)
    ensures SumBy(a + b, field) == SumBy(a, field) + SumBy(b, field)
    decreases |a|
  {
    if |a| > 0 {
      assert (a + b)[1..] == a[1..] + b;
      SumByAppend(a[1..], b, field);
    } else {
      assert a + b == b;
    }
  }

  /** Each recruiter contributes at most the total. */
  lemma {:induction false} SumByBoundsEach(recruiters: seq<Recruiter>, field: Recruiter -> nat, i: nat)
    requires i < |recruiters|
    ensures field(recruiters[i]) <= SumBy(recruiters, field)
    decreases i
  {
    if i > 0 {
      SumByBoundsEach(recruiters[1..], field, i - 1);
    }
  }

  /** A filtered list never sums to more than the whole list. */
  lemma {:induction false} SumByOfFilter(recruiters: seq<Recruiter>, keep: Recruiter -> bool, field: Recruiter -> nat)
    ensures SumBy(Keep(recruiters, keep), field) <= SumBy(recruiters, field)
    decreases |recruiters|
  {
    if |recruiters| > 0 {
      SumByOfFilter(recruiters[1..], keep, field);
      if keep(recruiters[0]) {
        assert Keep(recruiters, keep)[0] == recruiters[0];
        assert Keep(recruiters, keep)[1..] == Keep(recruiters[1..], keep);
      }
    }
  }

  datatype Summary = Summary(totalRecruiters: nat, totalTests: nat, totalLinks: nat, totalSubmissions: nat)

  function TestsCreated(r: Recruiter): nat {
    r.stats.testsCreated
  }

  function LinksCreated(r: Recruiter): nat {
    r.stats.linksCreated
  }

  function SubmissionsOf(r: Recruiter): nat {
    r.stats.submissions
  }

  /** The summary panel, computed over every recruiter whatever the search:
      the count of recruiters and the sums of their tests, links and
      submissions. */
  function SummaryOf(recruiters: seq<Recruiter>): (s: Summary)
    ensures s.totalRecruiters == |recruiters|
    ensures s.totalTests == SumBy(recruiters, TestsCreated)
    ensures s.totalLinks == SumBy(recruiters, LinksCreated)
    ensures s.totalSubmissions == SumBy(recruiters, SubmissionsOf)
    ensures forall i :: 0 <= i < |recruiters| ==>
      recruiters[i].stats.testsCreated <= s.totalTests
      && recruiters[i].stats.linksCreated <= s.totalLinks
      && recruiters[i].stats.submissions <= s.totalSubmissions
  {
    forall i | 0 <= i < |recruiters|
      ensures TestsCreated(recruiters[i]) <= SumBy(recruiters, TestsCreated)
      ensures LinksCreated(recruiters[i]) <= SumBy(recruiters, LinksCreated)
      ensures SubmissionsOf(recruiters[i]) <= SumBy(recruiters, SubmissionsOf)
    {
      SumByBoundsEach(recruiters, TestsCreated, i);
      SumByBoundsEach(recruiters, LinksCreated, i);
      SumByBoundsEach(recruiters, SubmissionsOf, i);
    }
    Summary(|recruiters|, SumBy(recruiters, TestsCreated), SumBy(recruiters, LinksCreated),
            SumBy(recruiters, SubmissionsOf))
  }

  /** The totals ignore the search: the tests, links and submissions of the
      recruiters on screen never exceed the totals shown, and adding a
      recruiter adds its own counts to each total. */
  lemma SummaryIgnoresSearch(recruiters: seq<Recruiter>, term: string, r: Recruiter)
    ensures SumBy(FilteredRecruiters(recruiters, term), TestsCreated) <= SummaryOf(recruiters).totalTests
    ensures SumBy(FilteredRecruiters(recruiters, term), LinksCreated) <= SummaryOf(recruiters).totalLinks
    ensures SumBy(FilteredRecruiters(recruiters, term), SubmissionsOf) <= SummaryOf(recruiters).totalSubmissions
    ensures SummaryOf(recruiters + [r]).totalTests == SummaryOf(recruiters).totalTests + r.stats.testsCreated
    ensures SummaryOf(recruiters + [r]).totalLinks == SummaryOf(recruiters).totalLinks + r.stats.linksCreated
    ensures SummaryOf(recruiters + [r]).totalSubmissions ==
      SummaryOf(recruiters).totalSubmissions + r.stats.submissions
  {
    var keep := (x: Recruiter) => MatchesSearch(x, term);
    SumByOfFilter(recruiters, keep, TestsCreated);
    SumByOfFilter(recruiters, keep, LinksCreated);
    SumByOfFilter(recruiters, keep, SubmissionsOf);
    SumByAppend(recruiters, [r], TestsCreated);
    SumByAppend(recruiters, [r], LinksCreated);
    SumByAppend(recruiters, [r], SubmissionsOf);
  }

  // ---------------------------------------------------------------------------
  // Adding a recruiter
  // ---------------------------------------------------------------------------

  /** Outcome of the POST request: the server's status and its `error` field. */
  datatype AddResponse = AddOk | AddFailed(error: Option<string>) | AddThrew

  /** The add-recruiter dialog's state. */
  class AddRecruiterDialog {
    var isOpen: bool
    var email: string
    var name: string
    var isSubmitting: bool
    /** Alerts shown, in order. */
    var alerts: seq<string>
    /** Bodies POSTed to the recruiters API, as (email, name). */
    var requests: seq<(string, string)>
    /** How many times the list was fetched again. */
    var refreshes: nat

    constructor ()
      ensures !isOpen && email == "" && name == "" && !isSubmitting
      ensures alerts == [] && requests == [] && refreshes == 0
    {
      isOpen := false;
      email := "";
      name := "";
      isSubmitting := false;
      alerts := [];
      requests := [];
      refreshes := 0;
    }

    /** `handleAddRecruiter`: the fields typed are sent; on success the dialog
        closes, both fields are cleared and the list is fetched again; on
        failure the fields stay as typed and the server's message (or a fixed
        one) is shown. */
    method HandleAddRecruiter(response: AddResponse)
      modifies this
      ensures requests == old(requests) + [(old(email), old(name))]
      ensures !isSubmitting
      ensures response.AddOk? ==>
        !isOpen && email == "" && name == "" && alerts == old(alerts) && refreshes == old(refreshes) + 1
      ensures !response.AddOk? ==>
        isOpen == old(isOpen) && email == old(email) && name == old(name) && refreshes == old(refreshes)
      ensures response.AddFailed? ==>
        alerts == old(alerts) + [if response.error.Some? && response.error.value != "" then response.error.value
                                 else "Failed to create recruiter"]
      ensures response.AddThrew? ==> alerts == old(alerts) + ["Failed to create recruiter"]
    {
      isSubmitting := true;
      requests := requests + [(email, name)];
      match response {
        case AddOk =>
          isOpen := false;
          email := "";
          name := "";
          refreshes := refreshes + 1;
        case AddFailed(error) =>
          alerts := alerts + [if error.Some? && error.value != "" then error.value else "Failed to create recruiter"];
        case AddThrew =>
          alerts := alerts + ["Failed to create recruiter"];
      }
      isSubmitting := false;
    }
  }
}
