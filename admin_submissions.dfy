/** The admin's list of all submissions (src/app/admin/submissions/page.tsx):
    the search and status filter, the status badge, the total score and the
    export button. */
module AdminSubmissions {
  import opened Text
  import opened Lists

  datatype Person = Person(name: Option<string>, email: Option<string>)
  datatype TestInfo = TestInfo(title: Option<string>)

  /** `scores`; `None` is a null or missing score. */
  datatype Scores = Scores(intelligence: Option<int>, personality: Option<int>)

  /** A row of the admin submissions API; the joined candidate and test may be
      missing. */
  datatype Submission = Submission(id: string, status: string, disqualified: bool, exported: bool,
                                   candidate: Option<Person>, test: Option<TestInfo>, scores: Option<Scores>)

  /** `x?.toLowerCase().includes(term.toLowerCase())`: an absent field is
      `undefined`, which is falsy, never a match. */
  predicate FieldHit(x: Option<string>, term: string) {
    x.Some? && Contains(ToLower(x.value), ToLower(term))
  }

  function NameOf(s: Submission): Option<string> {
    if s.candidate.Some? then s.candidate.value.name else None
  }

  function EmailOf(s: Submission): Option<string> {
    if s.candidate.Some? then s.candidate.value.email else None
  }

  function TitleOf(s: Submission): Option<string> {
    if s.test.Some? then s.test.value.title else None
  }

  predicate MatchesSearch(s: Submission, term: string) {
    FieldHit(NameOf(s), term) || FieldHit(EmailOf(s), term) || FieldHit(TitleOf(s), term)
  }

  predicate MatchesStatus(s: Submission, statusFilter: string) {
    statusFilter == "all" || s.status == statusFilter
  }

  /** `filteredSubmissions`: both the search and the status must match. */
  function FilteredSubmissions(submissions: seq<Submission>, term: string, statusFilter: string)
    : (r: seq<Submission>)
    ensures |r| <= |submissions|
    ensures Subsequence(r, submissions)
    ensures forall i :: 0 <= i < |r| ==> MatchesSearch(r[i], term) && MatchesStatus(r[i], statusFilter)
    ensures forall i :: 0 <= i < |submissions| ==>
      (MatchesSearch(submissions[i], term) && MatchesStatus(submissions[i], statusFilter) ==> submissions[i] in r)
  {
    var keep := (s: Submission) => MatchesSearch(s, term) && MatchesStatus(s, statusFilter);
    KeepIsSubsequence(submissions, keep);
    Keep(submissions, keep)
  }

  /** With an empty search every row is kept that names at least one of
      candidate name, email or test title; a row naming none of them is never
      shown, whatever the filters. */
  lemma EmptySearchNeedsOneField(s: Submission, term: string)
    ensures MatchesSearch(s, "") <==> NameOf(s).Some? || EmailOf(s).Some? || TitleOf(s).Some?
    ensures NameOf(s).None? && EmailOf(s).None? && TitleOf(s).None? ==> !MatchesSearch(s, term)
  {
    if NameOf(s).Some? {
      ContainsEmptyAndSelf(ToLower(NameOf(s).value));
    }
    if EmailOf(s).Some? {
      ContainsEmptyAndSelf(ToLower(EmailOf(s).value));
    }
    if TitleOf(s).Some? {
      ContainsEmptyAndSelf(ToLower(TitleOf(s).value));
    }
  }

  /** Filtering by a search and then by the status gives the same rows as the
      page's single filter, in either order. */
  lemma FilterIsConjunction(submissions: seq<Submission>, term: string, statusFilter: string)
    ensures FilteredSubmissions(submissions, term, statusFilter)
      == Keep(Keep(submissions, (s: Submission) => MatchesSearch(s, term)), (s: Submission) => MatchesStatus(s, statusFilter))
    ensures Keep(Keep(submissions, (s: Submission) => MatchesSearch(s, term)), (s: Submission) => MatchesStatus(s, statusFilter))
      == Keep(Keep(submissions, (s: Submission) => MatchesStatus(s, statusFilter)), (s: Submission) => MatchesSearch(s, term))
  {
    var search := (s: Submission) => MatchesSearch(s, term);
    var status := (s: Submission) => MatchesStatus(s, statusFilter);
    var keep := (s: Submission) => MatchesSearch(s, term) && MatchesStatus(s, statusFilter);
    KeepKeep(submissions, search, status, keep);
    FiltersCommute(submissions, search, status);
  }

  // ---------------------------------------------------------------------------
  // Row contents
  // ---------------------------------------------------------------------------

  /** A shadcn `Badge`: its variant (or the default one with a class) and text. */
  datatype Badge = Badge(variant: string, className: string, text: string)

  /** `getStatusBadge`. */
  function StatusBadge(s: Submission): (b: Badge)
    ensures s.disqualified ==> b == Badge("destructive", "", "Disqualified")
    ensures !s.disqualified && s.status !in ["in_progress", "submitted", "passed", "failed"] ==>
      b == Badge("outline", "", s.status)
    ensures !s.disqualified && s.status == "failed" ==> b.variant == "destructive" && b.text == "Failed"
  {
    if s.disqualified then Badge("destructive", "", "Disqualified")
    else if s.status == "in_progress" then Badge("secondary", "", "In Progress")
    else if s.status == "submitted" then Badge("default", "", "Submitted")
    else if s.status == "passed" then Badge("default", "bg-green-500", "Passed")
    else if s.status == "failed" then Badge("destructive", "", "Failed")
    else Badge("outline", "", s.status)
  }

  /** A disqualified row reads "Disqualified" whatever its status, and every
      known status has a badge text of its own. */
  lemma StatusBadgeTexts(s: Submission, t: Submission)
    requires !s.disqualified && !t.disqualified && s.status != t.status
    requires s.status in ["in_progress", "submitted", "passed", "failed"]
    requires t.status in ["in_progress", "submitted", "passed", "failed"]
    ensures StatusBadge(s).text != StatusBadge(t).text
    ensures StatusBadge(s.(disqualified := true)) == StatusBadge(t.(disqualified := true))
  {
  }

  /** `x || 0`. */
  function OrZero(x: Option<int>): int {
    if x.Some? then x.value else 0
  }

  /** `getTotalScore`: '-' without scores, else the sum of the intelligence and
      personality scores with a missing one counted as 0. */
  function TotalScore(scores: Option<Scores>): (shown: string)
    ensures scores.None? ==> shown == "-"
    ensures scores.Some? ==>
      ParseInt(shown) == Some(OrZero(scores.value.intelligence) + OrZero(scores.value.personality))
  {
    if scores.None? then "-"
    else
      var total := OrZero(scores.value.intelligence) + OrZero(scores.value.personality);
      ParseIntOfIntToString(total);
      IntToString(total)
  }

  /** The dash appears exactly for a row without scores. */
  lemma DashMeansNoScores(scores: Option<Scores>)
    ensures TotalScore(scores) == "-" <==> scores.None?
  {
    var dash := "-";
    assert !IsWhitespace(dash[0]);
    assert TrimStart(dash) == dash;
    assert SignFree(dash) == "";
    assert ParseInt(dash).None?;
  }

  /** The export button of a row is disabled while that row is being exported
      and once it has been exported. */
  predicate ExportDisabled(exportingId: Option<string>, s: Submission)
    ensures exportingId == Some(s.id) ==> ExportDisabled(exportingId, s)
  {
    exportingId == Some(s.id) || s.exported
  }

  /** An exported row can never be exported again, and a row not yet exported
      is enabled whenever no export is running or another row is being exported. */
  lemma ExportButtonState(exportingId: Option<string>, s: Submission)
    ensures s.exported ==> ExportDisabled(exportingId, s)
    ensures !s.exported && (exportingId.None? || exportingId.value != s.id) ==> !ExportDisabled(exportingId, s)
  {
  }

  /** The body `handleExport` sends. */
  datatype ExportRequest = ExportRequest(submissionId: string, action: string)

  function ExportRequestOf(s: Submission): (r: ExportRequest)
    ensures r.submissionId == s.id && r.action == "export"
  {
    ExportRequest(s.id, "export")
  }
}
