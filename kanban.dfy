/** The recruiter's Kanban board (src/app/recruiter/dashboard/KanbanBoard.tsx):
    the five columns the filtered submissions are shared out over, and what
    each card shows. */
module Kanban {
  import opened Text
  import opened Lists
  import opened RecruiterDashboard
  import Schemas

  const LISTED_STATUSES: seq<string> := ["in_progress", "submitted", "passed", "failed"]

  /** One `KanbanColumn`. */
  datatype Column = Column(title: string, submissions: seq<Submission>, count: nat, color: string)

  /** `s => s.status === status`. */
  function HasStatus(status: string): Submission -> bool {
    (s: Submission) => s.status == status
  }

  function StatusColumn(title: string, status: string, color: string, submissions: seq<Submission>): (c: Column)
    ensures c.count == |c.submissions| && c.title == title
    ensures forall x :: x in c.submissions <==> x in submissions && x.status == status
    ensures Subsequence(c.submissions, submissions)
  {
    var keep := HasStatus(status);
    var selected := Keep(submissions, keep);
    KeepIsSubsequence(submissions, keep);
    assert forall x :: x in selected <==> x in submissions && x.status == status by {
      forall x ensures x in selected <==> x in submissions && x.status == status {
        if x in submissions && x.status == status {
          var i :| 0 <= i < |submissions| && submissions[i] == x;
        }
        if x in selected {
          var i :| 0 <= i < |selected| && selected[i] == x;
        }
      }
    }
    Column(title, selected, |selected|, color)
  }

  function DisqualifiedColumn(submissions: seq<Submission>): (c: Column)
    ensures c.count == |c.submissions| && c.title == "Disqualified"
    ensures forall x :: x in c.submissions <==> x in submissions && x.disqualified
    ensures Subsequence(c.submissions, submissions)
  {
    var keep := (s: Submission) => s.disqualified == true;
    var selected := Keep(submissions, keep);
    KeepIsSubsequence(submissions, keep);
    assert forall x :: x in selected <==> x in submissions && x.disqualified by {
      forall x ensures x in selected <==> x in submissions && x.disqualified {
        if x in submissions && x.disqualified {
          var i :| 0 <= i < |submissions| && submissions[i] == x;
        }
        if x in selected {
          var i :| 0 <= i < |selected| && selected[i] == x;
        }
      }
    }
    Column("Disqualified", selected, |selected|, "bg-red-600")
  }

  const COLUMN_TITLES: seq<string> := ["In Progress", "Submitted", "Passed", "Failed", "Disqualified"]
  const COLUMN_COLORS: seq<string> := ["bg-blue-600", "bg-yellow-600", "bg-green-600", "bg-gray-600", "bg-red-600"]

  /** The `k`-th `KanbanColumn` of the board: one of the four listed statuses,
      or the disqualification flag for the last. */
  function ColumnAt(submissions: seq<Submission>, k: nat): (c: Column)
    requires k < 5
    ensures c.count == |c.submissions| && c.title == COLUMN_TITLES[k]
    ensures Subsequence(c.submissions, submissions)
    ensures k < 4 ==> forall x :: x in c.submissions <==> x in submissions && x.status == LISTED_STATUSES[k]
    ensures k == 4 ==> forall x :: x in c.submissions <==> x in submissions && x.disqualified
  {
    if k < 4 then StatusColumn(COLUMN_TITLES[k], LISTED_STATUSES[k], COLUMN_COLORS[k], submissions)
    else DisqualifiedColumn(submissions)
  }

  /** `KanbanBoard`: four columns by status and one by the disqualification
      flag, each counting its own cards (what they hold is `ColumnContents`). */
  function Board(submissions: seq<Submission>): (b: seq<Column>)
    ensures |b| == 5
    ensures forall k :: 0 <= k < 5 ==> b[k].count == |b[k].submissions| && b[k].title == COLUMN_TITLES[k]
  {
    seq(5, k requires 0 <= k < 5 => ColumnAt(submissions, k))
  }

  /** Column `k < 4` holds exactly the submissions with the `k`-th listed
      status, the last one exactly the disqualified submissions. */
  lemma ColumnContents(submissions: seq<Submission>, k: nat)
    requires k < 5
    ensures k < 4 ==> forall x :: x in Board(submissions)[k].submissions <==> x in submissions && x.status == LISTED_STATUSES[k]
    ensures k == 4 ==> forall x :: x in Board(submissions)[k].submissions <==> x in submissions && x.disqualified
  {
    assert Board(submissions)[k] == ColumnAt(submissions, k);
  }

  /** Every column lists its submissions in the order of the board's input. */
  lemma ColumnsKeepOrder(submissions: seq<Submission>, k: nat)
    requires k < 5
    ensures Subsequence(Board(submissions)[k].submissions, submissions)
  {
    assert Board(submissions)[k] == ColumnAt(submissions, k);
  }

  /** A disqualified submission is shown twice, in its status column and in the
      Disqualified column; one with an unlisted status that is not disqualified
      is shown nowhere. */
  lemma Placement(submissions: seq<Submission>, x: Submission)
    requires x in submissions
    ensures x.disqualified && x.status in LISTED_STATUSES ==>
      exists k :: 0 <= k < 4 && x in Board(submissions)[k].submissions && x in Board(submissions)[4].submissions
    ensures !x.disqualified && x.status !in LISTED_STATUSES ==>
      forall k :: 0 <= k < 5 ==> x !in Board(submissions)[k].submissions
  {
    if x.disqualified && x.status in LISTED_STATUSES {
      var k :| 0 <= k < 4 && LISTED_STATUSES[k] == x.status;
      ColumnContents(submissions, k);
      ColumnContents(submissions, 4);
    }
    if !x.disqualified && x.status !in LISTED_STATUSES {
      forall k | 0 <= k < 5 ensures x !in Board(submissions)[k].submissions {
        ColumnContents(submissions, k);
      }
    }
  }

  predicate Unlisted(s: Submission) {
    s.status !in LISTED_STATUSES
  }

  /** Every submission has exactly one of the four listed statuses, or none. */
  lemma {:induction false} StatusCountsPartition(submissions: seq<Submission>)
    ensures |Keep(submissions, HasStatus("in_progress"))| + |Keep(submissions, HasStatus("submitted"))|
      + |Keep(submissions, HasStatus("passed"))| + |Keep(submissions, HasStatus("failed"))|
      + |Keep(submissions, Unlisted)| == |submissions|
    decreases |submissions|
  {
    if |submissions| > 0 {
      StatusCountsPartition(submissions[1..]);
    }
  }

  /** The four status columns and the unlisted submissions together account for
      every submission exactly once. */
  lemma StatusColumnsPartition(submissions: seq<Submission>)
    ensures var b := Board(submissions);
      b[0].count + b[1].count + b[2].count + b[3].count + |Keep(submissions, Unlisted)| == |submissions|
  {
    var b := Board(submissions);
    assert b[0] == ColumnAt(submissions, 0) && b[1] == ColumnAt(submissions, 1);
    assert b[2] == ColumnAt(submissions, 2) && b[3] == ColumnAt(submissions, 3);
    StatusCountsPartition(submissions);
  }

  // ---------------------------------------------------------------------------
  // The cards
  // ---------------------------------------------------------------------------

  /** `getStatusColor`: the disqualification flag wins over any status. */
  function StatusColor(status: string, disqualified: bool): (c: string)
    ensures disqualified ==> c == "bg-red-100 text-red-800"
    ensures !disqualified && status !in LISTED_STATUSES ==> c == "bg-gray-100 text-gray-800"
  {
    if disqualified then "bg-red-100 text-red-800"
    else if status == "in_progress" then "bg-blue-100 text-blue-800"
    else if status == "submitted" then "bg-yellow-100 text-yellow-800"
    else if status == "passed" then "bg-green-100 text-green-800"
    else if status == "failed" then "bg-gray-100 text-gray-800"
    else "bg-gray-100 text-gray-800"
  }

  /** Only a disqualified card is red, and a failed card looks like one with an
      unknown status. */
  lemma StatusColorCases(status: string, disqualified: bool)
    ensures StatusColor(status, disqualified) == "bg-red-100 text-red-800" <==> disqualified
    ensures !disqualified ==> StatusColor("failed", false) == StatusColor("archived", false)
  {
  }

  /** `s.replace(from, to)` with a one-character pattern: only the first
      occurrence is replaced. */
  function ReplaceFirst(s: string, from: char, to: char): (r: string)
    ensures |r| == |s|
    ensures forall j :: 0 <= j < |s| && j != IndexOf(s, from) ==> r[j] == s[j]
    ensures IndexOf(s, from) < |s| ==> r[IndexOf(s, from)] == to
  {
    var i := IndexOf(s, from);
    if i < |s| then s[..i] + [to] + s[i + 1..] else s
  }

  /** The badge text of a card. */
  function BadgeLabel(s: Submission): (text: string)
    ensures s.disqualified ==> text == "Disqualified"
    ensures !s.disqualified ==> |text| == |s.status|
    ensures !s.disqualified ==> forall j :: 0 <= j < |s.status| ==>
      text[j] == UpperChar(if j == IndexOf(s.status, '_') then ' ' else s.status[j])
  {
    if s.disqualified then "Disqualified" else ToUpper(ReplaceFirst(s.status, '_', ' '))
  }

  /** The usual multi-word status reads with a space. */
  lemma InProgressBadge(s: Submission)
    requires !s.disqualified && s.status == "in_progress"
    ensures BadgeLabel(s) == "IN PROGRESS"
  {
    UnderscoreOfInProgress();
    UpperInProgress();
  }

  lemma UpperInProgress()
    ensures ToUpper("in progress") == "IN PROGRESS"
  {
    var up := ToUpper("in progress");
    var target := "IN PROGRESS";
    forall j | 0 <= j < 11 ensures up[j] == target[j] {
      assert up[j] == UpperChar("in progress"[j]);
    }
  }

  lemma UnderscoreOfInProgress()
    ensures ReplaceFirst("in_progress", '_', ' ') == "in progress"
  {
    IndexOfIs("in_progress", '_', 2);
  }

  /** Only the first underscore becomes a space. */
  lemma OnlyFirstUnderscoreReplaced(s: Submission)
    requires !s.disqualified && s.status == "a_b_c"
    ensures BadgeLabel(s) == "A B_C"
  {
    IndexOfIs(s.status, '_', 1);
    assert ReplaceFirst(s.status, '_', ' ') == "a b_c";
  }

  lemma {:induction false} IndexOfIs(s: string, c: char, i: nat)
    requires i < |s| && s[i] == c && c !in s[..i]
    ensures IndexOf(s, c) == i
    decreases i
  {
    if i > 0 {
      assert s[0] == s[..i][0];
      assert s[1..][..i - 1] == s[1..i];
      assert s[1..i] == s[..i][1..];
      IndexOfIs(s[1..], c, i - 1);
    }
  }

  /** `x || fallback` on an optional string. */
  function OrElse(x: Option<string>, fallback: string): (r: string)
    ensures x.Some? && x.value != "" ==> r == x.value
    ensures x.None? || x == Some("") ==> r == fallback
  {
    if x.Some? && x.value != "" then x.value else fallback
  }

  datatype CardText = CardText(name: string, email: string, test: string)

  /** The three text lines of a card; none of them is ever empty. */
  function CardTextOf(s: Submission): (c: CardText)
    ensures c.name != "" && c.email != "" && c.test != ""
    ensures s.candidate.None? ==> c.name == "Unknown" && c.email == "No email"
    ensures s.testTitle.None? ==> c.test == s.testType + " Test"
  {
    var name := if s.candidate.Some? then s.candidate.value.name else None;
    var email := if s.candidate.Some? then s.candidate.value.email else None;
    CardText(OrElse(name, "Unknown"), OrElse(email, "No email"), OrElse(s.testTitle, s.testType + " Test"))
  }

  /** The status update a recruiter may send moves a submission into one of the
      board's columns other than "In Progress", and each of those three columns
      can be reached. */
  lemma StatusUpdatesLandOnTheBoard(isUuid: string -> bool, submissionId: string, status: string)
    ensures Schemas.ParseStatusUpdate(isUuid, submissionId, status) ==>
      status in LISTED_STATUSES && status != LISTED_STATUSES[0]
    ensures forall k :: 1 <= k < |LISTED_STATUSES| ==> Schemas.StatusAccepted(LISTED_STATUSES[k])
  {
  }
}
