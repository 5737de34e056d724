/** The question list (src/app/admin/questions/components/QuestionTable.tsx):
    prompt truncation, the per-category cells of a row and the value the
    activity toggle sends. */
module QuestionTable {
  import opened Text
  import opened QuestionTypes

  /** `text.substring(0, n)`: a negative end counts as 0 and an end past the
      text as its length. */
  function Prefix(text: string, n: int): (r: string)
    ensures |r| == (if n < 0 then 0 else Min(n, |text|)) && r == text[..|r|]
  {
    if n <= 0 then "" else if n >= |text| then text else text[..n]
  }

  /** `truncate(text, length)`. */
  function Truncate(text: string, length: int): (r: string)
    ensures |text| <= length ==> r == text
    ensures |text| > length && length >= 0 ==>
      |r| == length + 3 && r[..length] == text[..length] && r[length..] == "..."
    ensures |text| > length && length < 0 ==> r == "..."
  {
    if |text| > length then Prefix(text, length) + "..." else text
  }

  /** Truncating twice with the same length is truncating once. */
  lemma TruncateIsIdempotent(text: string, length: int)
    ensures Truncate(Truncate(text, length), length) == Truncate(text, length)
  {
    var once := Truncate(text, length);
    if |text| > length && length >= 0 {
      assert Prefix(once, length) == text[..length];
    }
  }

  /** The prompt column shows at most 103 characters. */
  lemma PromptCellIsBounded(q: Question)
    ensures |Truncate(q.prompt, 100)| <= 103
  {
  }

  /** The difficulty column. */
  datatype DifficultyCell = DifficultyBadge(caption: string, color: string) | NotApplicable | Dash

  function DifficultyColor(d: Difficulty): string {
    match d
    case Easy => "bg-green-100 text-green-800"
    case Medium => "bg-yellow-100 text-yellow-800"
    case Hard => "bg-red-100 text-red-800"
  }

  /** Each difficulty has its own badge colour. */
  lemma DifficultyColorsDistinct(d: Difficulty, e: Difficulty)
    ensures DifficultyColor(d) == DifficultyColor(e) ==> d == e
  {
    assert DifficultyColor(d)[3] == (match d case Easy => 'g' case Medium => 'y' case Hard => 'r');
    assert DifficultyColor(e)[3] == (match e case Easy => 'g' case Medium => 'y' case Hard => 'r');
  }

  function DifficultyCellOf(q: Question): (c: DifficultyCell)
    ensures c.DifficultyBadge? <==> q.category.Intelligence? && q.difficulty.Some?
    ensures c.Dash? <==> q.category.Personality?
    ensures c.DifficultyBadge? ==> c.caption == DifficultyName(q.difficulty.value)
  {
    if q.category.Intelligence? then
      if q.difficulty.Some? then DifficultyBadge(DifficultyName(q.difficulty.value), DifficultyColor(q.difficulty.value))
      else NotApplicable
    else Dash
  }

  /** The correct-answer column: the letter for intelligence questions, the four
      scores for personality questions. */
  datatype AnswerCell = Letter(letter: string) | AnswerNotApplicable | Scores(a: int, b: int, c: int, d: int)

  /** `score ?? 0`. */
  function ShownScore(v: Option<int>): int {
    if v.Some? then v.value else 0
  }

  function AnswerCellOf(q: Question): (c: AnswerCell)
    ensures c.Scores? <==> q.category.Personality?
    ensures c.Letter? <==> q.category.Intelligence? && q.correctOption.Some?
    ensures c.Letter? ==> |c.letter| == 1 && 'A' <= c.letter[0] <= 'D'
    ensures c.Scores? ==>
      c == Scores(ShownScore(q.scoreA), ShownScore(q.scoreB), ShownScore(q.scoreC), ShownScore(q.scoreD))
  {
    if q.category.Intelligence? then
      if q.correctOption.Some? then Letter(ToUpper(CorrectOptionValue(q.correctOption.value)))
      else AnswerNotApplicable
    else Scores(ShownScore(q.scoreA), ShownScore(q.scoreB), ShownScore(q.scoreC), ShownScore(q.scoreD))
  }

  /** Intelligence rows never show scores and personality rows never show a
      difficulty or a letter, whatever the stored row holds. */
  lemma CellsFollowCategory(q: Question)
    ensures q.category.Intelligence? ==> !AnswerCellOf(q).Scores? && !DifficultyCellOf(q).Dash?
    ensures q.category.Personality? ==> DifficultyCellOf(q) == Dash && !AnswerCellOf(q).Letter?
    ensures q.category.Personality? && q.scoreA.None? ==> AnswerCellOf(q).a == 0
  {
  }

  function StatusLabel(q: Question): (caption: string)
    ensures caption == "Active" <==> q.isActive
    ensures caption == "Inactive" <==> !q.isActive
  {
    if q.isActive then "Active" else "Inactive"
  }

  /** `handleToggle(q.id, q.is_active)` sends the opposite of the current status. */
  function ToggleArgument(q: Question): (sent: bool)
    ensures sent != q.isActive
  {
    !q.isActive
  }

  /** Toggling a question and then toggling the result restores the status. */
  lemma ToggleTwiceRestores(q: Question)
    ensures ToggleArgument(q.(isActive := ToggleArgument(q))) == q.isActive
  {
  }
}
