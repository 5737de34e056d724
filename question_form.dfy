/** The question editor (src/app/admin/questions/components/QuestionForm.tsx):
    the form state built from a stored question, the checks `handleSubmit`
    runs before saving, and the category-exclusive clean-up it performs on the
    form data in place.  Alerts, navigation and the server actions are recorded
    as sequences; the action's failure is a parameter. */
module QuestionForm {
  import opened Text
  import opened QuestionTypes

  datatype Mode = CreateMode | EditMode

  /** `x || undefined` for a stored score: null and 0 both leave the field unset. */
  function Truthy(v: Option<int>): (r: Option<int>)
    ensures r.Some? <==> v.Some? && v.value != 0
    ensures r.Some? ==> r == v
  {
    if v.Some? && v.value != 0 then v else None
  }

  /** The initial `formData`. */
  function InitialFormData(q: Option<Question>): (d: QuestionInput)
    ensures q.None? ==>
      d == QuestionInput(Intelligence, "", "", "", "", "", None, None, None, None, None, None, Some(true))
    ensures q.Some? ==>
      d.category == q.value.category && d.prompt == q.value.prompt
      && d.optionA == q.value.optionA && d.optionB == q.value.optionB
      && d.optionC == q.value.optionC && d.optionD == q.value.optionD
      && d.correctOption == q.value.correctOption && d.difficulty == q.value.difficulty
      && d.isActive == Some(q.value.isActive)
    // a stored score of 0 starts out unset
    ensures q.Some? ==>
      (d.scoreA.Some? <==> q.value.scoreA.Some? && q.value.scoreA.value != 0)
      && (d.scoreB.Some? <==> q.value.scoreB.Some? && q.value.scoreB.value != 0)
      && (d.scoreC.Some? <==> q.value.scoreC.Some? && q.value.scoreC.value != 0)
      && (d.scoreD.Some? <==> q.value.scoreD.Some? && q.value.scoreD.value != 0)
  {
    match q
    case None => QuestionInput(Intelligence, "", "", "", "", "", None, None, None, None, None, None, Some(true))
    case Some(v) =>
      QuestionInput(v.category, v.prompt, v.optionA, v.optionB, v.optionC, v.optionD,
                    v.correctOption, v.difficulty,
                    Truthy(v.scoreA), Truthy(v.scoreB), Truthy(v.scoreC), Truthy(v.scoreD),
                    Some(v.isActive))
  }

  /** The score typed into a score field: `parseInt(value) || 0`, so text that
      is not a number gives 0. */
  function TypedScore(value: string): (score: int)
    ensures ParseInt(value).None? ==> score == 0
    ensures ParseInt(value).Some? ==> score == ParseInt(value).value
  {
    match ParseInt(value)
    case None => 0
    case Some(n) => if n != 0 then n else 0
  }

  /** A number typed as its decimal text is read back, and a field whose text does
      not start with a number reads 0. */
  lemma TypedScoreExamples(n: int)
    ensures TypedScore(IntToString(n)) == n
    ensures TypedScore("") == 0 && TypedScore("abc") == 0
  {
    ParseIntOfIntToString(n);
    assert LeadingDigits(SignFree(TrimStart("abc"))) == "";
  }

  // ---------------------------------------------------------------------------
  // Validation
  // ---------------------------------------------------------------------------

  const PROMPT_MESSAGE := "Please enter a question prompt"
  const OPTIONS_MESSAGE := "Please fill in all options"
  const CORRECT_OPTION_MESSAGE := "Please select the correct answer for intelligence questions"
  const DIFFICULTY_MESSAGE := "Please select a difficulty level for intelligence questions"
  const SCORES_MISSING_MESSAGE := "Please provide scores for all options (0-10)"
  const SCORES_RANGE_MESSAGE := "Scores must be between 0 and 10"

  datatype SubmitCheck = Invalid(message: string) | Accepted(data: QuestionInput)

  predicate AllOptionsFilled(d: QuestionInput) {
    !IsBlank(d.optionA) && !IsBlank(d.optionB) && !IsBlank(d.optionC) && !IsBlank(d.optionD)
  }

  predicate ScoresPresent(d: QuestionInput) {
    d.scoreA.Some? && d.scoreB.Some? && d.scoreC.Some? && d.scoreD.Some?
  }

  predicate InScoreRange(v: Option<int>) {
    v.Some? && 0 <= v.value <= 10
  }

  /** What an acceptable form is, stated at once rather than as a chain of returns. */
  predicate Acceptable(d: QuestionInput) {
    !IsBlank(d.prompt) && AllOptionsFilled(d)
    && (d.category == Intelligence ==> d.correctOption.Some? && d.difficulty.Some?)
    && (d.category == Personality ==>
          InScoreRange(d.scoreA) && InScoreRange(d.scoreB) && InScoreRange(d.scoreC) && InScoreRange(d.scoreD))
  }

  /** An accepted form never carries both the intelligence fields and the scores. */
  predicate CategoryExclusive(d: QuestionInput) {
    (d.category == Intelligence ==> d.scoreA.None? && d.scoreB.None? && d.scoreC.None? && d.scoreD.None?)
    && (d.category == Personality ==> d.correctOption.None? && d.difficulty.None?)
  }

  /** The checks of `handleSubmit`, in order, and the clean-up on success. */
  function CheckForm(d: QuestionInput): (c: SubmitCheck)
    ensures c.Accepted? <==> Acceptable(d)
    ensures IsBlank(d.prompt) ==> c == Invalid(PROMPT_MESSAGE)
    ensures !IsBlank(d.prompt) && !AllOptionsFilled(d) ==> c == Invalid(OPTIONS_MESSAGE)
    ensures !IsBlank(d.prompt) && AllOptionsFilled(d) && d.category == Personality && !ScoresPresent(d) ==>
      c == Invalid(SCORES_MISSING_MESSAGE)
    ensures c.Accepted? ==> CategoryExclusive(c.data)
    ensures c.Accepted? && d.category == Intelligence ==>
      c.data == d.(scoreA := None, scoreB := None, scoreC := None, scoreD := None)
    ensures c.Accepted? && d.category == Personality ==>
      c.data == d.(correctOption := None, difficulty := None)
  {
    if IsBlank(d.prompt) then Invalid(PROMPT_MESSAGE)
    else if IsBlank(d.optionA) || IsBlank(d.optionB) || IsBlank(d.optionC) || IsBlank(d.optionD) then
      Invalid(OPTIONS_MESSAGE)
    else if d.category == Intelligence then
      if d.correctOption.None? then Invalid(CORRECT_OPTION_MESSAGE)
      else if d.difficulty.None? then Invalid(DIFFICULTY_MESSAGE)
      else Accepted(d.(scoreA := None, scoreB := None, scoreC := None, scoreD := None))
    else
      if d.scoreA.None? || d.scoreB.None? || d.scoreC.None? || d.scoreD.None? then
        Invalid(SCORES_MISSING_MESSAGE)
      else if OutOfRange(d.scoreA.value) || OutOfRange(d.scoreB.value)
              || OutOfRange(d.scoreC.value) || OutOfRange(d.scoreD.value) then
        Invalid(SCORES_RANGE_MESSAGE)
      else Accepted(d.(correctOption := None, difficulty := None))
  }

  predicate OutOfRange(score: int) {
    score < 0 || score > 10
  }

  /** Accepting cleans up without changing the verdict: the cleaned data passes
      the checks again and is left as it is. */
  lemma CheckFormIsIdempotent(d: QuestionInput)
    requires CheckForm(d).Accepted?
    ensures CheckForm(CheckForm(d).data) == CheckForm(d)
  {
  }

  /** A blank prompt is reported whatever the options hold. */
  lemma PromptIsCheckedFirst(d: QuestionInput, a: string, b: string, c: string, e: string)
    requires IsBlank(d.prompt)
    ensures CheckForm(d.(optionA := a, optionB := b, optionC := c, optionD := e)) == Invalid(PROMPT_MESSAGE)
  {
  }

  // ---------------------------------------------------------------------------
  // The component
  // ---------------------------------------------------------------------------

  datatype ActionCall = CreateCall(input: QuestionInput) | UpdateCall(id: string, input: QuestionInput)

  /** The server action a saved form calls: create in create mode, update with the
      question's id in edit mode, and none in edit mode without a question. */
  function ActionFor(mode: Mode, q: Option<Question>, d: QuestionInput): (calls: seq<ActionCall>)
    ensures |calls| <= 1
    ensures mode == CreateMode ==> calls == [CreateCall(d)]
    ensures mode == EditMode ==> (calls != [] <==> q.Some?)
    ensures mode == EditMode && q.Some? ==> calls == [UpdateCall(q.value.id, d)]
  {
    if mode == CreateMode then [CreateCall(d)]
    else if q.Some? then [UpdateCall(q.value.id, d)]
    else []
  }

  const QUESTIONS_PATH := "/admin/questions"

  class QuestionFormState {
    const question: Option<Question>
    const mode: Mode
    var formData: QuestionInput
    var loading: bool
    var calls: seq<ActionCall>
    var alerts: seq<string>
    var navigations: seq<string>

    constructor (question: Option<Question>, mode: Mode)
      ensures this.question == question && this.mode == mode
      ensures formData == InitialFormData(question) && !loading
      ensures calls == [] && alerts == [] && navigations == []
    {
      this.question := question;
      this.mode := mode;
      formData := InitialFormData(question);
      loading := false;
      calls := [];
      alerts := [];
      navigations := [];
    }

    /** The `try` block of `handleSubmit` on checked data: the server action, then
        the alert of its error or the way back to the question bank. */
    method Save(actionError: Option<string>)
      modifies this
      ensures formData == old(formData) && loading == old(loading)
      ensures calls == old(calls) + ActionFor(mode, question, formData)
      ensures ActionFor(mode, question, formData) != [] && actionError.Some? ==>
        alerts == old(alerts) + [actionError.value] && navigations == old(navigations)
      ensures ActionFor(mode, question, formData) == [] || actionError.None? ==>
        alerts == old(alerts) && navigations == old(navigations) + [QUESTIONS_PATH]
    {
      var called := false;
      if mode == CreateMode {
        calls := calls + [CreateCall(formData)];
        called := true;
      } else if question.Some? {
        calls := calls + [UpdateCall(question.value.id, formData)];
        called := true;
      }
      if called && actionError.Some? {
        alerts := alerts + [actionError.value];
      } else {
        navigations := navigations + [QUESTIONS_PATH];
      }
    }

    /** `handleSubmit`.  `actionError` is the message the server action throws,
        if it fails. */
    method HandleSubmit(actionError: Option<string>)
      modifies this
      ensures !loading
      ensures CheckForm(old(formData)).Invalid? ==>
        formData == old(formData) && calls == old(calls) && navigations == old(navigations)
        && alerts == old(alerts) + [CheckForm(old(formData)).message]
      ensures CheckForm(old(formData)).Accepted? ==>
        formData == CheckForm(old(formData)).data
        && calls == old(calls) + ActionFor(mode, question, formData)
      ensures CheckForm(old(formData)).Accepted? && ActionFor(mode, question, formData) != [] && actionError.Some? ==>
        alerts == old(alerts) + [actionError.value] && navigations == old(navigations)
      ensures CheckForm(old(formData)).Accepted? && (ActionFor(mode, question, formData) == [] || actionError.None?) ==>
        alerts == old(alerts) && navigations == old(navigations) + [QUESTIONS_PATH]
    {
      loading := true;
      var d := formData;
      if IsBlank(d.prompt) {
        alerts := alerts + [PROMPT_MESSAGE];
        loading := false;
        return;
      }
      if IsBlank(d.optionA) || IsBlank(d.optionB) || IsBlank(d.optionC) || IsBlank(d.optionD) {
        alerts := alerts + [OPTIONS_MESSAGE];
        loading := false;
        return;
      }
      if d.category == Intelligence {
        if d.correctOption.None? {
          alerts := alerts + [CORRECT_OPTION_MESSAGE];
          loading := false;
          return;
        }
        if d.difficulty.None? {
          alerts := alerts + [DIFFICULTY_MESSAGE];
          loading := false;
          return;
        }
        formData := formData.(scoreA := None);
        formData := formData.(scoreB := None);
        formData := formData.(scoreC := None);
        formData := formData.(scoreD := None);
      } else {
        if d.scoreA.None? || d.scoreB.None? || d.scoreC.None? || d.scoreD.None? {
          alerts := alerts + [SCORES_MISSING_MESSAGE];
          loading := false;
          return;
        }
        var scores := [d.scoreA.value, d.scoreB.value, d.scoreC.value, d.scoreD.value];
        if exists i :: 0 <= i < 4 && OutOfRange(scores[i]) {
          assert OutOfRange(d.scoreA.value) || OutOfRange(d.scoreB.value)
                 || OutOfRange(d.scoreC.value) || OutOfRange(d.scoreD.value);
          alerts := alerts + [SCORES_RANGE_MESSAGE];
          loading := false;
          return;
        }
        assert !OutOfRange(scores[0]) && !OutOfRange(scores[1]) && !OutOfRange(scores[2]) && !OutOfRange(scores[3]);
        formData := formData.(correctOption := None);
        formData := formData.(difficulty := None);
      }
      Save(actionError);
      loading := false;
    }
  }
}
