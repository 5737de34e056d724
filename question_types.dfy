/** The question-bank types of src/types/database.ts. */
module QuestionTypes {
  import opened Text

  datatype Category = Intelligence | Personality

  datatype Difficulty = Easy | Medium | Hard

  /** `CorrectOption`: the lower-case letters 'a' to 'd'. */
  datatype CorrectOption = OptionA | OptionB | OptionC | OptionD

  function CategoryName(c: Category): string {
    match c
    case Intelligence => "intelligence"
    case Personality => "personality"
  }

  function DifficultyName(d: Difficulty): string {
    match d
    case Easy => "easy"
    case Medium => "medium"
    case Hard => "hard"
  }

  function CorrectOptionValue(o: CorrectOption): (v: string)
    ensures |v| == 1 && 'a' <= v[0] <= 'd'
  {
    match o
    case OptionA => "a"
    case OptionB => "b"
    case OptionC => "c"
    case OptionD => "d"
  }

  /** The value chosen in the correct-answer `<select>`; the placeholder "" and
      anything else select nothing. */
  function ParseCorrectOption(value: string): (o: Option<CorrectOption>)
    ensures o.Some? ==> CorrectOptionValue(o.value) == value
  {
    if value == "a" then Some(OptionA)
    else if value == "b" then Some(OptionB)
    else if value == "c" then Some(OptionC)
    else if value == "d" then Some(OptionD)
    else None
  }

  /** The select's four option values read back as the letters they name, and
      the placeholder selects nothing. */
  lemma CorrectOptionRoundTrip(o: CorrectOption)
    ensures ParseCorrectOption(CorrectOptionValue(o)) == Some(o)
    ensures ParseCorrectOption("") == None
    ensures ParseCorrectOption("A") == None
  {
  }

  /** A stored `questions` row; a null or absent column is `None`. */
  datatype Question = Question(
    id: string, category: Category, prompt: string,
    optionA: string, optionB: string, optionC: string, optionD: string,
    correctOption: Option<CorrectOption>, difficulty: Option<Difficulty>,
    scoreA: Option<int>, scoreB: Option<int>, scoreC: Option<int>, scoreD: Option<int>,
    isActive: bool, createdAt: string)

  /** `CreateQuestionInput`; `None` is a field left undefined. */
  datatype QuestionInput = QuestionInput(
    category: Category, prompt: string,
    optionA: string, optionB: string, optionC: string, optionD: string,
    correctOption: Option<CorrectOption>, difficulty: Option<Difficulty>,
    scoreA: Option<int>, scoreB: Option<int>, scoreC: Option<int>, scoreD: Option<int>,
    isActive: Option<bool>)

  /** A JSON value of a request body field. */
  datatype FieldValue = Str(s: string) | Num(n: int) | Flag(b: bool)

  /** The columns of the `questions` table a request body may name. */
  datatype Column =
    | IdColumn | CategoryColumn | PromptColumn
    | OptionAColumn | OptionBColumn | OptionCColumn | OptionDColumn
    | CorrectOptionColumn | DifficultyColumn
    | ScoreAColumn | ScoreBColumn | ScoreCColumn | ScoreDColumn
    | IsActiveColumn

  const COLUMNS: set<Column> := {
    IdColumn, CategoryColumn, PromptColumn, OptionAColumn, OptionBColumn, OptionCColumn, OptionDColumn,
    CorrectOptionColumn, DifficultyColumn, ScoreAColumn, ScoreBColumn, ScoreCColumn, ScoreDColumn,
    IsActiveColumn }

  lemma ColumnListed(c: Column)
    ensures c in COLUMNS
  {
    match c
    case IdColumn =>
    case CategoryColumn =>
    case PromptColumn =>
    case OptionAColumn =>
    case OptionBColumn =>
    case OptionCColumn =>
    case OptionDColumn =>
    case CorrectOptionColumn =>
    case DifficultyColumn =>
    case ScoreAColumn =>
    case ScoreBColumn =>
    case ScoreCColumn =>
    case ScoreDColumn =>
    case IsActiveColumn =>
  }

  function NumField(v: Option<int>): Option<FieldValue> {
    if v.Some? then Some(Num(v.value)) else None
  }

  /** The value an input holds for a column, if the field is defined. */
  function FieldOf(d: QuestionInput, c: Column): Option<FieldValue> {
    match c
    case IdColumn => None
    case CategoryColumn => Some(Str(CategoryName(d.category)))
    case PromptColumn => Some(Str(d.prompt))
    case OptionAColumn => Some(Str(d.optionA))
    case OptionBColumn => Some(Str(d.optionB))
    case OptionCColumn => Some(Str(d.optionC))
    case OptionDColumn => Some(Str(d.optionD))
    case CorrectOptionColumn =>
      if d.correctOption.Some? then Some(Str(CorrectOptionValue(d.correctOption.value))) else None
    case DifficultyColumn =>
      if d.difficulty.Some? then Some(Str(DifficultyName(d.difficulty.value))) else None
    case ScoreAColumn => NumField(d.scoreA)
    case ScoreBColumn => NumField(d.scoreB)
    case ScoreCColumn => NumField(d.scoreC)
    case ScoreDColumn => NumField(d.scoreD)
    case IsActiveColumn => if d.isActive.Some? then Some(Flag(d.isActive.value)) else None
  }

  /** The body an input is sent as: fields left undefined are not sent at all
      (JSON has no `undefined`), and an input has no `id`. */
  function Fields(d: QuestionInput): (m: map<Column, FieldValue>)
    ensures IdColumn !in m
    ensures forall c :: c in m <==> FieldOf(d, c).Some?
    ensures forall c :: c in m ==> m[c] == FieldOf(d, c).value
  {
    forall c: Column ensures c in COLUMNS {
      ColumnListed(c);
    }
    map c | c in COLUMNS && FieldOf(d, c).Some? :: FieldOf(d, c).value
  }
}
