/** The question-bank server actions (src/app/admin/questions/actions.ts):
    the paging arithmetic and query steps of `getQuestions`, the row
    `createQuestion` inserts and the split `updateQuestion` makes.  The
    database itself is outside the model. */
module QuestionActions {
  import opened Text
  import opened QuestionTypes

  datatype QuestionFilters = QuestionFilters(category: Option<Category>, difficulty: Option<string>,
                                             search: Option<string>, page: Option<int>, limit: Option<int>)

  /** `filters?.page || 1`: an absent page and page 0 both mean page 1. */
  function PageOf(f: QuestionFilters): (page: int)
    ensures page != 0
    ensures f.page.Some? && f.page.value != 0 ==> page == f.page.value
    ensures f.page.None? || f.page == Some(0) ==> page == 1
  {
    if f.page.Some? && f.page.value != 0 then f.page.value else 1
  }

  /** `filters?.limit || 50`: never zero. */
  function LimitOf(f: QuestionFilters): (limit: int)
    ensures limit != 0
    ensures f.limit.Some? && f.limit.value != 0 ==> limit == f.limit.value
    ensures f.limit.None? || f.limit == Some(0) ==> limit == 50
  {
    if f.limit.Some? && f.limit.value != 0 then f.limit.value else 50
  }

  /** The rows `range(offset, offset + limit - 1)` asks for, both ends included. */
  datatype Window = Window(first: int, last: int)

  function PageWindow(page: int, limit: int): (w: Window)
    ensures w.first == (page - 1) * limit
    ensures w.last - w.first + 1 == limit
  {
    var offset := (page - 1) * limit;
    Window(offset, offset + limit - 1)
  }

  /** A page starts right after the previous one ends. */
  lemma ConsecutivePagesAreAdjacent(page: int, limit: int)
    ensures PageWindow(page + 1, limit).first == PageWindow(page, limit).last + 1
  {
    assert (page + 1 - 1) * limit == (page - 1) * limit + limit;
  }

  /** With a positive limit, distinct pages ask for disjoint rows, and row `k`
      (from 0) is on page `k / limit + 1`. */
  lemma PagesPartitionRows(p: int, q: int, limit: int, k: nat)
    requires limit > 0 && p < q
    ensures PageWindow(p, limit).last < PageWindow(q, limit).first
    ensures var w := PageWindow(k / limit + 1, limit); w.first <= k <= w.last
  {
    assert (q - 1) * limit - (p - 1) * limit == (q - p) * limit;
    assert (q - p) * limit >= limit by {
      assert q - p >= 1;
    }
    var d := k / limit;
    assert d * limit <= k < d * limit + limit;
  }

  /** One step of the query builder. */
  datatype QueryStep =
    | SelectAllWithCount
    | OrderByCreatedAtDescending
    | EqCategory(category: Category)
    | EqDifficulty(difficulty: string)
    | PromptILike(pattern: string)
    | RangeStep(from: int, to: int)

  /** The builder steps of `getQuestions`, in order: select, order, the filters
      that are set, then the page range. */
  method BuildQuery(f: QuestionFilters) returns (query: seq<QueryStep>)
    ensures |query| >= 3 && query[0] == SelectAllWithCount && query[1] == OrderByCreatedAtDescending
    ensures var w := PageWindow(PageOf(f), LimitOf(f)); query[|query| - 1] == RangeStep(w.first, w.last)
    ensures forall c :: EqCategory(c) in query <==> f.category == Some(c)
    ensures forall d :: EqDifficulty(d) in query <==> f.difficulty == Some(d) && d != ""
    ensures forall p :: PromptILike(p) in query <==> f.search.Some? && f.search.value != "" && p == "%" + f.search.value + "%"
    ensures |query| == 3 + (if f.category.Some? then 1 else 0)
      + (if f.difficulty.Some? && f.difficulty.value != "" then 1 else 0)
      + (if f.search.Some? && f.search.value != "" then 1 else 0)
  {
    var page := PageOf(f);
    var limit := LimitOf(f);
    var offset := (page - 1) * limit;
    query := [SelectAllWithCount, OrderByCreatedAtDescending];
    if f.category.Some? {
      query := query + [EqCategory(f.category.value)];
    }
    if f.difficulty.Some? && f.difficulty.value != "" {
      query := query + [EqDifficulty(f.difficulty.value)];
    }
    if f.search.Some? && f.search.value != "" {
      query := query + [PromptILike("%" + f.search.value + "%")];
    }
    query := query + [RangeStep(offset, offset + limit - 1)];
  }

  /** What `getQuestions` returns besides the rows. */
  datatype QuestionsPage = QuestionsPage(count: int, page: int, totalPages: int)

  /** `count` from the database (`None` when null) turned into the page summary:
      the count defaults to 0 and the number of pages is the count over the
      limit, rounded up. */
  function PageSummary(f: QuestionFilters, count: Option<int>): (r: QuestionsPage)
    ensures r.count == (if count.Some? then count.value else 0)
    ensures r.page == PageOf(f)
    ensures LimitOf(f) > 0 ==>
      (r.totalPages - 1) * LimitOf(f) < r.count <= r.totalPages * LimitOf(f)
    ensures count.None? || count == Some(0) ==> r.totalPages == 0
  {
    var c := if count.Some? then count.value else 0;
    QuestionsPage(c, PageOf(f), CeilDiv(c, LimitOf(f)))
  }

  /** With a positive limit, every row of the count lies on one of the
      `totalPages` pages, and the last page is not empty. */
  lemma EveryRowHasAPage(f: QuestionFilters, count: nat, k: nat)
    requires LimitOf(f) > 0 && k < count
    ensures var limit := LimitOf(f); var s := PageSummary(f, Some(count));
      1 <= k / limit + 1 <= s.totalPages
  {
    var limit := LimitOf(f);
    var s := PageSummary(f, Some(count));
    var d := k / limit;
    assert d * limit <= k;
    if d + 1 > s.totalPages {
      assert s.totalPages * limit <= d * limit by {
        MultiplyIsMonotone(s.totalPages, d, limit);
      }
      assert false;
    }
  }

  lemma MultiplyIsMonotone(a: int, b: int, c: nat)
    requires a <= b
    ensures a * c <= b * c
  {
    assert b * c - a * c == (b - a) * c;
  }

  // ---------------------------------------------------------------------------
  // createQuestion and updateQuestion
  // ---------------------------------------------------------------------------

  /** The row `createQuestion` inserts, `{ ...input, is_active: input.is_active ?? true }`:
      `is_active` is true only when it was left undefined, and an explicit false is kept. */
  function InsertedRow(input: QuestionInput): (row: map<Column, FieldValue>)
    ensures IsActiveColumn in row
    ensures row[IsActiveColumn] == Flag(input.isActive != Some(false))
    ensures forall c :: c != IsActiveColumn ==> (c in row <==> c in Fields(input))
    ensures forall c :: c != IsActiveColumn && c in row ==> row[c] == Fields(input)[c]
  {
    Fields(input)[IsActiveColumn := Flag(input.isActive.GetOr(true))]
  }

  /** Inserting a fully defined input sends exactly its fields. */
  lemma InsertedRowOfDefinedFlag(input: QuestionInput)
    requires input.isActive.Some?
    ensures InsertedRow(input) == Fields(input)
  {
    var m := Fields(input);
    assert IsActiveColumn in m && m[IsActiveColumn] == Flag(input.isActive.value);
    assert m[IsActiveColumn := m[IsActiveColumn]] == m;
  }

  /** `const { id, ...updates } = input`: `id` selects the row and is not among
      the columns written. */
  function SplitUpdate(input: map<Column, FieldValue>): (r: (FieldValue, map<Column, FieldValue>))
    requires IdColumn in input
    ensures r.0 == input[IdColumn]
    ensures IdColumn !in r.1
    ensures forall c :: c != IdColumn ==> (c in r.1 <==> c in input) && (c in input ==> r.1[c] == input[c])
  {
    (input[IdColumn], input - {IdColumn})
  }

  /** `{ ...formData, id }`, the body the edit form sends. */
  function UpdatePayload(id: string, d: QuestionInput): (m: map<Column, FieldValue>)
    ensures IdColumn in m && m[IdColumn] == Str(id)
    ensures forall c :: c != IdColumn ==> (c in m <==> c in Fields(d)) && (c in m ==> m[c] == Fields(d)[c])
  {
    Fields(d)[IdColumn := Str(id)]
  }

  /** The edit form's body splits back into its id and exactly its fields. */
  lemma UpdatePayloadSplits(id: string, d: QuestionInput)
    ensures SplitUpdate(UpdatePayload(id, d)) == (Str(id), Fields(d))
  {
    var r := SplitUpdate(UpdatePayload(id, d));
    assert r.1 == Fields(d);
  }

  /** `update(updates)` on a stored row: the columns written take their new values,
      every other column keeps its old one. */
  function ApplyUpdate(row: map<Column, FieldValue>, updates: map<Column, FieldValue>): (r: map<Column, FieldValue>)
    ensures forall c :: c in updates ==> c in r && r[c] == updates[c]
    ensures forall c :: c !in updates ==> (c in r <==> c in row) && (c in row ==> r[c] == row[c])
  {
    row + updates
  }

  /** A field the form clears is left undefined, so it is not sent, and an update
      keeps whatever the column held: editing a personality question into an
      intelligence one leaves its stored scores in place. */
  lemma ClearedFieldsAreNotSent(row: map<Column, FieldValue>, id: string, d: QuestionInput)
    requires d.scoreA.None? && ScoreAColumn in row
    ensures var updates := SplitUpdate(UpdatePayload(id, d)).1;
      ApplyUpdate(row, updates)[ScoreAColumn] == row[ScoreAColumn]
  {
    assert ScoreAColumn !in Fields(d) by {
      assert FieldOf(d, ScoreAColumn).None?;
    }
    assert ScoreAColumn !in SplitUpdate(UpdatePayload(id, d)).1;
  }
}
