/**
 * The question loader: sheet records (column name -> cell) become questions
 * `{q, opts, a}`. A record missing a column, or whose `correct_option` is not
 * an integer, is skipped without error.
 */
module Questions {
  import opened Wrappers
  import opened Text
  import opened Seqs

  /** One record of the questions sheet, as `get_all_records` returns it. */
  type Row = map<string, string>

  /** A loaded question: its text, its four option labels, and the stored
      correct index, which is not range-checked. */
  datatype Question = Question(q: string, opts: seq<string>, a: int)

  /** The columns of the questions sheet, in sheet order. */
  const Columns: seq<string> := ["question", "option1", "option2", "option3", "option4", "correct_option"]

  /** The record has every column the loader reads and its `correct_option`
      parses as an integer: exactly the records the loader keeps. */
  predicate Loadable(row: Row) {
    && "question" in row
    && "option1" in row && "option2" in row && "option3" in row && "option4" in row
    && "correct_option" in row
    && ParseInt(row["correct_option"]).Some?
  }

  /** The body of the loader's `try` block for one record; `None` stands for the
      `KeyError`/`ValueError` it swallows. */
  function ParseRow(row: Row): (r: Option<Question>)
    ensures r.Some? <==> Loadable(row)
    ensures r.Some? ==> && r.value.q == row["question"]
                        && r.value.opts == [row["option1"], row["option2"], row["option3"], row["option4"]]
                        && Some(r.value.a) == ParseInt(row["correct_option"])
  {
    if Loadable(row) then
      Some(Question(row["question"], [row["option1"], row["option2"], row["option3"], row["option4"]],
                    ParseInt(row["correct_option"]).value))
    else
      None
  }

  /** What the loader returns for a sequence of records: the parsed loadable
      records, in sheet order. */
  function Loaded(rows: seq<Row>): (questions: seq<Question>)
    ensures |questions| <= |rows|
  {
    FilterMapShorter(ParseRow, rows);
    FilterMap(ParseRow, rows)
  }

  /** The loader keeps exactly the loadable records, in their sheet order: the
      j-th question is the parse of the j-th loadable record, those records'
      positions increase, and no loadable record is missed. */
  lemma LoadedSelectsLoadable(rows: seq<Row>)
    ensures |Loaded(rows)| == |Kept(ParseRow, rows)|
    ensures forall j :: 0 <= j < |Kept(ParseRow, rows)| ==>
              && Kept(ParseRow, rows)[j] < |rows|
              && Loadable(rows[Kept(ParseRow, rows)[j]])
              && ParseRow(rows[Kept(ParseRow, rows)[j]]) == Some(Loaded(rows)[j])
    ensures forall j, j' :: 0 <= j < j' < |Kept(ParseRow, rows)| ==>
              Kept(ParseRow, rows)[j] < Kept(ParseRow, rows)[j']
    ensures forall i :: 0 <= i < |rows| && Loadable(rows[i]) ==> i in Kept(ParseRow, rows)
  {
    FilterMapSelects(ParseRow, rows);
  }

  /** Every loaded question has four options and comes from a loadable record. */
  lemma LoadedShape(rows: seq<Row>)
    ensures forall qn :: qn in Loaded(rows) ==>
              |qn.opts| == 4 && exists i :: 0 <= i < |rows| && ParseRow(rows[i]) == Some(qn)
  {
    FilterMapSelects(ParseRow, rows);
    forall qn | qn in Loaded(rows)
      ensures |qn.opts| == 4 && exists i :: 0 <= i < |rows| && ParseRow(rows[i]) == Some(qn)
    {
      var j :| 0 <= j < |Loaded(rows)| && Loaded(rows)[j] == qn;
      var i := Kept(ParseRow, rows)[j];
      assert ParseRow(rows[i]) == Some(qn);
    }
  }

  /** Removing a malformed record from the sheet does not change what is
      loaded: a bad record neither aborts loading nor leaves a trace. */
  lemma MalformedRowIsSkipped(rows: seq<Row>, i: nat)
    requires i < |rows| && !Loadable(rows[i])
    ensures Loaded(rows[..i] + rows[i + 1..]) == Loaded(rows)
  {
    FilterMapSkipsRejected(ParseRow, rows, i);
  }

  /** A sheet with no loadable record yields no question, so the quiz page
      shows its warning instead of the form. */
  lemma NothingLoadable(rows: seq<Row>)
    requires forall i :: 0 <= i < |rows| ==> !Loadable(rows[i])
    ensures Loaded(rows) == []
  {
    FilterMapNone(ParseRow, rows);
  }

  /** The questions the page works with: none when the questions sheet could
      not be opened. */
  function SheetQuestions(sheet: Option<seq<Row>>): seq<Question> {
    if sheet.Some? then Loaded(sheet.value) else []
  }

  /** `load_questions`: with no questions sheet the result is empty; otherwise
      each record is tried in turn and appended when it parses. */
  method LoadQuestions(sheet: Option<seq<Row>>) returns (questions: seq<Question>)
    ensures questions == SheetQuestions(sheet)
  {
    questions := [];
    if sheet.Some? {
      var rows := sheet.value;
      var i := 0;
      while i < |rows|
        invariant 0 <= i <= |rows|
        invariant questions == FilterMap(ParseRow, rows[..i])
      {
        assert rows[..i + 1][..i] == rows[..i];
        match ParseRow(rows[i]) {
          case None =>
          case Some(q) => questions := questions + [q];
        }
        i := i + 1;
      }
      assert rows[..i] == rows;
    }
  }
}
