/**
 * The admin's "Gérer questions" page: searching the question records and
 * appending a new question row to the questions sheet.
 */
module QuestionBank {
  import opened Wrappers
  import opened Text
  import opened Seqs
  import opened Questions

  /** The cell in column `j` of a row; a short row reads as blank there. */
  function CellAt(cells: seq<string>, j: nat): string {
    if j < |cells| then cells[j] else ""
  }

  /** The record `get_all_records` builds from the header row and one row of
      cells: each header name maps to the cell beneath it. */
  function RecordOf(header: seq<string>, cells: seq<string>): Row {
    if header == [] then map[]
    else
      var n := |header| - 1;
      RecordOf(header[..n], cells)[header[n] := CellAt(cells, n)]
  }

  /** A header name that does not repeat later maps to the cell beneath it. */
  lemma {:induction false} RecordOfLookup(header: seq<string>, cells: seq<string>, j: nat)
    requires j < |header|
    requires forall k :: j < k < |header| ==> header[k] != header[j]
    ensures header[j] in RecordOf(header, cells) && RecordOf(header, cells)[header[j]] == CellAt(cells, j)
  {
    var n := |header| - 1;
    if j < n {
      RecordOfLookup(header[..n], cells, j);
    }
  }

  /** `get_all_records()`: all records of a sheet, one per row below the header. */
  function RecordsOf(header: seq<string>, grid: seq<seq<string>>): (rows: seq<Row>)
    ensures |rows| == |grid|
  {
    seq(|grid|, i requires 0 <= i < |grid| => RecordOf(header, grid[i]))
  }

  /** Appending a row to the sheet appends its record. */
  lemma RecordsOfAppend(header: seq<string>, grid: seq<seq<string>>, cells: seq<string>)
    ensures RecordsOf(header, grid + [cells]) == RecordsOf(header, grid) + [RecordOf(header, cells)]
  {
  }

  /** The questions sheet: a header row and the rows beneath it, which the
      application only ever appends to. */
  class QuestionSheet {
    var header: seq<string>
    var grid: seq<seq<string>>

    constructor (header: seq<string>)
      ensures this.header == header && grid == []
    {
      this.header := header;
      grid := [];
    }

    /** `append_row(cells)`. */
    method AppendRow(cells: seq<string>)
      modifies this
      ensures header == old(header) && grid == old(grid) + [cells]
    {
      grid := grid + [cells];
    }
  }

  /** The five text fields of the add form all hold a visible character. */
  function FieldsFilled(q: string, o1: string, o2: string, o3: string, o4: string): (ok: bool)
    ensures ok <==> HasVisible(q) && HasVisible(o1) && HasVisible(o2) && HasVisible(o3) && HasVisible(o4)
  {
    Filled(q) && Filled(o1) && Filled(o2) && Filled(o3) && Filled(o4)
  }

  /** What pressing "Ajouter cette question" leads to. */
  datatype AddOutcome =
    | Added           // the success message
    | MissingFields   // "Veuillez remplir tous les champs."
    | NoSheet         // the questions sheet could not be opened: `append_row` on `None` raises

  /** The add-question handler. `k` comes from a select box offering 0 to 3. */
  method AddQuestion(sheet: QuestionSheet?, q: string, o1: string, o2: string, o3: string, o4: string, k: int)
    returns (outcome: AddOutcome)
    requires 0 <= k <= 3
    modifies sheet
    ensures outcome == MissingFields <==> !FieldsFilled(q, o1, o2, o3, o4)
    ensures outcome == NoSheet <==> FieldsFilled(q, o1, o2, o3, o4) && sheet == null
    ensures sheet != null ==> sheet.header == old(sheet.header)
    ensures sheet != null ==>
              sheet.grid == if outcome == Added then old(sheet.grid) + [[q, o1, o2, o3, o4, Show(k)]]
                            else old(sheet.grid)
  {
    if !FieldsFilled(q, o1, o2, o3, o4) {
      return MissingFields;
    }
    if sheet == null {
      return NoSheet;
    }
    sheet.AppendRow([q, o1, o2, o3, o4, Show(k)]);
    outcome := Added;
  }

  /** No column name of the questions sheet repeats. */
  lemma ColumnsDistinct()
    ensures forall j, k :: 0 <= j < k < |Columns| ==> Columns[j] != Columns[k]
  {
    assert |Columns[0]| == 8 && |Columns[5]| == 14;
    assert forall j :: 1 <= j <= 4 ==> |Columns[j]| == 7;
    assert Columns[1][6] == '1' && Columns[2][6] == '2' && Columns[3][6] == '3' && Columns[4][6] == '4';
  }

  /** The record read back from a row in the loader's column layout holds
      each cell under its column name. */
  lemma ColumnsRecord(cells: seq<string>)
    requires |cells| == 6
    ensures var row := RecordOf(Columns, cells);
            && "question" in row && row["question"] == cells[0]
            && "option1" in row && row["option1"] == cells[1]
            && "option2" in row && row["option2"] == cells[2]
            && "option3" in row && row["option3"] == cells[3]
            && "option4" in row && row["option4"] == cells[4]
            && "correct_option" in row && row["correct_option"] == cells[5]
  {
    ColumnsDistinct();
    RecordOfLookup(Columns, cells, 0);
    RecordOfLookup(Columns, cells, 1);
    RecordOfLookup(Columns, cells, 2);
    RecordOfLookup(Columns, cells, 3);
    RecordOfLookup(Columns, cells, 4);
    RecordOfLookup(Columns, cells, 5);
  }

  /** The row the add form writes parses as the question that was typed in. */
  lemma AddedRowParses(q: string, o1: string, o2: string, o3: string, o4: string, k: int)
    ensures ParseRow(RecordOf(Columns, [q, o1, o2, o3, o4, Show(k)])) == Some(Question(q, [o1, o2, o3, o4], k))
  {
    ColumnsRecord([q, o1, o2, o3, o4, Show(k)]);
  }

  /** A row written by the add form in a sheet whose header is the loader's
      columns loads back as exactly that question, with `a == k`; the loader
      itself has no range check, so this holds for every integer `k`. */
  lemma AddedRowLoadsBack(grid: seq<seq<string>>, q: string, o1: string, o2: string, o3: string, o4: string, k: int)
    ensures Loaded(RecordsOf(Columns, grid + [[q, o1, o2, o3, o4, Show(k)]]))
         == Loaded(RecordsOf(Columns, grid)) + [Question(q, [o1, o2, o3, o4], k)]
  {
    var cells := [q, o1, o2, o3, o4, Show(k)];
    var row := RecordOf(Columns, cells);
    RecordsOfAppend(Columns, grid, cells);
    AddedRowParses(q, o1, o2, o3, o4, k);
    FilterMapSingle(ParseRow, row);
    FilterMapAppend(ParseRow, RecordsOf(Columns, grid), [row]);
  }

  /** `recherche.lower() in q['question'].lower()`. */
  predicate Matches(keyword: string, row: Row)
    requires "question" in row
  {
    Contains(Lower(row["question"]), Lower(keyword))
  }

  /** The comprehension's condition as a filter: keep a record whose question
      text contains the keyword. */
  function KeepIfMatches(keyword: string): Row -> Option<Row> {
    row => if "question" in row && Matches(keyword, row) then Some(row) else None
  }

  /** What the search shows. */
  datatype SearchResult =
    | NoKeyword            // the keyword box is empty: nothing is listed
    | KeyMissing           // some record has no `question` column: the lookup raises `KeyError`
    | Hits(rows: seq<Row>) // the matching records, in sheet order

  /** The "Rechercher une question" page. */
  function Search(records: seq<Row>, keyword: string): (r: SearchResult)
    ensures r == NoKeyword <==> keyword == []
    ensures r == KeyMissing <==> keyword != [] && exists i :: 0 <= i < |records| && "question" !in records[i]
  {
    if keyword == [] then NoKeyword
    else if forall i | 0 <= i < |records| :: "question" in records[i] then
      Hits(FilterMap(KeepIfMatches(keyword), records))
    else
      KeyMissing
  }

  /** The hits are exactly the records whose lower-cased question text
      contains the lower-cased keyword, in sheet order. */
  lemma SearchSelectsMatching(records: seq<Row>, keyword: string)
    requires Search(records, keyword).Hits?
    ensures var hits := Search(records, keyword).rows;
            var kept := Kept(KeepIfMatches(keyword), records);
            && |hits| == |kept|
            && (forall j :: 0 <= j < |kept| ==>
                  && kept[j] < |records| && hits[j] == records[kept[j]]
                  && Contains(Lower(hits[j]["question"]), Lower(keyword)))
            && (forall j, j' :: 0 <= j < j' < |kept| ==> kept[j] < kept[j'])
            && (forall i :: 0 <= i < |records| && Contains(Lower(records[i]["question"]), Lower(keyword))
                  ==> i in kept)
  {
    var f := KeepIfMatches(keyword);
    FilterMapSelects(f, records);
    assert forall i :: 0 <= i < |records| ==> "question" in records[i];
    assert forall i :: 0 <= i < |records| ==>
             (f(records[i]).Some? <==> Contains(Lower(records[i]["question"]), Lower(keyword)));
    assert forall i :: 0 <= i < |records| && f(records[i]).Some? ==> f(records[i]).value == records[i];
  }

  /** The search does not care about letter case in the keyword. */
  lemma SearchIgnoresCase(records: seq<Row>, k1: string, k2: string)
    requires Lower(k1) == Lower(k2)
    ensures Search(records, k1) == Search(records, k2)
  {
    assert |k1| == |Lower(k1)| == |Lower(k2)| == |k2|;
    if k1 != [] && forall i | 0 <= i < |records| :: "question" in records[i] {
      FilterMapAgree(KeepIfMatches(k1), KeepIfMatches(k2), records);
    }
  }
}
