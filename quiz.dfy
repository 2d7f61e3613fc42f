/**
 * The student page: load the questions, collect one answer per question,
 * check the two name fields, score, and append the result row.
 */
module Quiz {
  import opened Wrappers
  import opened Text
  import opened Questions
  import opened Scoring

  /** A row of the results sheet, `[now, nom, prenom, correct, total, percent]`
      without the percentage. The names are kept exactly as typed. */
  datatype ResultRow = ResultRow(date: string, nom: string, prenom: string, correct: nat, total: nat)

  /** The results sheet: rows are only ever appended. */
  class ResultsSheet {
    var rows: seq<ResultRow>

    constructor ()
      ensures rows == []
    {
      rows := [];
    }

    /** `append_row`; `accepted` is whether the remote store took the write
        (a failed write raises and is reported, and the sheet is unchanged). */
    method AppendRow(row: ResultRow, accepted: bool)
      modifies this
      ensures rows == if accepted then old(rows) + [row] else old(rows)
    {
      if accepted {
        rows := rows + [row];
      }
    }
  }

  /** `not nom.strip() or not prenom.strip()` negated: both names hold a
      visible character. */
  function NamesGiven(nom: string, prenom: string): (ok: bool)
    ensures ok <==> HasVisible(nom) && HasVisible(prenom)
  {
    Filled(nom) && Filled(prenom)
  }

  /** What the student sees after submitting. */
  datatype QuizOutcome =
    | NoQuestions                              // the warning, no form
    | NamesMissing                             // the error, then `st.stop()`
    | Recorded(row: ResultRow, saved: bool)    // the score; `saved` says whether the sheet took it

  /** The submit branch: the name check, the score and the append. Only reached
      from the form, which exists only when there is at least one question. */
  method SubmitAnswers(sheet: ResultsSheet, questions: seq<Question>, answers: seq<int>,
                       nom: string, prenom: string, now: string, accepted: bool)
    returns (outcome: QuizOutcome)
    requires |questions| > 0 && |answers| == |questions|
    modifies sheet
    ensures !NamesGiven(nom, prenom) ==> outcome == NamesMissing && sheet.rows == old(sheet.rows)
    ensures NamesGiven(nom, prenom) ==>
              outcome == Recorded(ResultRow(now, nom, prenom, Score(questions, answers), |questions|), accepted)
    ensures outcome.Recorded? ==>
              sheet.rows == if accepted then old(sheet.rows) + [outcome.row] else old(sheet.rows)
  {
    if !NamesGiven(nom, prenom) {
      return NamesMissing;
    }
    var correct := Score(questions, answers);
    var total := |questions|;
    var row := ResultRow(now, nom, prenom, correct, total);
    sheet.AppendRow(row, accepted);
    outcome := Recorded(row, accepted);
  }

  /** One visit to the student page that ends with pressing "Valider mes
      réponses": `choices` are the labels showing in the radio buttons, one
      per displayed question. */
  method TakeQuiz(sheet: ResultsSheet, questionSheet: Option<seq<Row>>,
                  nom: string, prenom: string, choices: seq<string>, now: string, accepted: bool)
    returns (outcome: QuizOutcome)
    requires |choices| == |SheetQuestions(questionSheet)|
    modifies sheet
    ensures outcome == NoQuestions <==> SheetQuestions(questionSheet) == []
    ensures outcome == NamesMissing <==> SheetQuestions(questionSheet) != [] && !NamesGiven(nom, prenom)
    ensures !outcome.Recorded? ==> sheet.rows == old(sheet.rows)
    ensures outcome.Recorded? ==>
              var qs := SheetQuestions(questionSheet);
              && outcome.row == ResultRow(now, nom, prenom, outcome.row.correct, |qs|)
              && outcome.row.correct <= outcome.row.total
              && outcome.row.correct == |set i: nat | i < |qs| && IndexOf(qs[i].opts, choices[i]) == qs[i].a|
              && outcome.saved == accepted
              && sheet.rows == if accepted then old(sheet.rows) + [outcome.row] else old(sheet.rows)
  {
    var questions := LoadQuestions(questionSheet);
    if questions == [] {
      return NoQuestions;
    }
    var answers := CollectAnswers(questions, choices);
    outcome := SubmitAnswers(sheet, questions, answers, nom, prenom, now, accepted);
    ScoreOfChoices(questions, choices, answers);
  }
}
