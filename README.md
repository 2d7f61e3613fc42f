# QCM quiz: a verified model of its logic

`QCM.py` is a Streamlit multiple-choice quiz backed by two Google Sheets: one
holds the questions, the other collects the results. Students answer the
questions, give their last name (`nom`) and first name (`prenom`), and get a
score, which is appended to the results sheet. The admin page is unlocked by a
session flag. There, the admin can search the question texts and append new
questions. This project models that logic in Dafny, with both sheets as
in-memory sequences of rows:

- `Text` (`text.dfy`): the string operations the application uses. These are
  `strip()`, `lower()`, the `in` substring test, `int(...)` on a string and
  `str(...)` on an integer. `strip()` and `int(...)` skip different white
  space: `int(...)` does not skip the separators 0x1C-0x1F. The grammar
  `int(...)` accepts is proved in both directions, and `int(str(k)) == k` is
  proved for every integer `k`.
- `Seqs` (`seqs.dfy`): order-preserving filtering of a sequence. The loader and
  the search both use it. Its lemmas say the result is exactly the kept
  elements, in input order.
- `Questions` (`questions.dfy`): `load_questions`. A loop turns records into
  questions `{q, opts, a}` and skips any record that lacks a column or whose
  `correct_option` is not an integer.
- `Scoring` (`scoring.dfy`): the loop that turns each chosen label into its
  index in `opts` (or `-1`), and the score, which counts the positions where
  that index equals the stored `a`.
- `Quiz` (`quiz.dfy`): the student page. It loads the questions and shows a
  warning when there are none. Otherwise it collects the answers, checks the
  names, scores, and appends `[now, nom, prenom, correct, total]` to the
  results sheet. The names are stored as typed, untrimmed.
- `QuestionBank` (`question_bank.dfy`): the "Gérer questions" page. It has the
  case-insensitive search and the add-question form. A row the form appends is
  proved to load back as the same question, with `a == k`.
- `AdminGate` (`admin.dfy`): the `admin_authenticated` flag. It starts absent,
  becomes `False` when the admin page opens, becomes `True` on "Se connecter"
  whatever password was typed, and becomes `False` on "Se déconnecter".

Sheet records are `map<string, string>` from column name to cell. The current
time is a given string. Whether the results sheet accepts a write is a boolean
parameter: a write can fail either because the remote store refuses it or
because the sheet could not be opened at start-up.

Three behaviours of the code are worth stating up front:
- The admin password is never compared. "Se connecter" unlocks the page
  unconditionally (`AdminGate.PasswordIrrelevant`).
- A loaded question's `a` is not range-checked. `AddedRowLoadsBack` holds for
  every integer `k`, and `Scoring.ShadowedCorrectOption` shows a question whose
  correct option cannot be chosen.
- Every question has exactly four options.

## Model

| member | source | states |
|---|---|---|
| `Text.TrimmedEmptyIffBlank` | QCM.py:86 | stripping both ends leaves nothing exactly when the string has no visible character |
| `Text.Strip` | QCM.py:86 | `s.strip()` is empty iff `s` has no visible character |
| `Text.SkipLeading` | QCM.py:86 | `lstrip()` cuts at the first character that is not white space: everything before the cut is white space, and the cut is at the end or at a non-white-space character |
| `Text.SkipTrailing` | QCM.py:86 | `rstrip()` cuts after the last character that is not white space: everything after the cut is white space, and the cut is at the start or just after a non-white-space character |
| `Text.TrimPadded` | QCM.py:86 | white space around a string that neither starts nor ends with white space is exactly what the trim removes |
| `Text.Filled` | QCM.py:182 | a form field counts as filled iff it holds a visible character |
| `Text.Lower` | QCM.py:167 | lower-casing keeps the length and lower-cases each character |
| `Text.ContainsIffOccurs` | QCM.py:167 | the substring test holds iff the keyword occurs at some position of the text |
| `Text.ParseInt` | QCM.py:48 | `int(s)` succeeds only when `s` contains a decimal digit (the full grammar is in the two lemmas below) |
| `Text.ParseIntPadded` | QCM.py:48 | `int(s)` succeeds on any numeral (optional sign, then one or more digits) padded with `int()` white space (tab, line feed, vertical tab, form feed, carriage return, space), and gives the numeral's value; the model has no digit limit (see Left out) |
| `Text.ParseIntShape` | QCM.py:48 | whenever `int(s)` succeeds, `s` is such a padded numeral and the result is its value, so every other string raises |
| `Text.NatDigits` | QCM.py:183 | the decimal digits of `n` are non-empty, all digits, read back as `n`, and start with `0` only for `n == 0`, which is written `"0"` |
| `Text.Show` | QCM.py:183 | `str(k)` is a minus sign exactly when `k < 0`, followed by digits with no leading zero unless `k == 0`, and `int(str(k)) == k` for every integer `k` (no digit limit; see Left out) |
| `Seqs.FilterMapShorter` | QCM.py:44-51 | filtering never produces more elements than it was given |
| `Seqs.FilterMapSelects` | QCM.py:44-51 | the result's j-th element is what the j-th kept input produced; kept positions increase; every input that produces a value is kept |
| `Seqs.FilterMapAppend` | QCM.py:44-51 | filtering a concatenation is the concatenation of the filtered parts |
| `Seqs.FilterMapSkipsRejected` | QCM.py:50-51 | deleting a rejected element does not change the result |
| `Seqs.FilterMapNone` | QCM.py:67-68 | if every element is rejected, the result is empty |
| `Seqs.FilterMapAgree` | QCM.py:167 | two filters that agree on every element give the same result |
| `Questions.ParseRow` | QCM.py:45-51 | a record parses iff it has all six columns and an integer `correct_option`; the question then has that text, the four options in order and `a` = the parsed integer |
| `Questions.Loaded` | QCM.py:41-52 | the loader's result for a sheet has at most one question per record |
| `Questions.LoadedSelectsLoadable` | QCM.py:41-52 | the loader returns exactly the parses of the loadable records, in sheet order, and misses none |
| `Questions.LoadedShape` | QCM.py:47-49 | every loaded question has four options and is the parse of some record of the sheet |
| `Questions.MalformedRowIsSkipped` | QCM.py:50-51 | removing a malformed record from the sheet leaves the loaded questions unchanged |
| `Questions.NothingLoadable` | QCM.py:64-68 | a sheet with no loadable record yields no question |
| `Questions.LoadQuestions` | QCM.py:40-52 | the loop returns `SheetQuestions(sheet)`: `[]` without a questions sheet and otherwise exactly the loaded questions |
| `Scoring.IndexOf` | QCM.py:78-81 | the recorded index is `-1` iff the label is not an option; otherwise it is the first position holding the label |
| `Scoring.ShadowedCorrectOption` | QCM.py:79 | if the correct option repeats an earlier option's label, no choice records the correct index |
| `Scoring.CollectAnswers` | QCM.py:73-81 | `answers` has one entry per question: the index of the chosen label, and `-1` exactly when the label is not among the options |
| `Scoring.Score` | QCM.py:90 | the number correct never exceeds the number of questions |
| `Scoring.ScoreCountsMatches` | QCM.py:90-91 | the score is the number of positions `i` with `answers[i] == QUESTIONS[i].a` |
| `Scoring.FullScoreIffAllCorrect` | QCM.py:90-91 | the score equals the total iff every answer is correct |
| `Scoring.ZeroScoreIffNoneCorrect` | QCM.py:90 | the score is zero iff no answer is correct |
| `Scoring.UnresolvedNeverScores` | QCM.py:81-90 | when every stored index is non-negative, the score plus the number of `-1` answers is at most the total |
| `Quiz.ResultsSheet.AppendRow` | QCM.py:99-103 | an accepted write appends exactly that row; a failed write leaves the sheet unchanged |
| `Quiz.NamesGiven` | QCM.py:86-88 | the submission proceeds iff both the last and first name hold a visible character |
| `Quiz.SubmitAnswers` | QCM.py:85-103 | blank names stop before scoring and nothing is appended; otherwise the row is `[now, nom, prenom, correct, total]` with untrimmed names and is appended iff the write is accepted |
| `Quiz.TakeQuiz` | QCM.py:63-103 | no questions gives the warning and no row; otherwise the recorded score counts the questions whose chosen label's first index equals `a`, out of all loaded questions |
| `QuestionBank.RecordsOf` | QCM.py:43 | `get_all_records()` gives one record per row below the header |
| `QuestionBank.RecordOfLookup` | QCM.py:43 | a header name that does not repeat later maps to the cell beneath it, or `""` if the row is short |
| `QuestionBank.ColumnsDistinct` | QCM.py:46-48 | the six column names the loader reads are pairwise distinct |
| `QuestionBank.ColumnsRecord` | QCM.py:183 | a six-cell row read back under the loader's header holds each cell under its column name |
| `QuestionBank.AddedRowParses` | QCM.py:183 | the row the form writes parses as the typed question with `a == k` |
| `QuestionBank.AddedRowLoadsBack` | QCM.py:179-184 | after the append, loading the sheet gives the old questions followed by the new one, with `a == k` |
| `QuestionBank.QuestionSheet.AppendRow` | QCM.py:184 | `append_row` adds exactly one row at the end and leaves the header alone |
| `QuestionBank.FieldsFilled` | QCM.py:182 | the add form is accepted iff all five text fields hold a visible character |
| `QuestionBank.AddQuestion` | QCM.py:181-187 | exactly one row `[q, o1, o2, o3, o4, str(k)]` is appended iff all five fields are filled and the sheet exists; otherwise the sheet is unchanged |
| `QuestionBank.Search` | QCM.py:164-167 | an empty keyword lists nothing; a record without a `question` column makes the search fail; otherwise it lists hits |
| `QuestionBank.SearchSelectsMatching` | QCM.py:167 | the hits are exactly the records whose lower-cased question contains the lower-cased keyword, in sheet order |
| `QuestionBank.SearchIgnoresCase` | QCM.py:167 | two keywords that differ only in letter case give the same result |
| `AdminGate.UnlockedIffConnectedLast` | QCM.py:124-136 | the dashboard shows iff some "Se connecter" press has not been followed by a "Se déconnecter" press |
| `AdminGate.PasswordIrrelevant` | QCM.py:192-194 | sessions pressing the same buttons in the same order end in the same state, whatever passwords were typed |
| `AdminGate.AdminSession.constructor` | QCM.py:124 | a fresh session has no `admin_authenticated` key |
| `AdminGate.AdminSession.OpenAdminPage` | QCM.py:124-125 | opening the page sets an absent flag to `False` and keeps a present one; the dashboard shows iff the flag is `True` |
| `AdminGate.AdminSession.ConnectAdmin` | QCM.py:127-128 | "Se connecter" sets the flag to `True` |
| `AdminGate.AdminSession.DisconnectAdmin` | QCM.py:130-131 | "Se déconnecter" sets the flag to `False` |

## Left out

- The percentage `round(correct / total * 100, 1)` (QCM.py:92) is left out. It uses binary floating point and Python's rounding. The result row keeps only the integers `correct` and `total`.
- `datetime.now()` formatting is left out. The timestamp is an opaque input string.
- All Streamlit rendering is left out: widgets, messages, `st.stop()` (modelled as an early return) and the reruns. Only the submission event is modelled; an unsubmitted form does nothing.
- The pandas DataFrames, the CSV downloads (QCM.py:106-116 and 150-158) and the "Voir résultats" table are left out. They are foreign-library display and encoding with no visible contract.
- Google authentication and `client.open` are left out. Their only effect in the model is whether a sheet exists: `None`/`null` for the questions sheet, and a refused write for the results sheet.
- Text.ParseInt: only ASCII text is modelled. It accepts a sign and ASCII digits surrounded by the six ASCII white-space characters that `int()` skips. Python's `int` also accepts underscores between digits, non-ASCII digits and non-ASCII white space; the model rejects these.
- Text.ParseInt, Text.Show: the model has no digit limit. Python since 3.11 (and the matching security releases of 3.7-3.10) raises for `int()` of a decimal string over 4300 digits and for `str()` of such an integer. A `correct_option` over 4300 digits therefore loads in the model but is skipped by the code (QCM.py:50-51), and `ParseIntPadded` and `Show`'s round trip hold in the model beyond that limit.
- Text.Strip: only ASCII white space is stripped. Python's `str.strip` also strips Unicode spaces.
- Text.Lower: only ASCII letters are lower-cased. Python's `str.lower` is Unicode-aware.
- Cells are always strings. gspread turns numeric-looking cells into numbers, so the code calls `int()` on a number rather than on text. Text the model parses as an integer, up to 4300 digits, gives the same value either way. Other numeric-looking text does not. For example, "2.0", "2.5" and "1e0" become floats, and `int()` truncates them (`a == 2` for "2.5"). gspread also drops thousands commas, so "1,000" becomes 1000 (and "1,2" becomes 12). In both cases QCM.py:48 loads the record, while the model's `ParseInt` rejects the text and skips the record.
- Scoring.IndexOf: option cells are compared as text. In the code, gspread's conversion makes "1", "01" and "1.0" the same number, so `.index` (QCM.py:79) returns the first of them. The model tells them apart.
- QuestionBank.Search: a numeric `question` cell would make `.lower()` raise in the search (QCM.py:167). The model's cells are text, so it does not capture this.
- Header handling in `get_all_records` is simplified. The model assumes the sheet already has a header row. When a header name repeats, the later column wins, where newer gspread versions raise instead.
- QuestionBank.AddQuestion: the add form's `append_row` is assumed to succeed when the sheet exists. A failure there is not caught by the code and would raise.
- QuestionBank.Search: the listing loop (QCM.py:168-171) also reads `option1`-`option4` and `correct_option` of each hit and would raise on a hit missing one. The model stops at the filtered list.
