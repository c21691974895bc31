# SmartLib content ingestion and worksheet screen, in Dafny

SmartLib is a small library site for primary-school teaching material. Its
content lives in two published Google Sheets, downloaded as tab-separated text:

- The resource sheet has one video, e-book, lecture or document per line.
- The worksheet sheet has one question per line. Questions are grouped into
  worksheets by a worksheet key.

This project models the part of the site that turns that text into data and
the screen where a pupil answers a worksheet:

- `Text`: the JavaScript string primitives the parsers use. These are
  `split`, `trim`, `toLowerCase`, `replace(/\s+/g, r)`, `includes`, `||` on
  strings, and the decimal rendering of a line index.
- `Optional`: `Option` (a JavaScript `undefined`/`null`) and `Present`. A loop
  that pushes a result only for some of its passes builds `Present` of the
  per-pass results.
- `SheetRows`: splitting a sheet into lines and cells, normalising headers into
  keys, and building the record (`item`) of a data line.
- `YouTube`: `getYouTubeID`. Its regular expression is written out as a matcher
  and characterised by its match position and capture group.
- `ResourceParser`: `parseTSV`. There is one item per non-blank line with a
  title, in line order. YouTube links get an embed address and, when the sheet
  gives no thumbnail, a derived one. Ids, links and grades get their defaults.
- `WorksheetParser`: `parseWorksheetTSV`. Lines are grouped by key in an
  insertion-ordered map. Each worksheet's title comes from its first line, and
  its questions come from its own lines in line order.
- `DataService`: `fetchSheetData` and `fetchWorksheetData`. They check for a
  placeholder address, download, parse, and fall back to the mock data.
- `ResourceGrid`: the grade filter of the resource grid, the address a click
  opens, and whether a card draws its thumbnail.
- `WorksheetView`: the answering screen. The class `WorksheetScreen` holds its
  four pieces of state, its handlers, and the score.

Both parsers are methods whose loops are proved equal to specification
functions. The properties are lemmas about those functions.

The download is not modelled. Its outcome, a failure or the response text, is
a parameter of the two fetchers.

## Model

| member | source | states |
|---|---|---|
| Text.Split | services/dataService.ts:66 | `split` always gives at least one piece, and no piece contains the separator |
| Text.SplitJoin | services/dataService.ts:66 | joining the pieces with the separator gives back the input, so splitting loses nothing |
| Text.SplitSingle | services/dataService.ts:66-67 | there is exactly one piece iff the separator does not occur |
| Text.TrimEnds | services/dataService.ts:80 | a trimmed string is empty or starts and ends with a non-whitespace character |
| Text.TrimIsInfix | services/dataService.ts:80 | the trim is the infix of the input left after removing a whitespace prefix and a whitespace suffix |
| Text.TrimIdempotent | services/dataService.ts:80 | trimming twice gives the same as trimming once |
| Text.TrimEmpty | components/ResourceGrid.tsx:115 | a trimmed string is empty iff the input is all whitespace |
| Text.ToLower | services/dataService.ts:70 | lower-casing keeps the length and maps each character by the ASCII case mapping |
| Text.ReplaceWhitespaceRuns | services/dataService.ts:70 | replacing whitespace runs with a whitespace-free replacement leaves no whitespace and adds no upper-case letter |
| Text.ReplaceNoWhitespace | services/dataService.ts:131 | a header key without whitespace is left as it is |
| Text.ReplaceWhitespaceRun | services/dataService.ts:131 | a whitespace run on its own becomes exactly one replacement |
| Text.ReplaceAppend | services/dataService.ts:131 | the replacement distributes over a concatenation that does not join two whitespace runs |
| Text.ReplaceMaximalRun | services/dataService.ts:131 | each maximal whitespace run becomes exactly one replacement, and the text around it is replaced on its own |
| Text.RemoveWhitespaceIsFilter | services/dataService.ts:70 | replacing runs with "" deletes exactly the whitespace characters |
| Text.ContainsIff | services/dataService.ts:10 | `includes` holds iff the substring occurs at some position |
| Text.NatToString | services/dataService.ts:104 | the numeral of a line index is non-empty and all digits, and has one digit iff the index is below 10 |
| Text.NatToStringInjective | services/dataService.ts:104 | different line indexes give different numerals |
| Optional.PresentNext | services/dataService.ts:73-116 | one more loop pass adds that pass's value, if it has one, at the end |
| Optional.PresentPrefix | services/dataService.ts:73-116 | what the first passes push is a prefix of the final list |
| Optional.PresentAt | services/dataService.ts:73-116 | the value of pass `i` is placed right after the values of the passes before `i` |
| Optional.PresentOrder | services/dataService.ts:73-116 | a later pass's value comes later in the list |
| Optional.PresentMembers | services/dataService.ts:73-116 | a value is in the list iff some pass produced it |
| SheetRows.HeaderKeys | services/dataService.ts:70 | one key per tab-separated header cell |
| SheetRows.HeaderKeyShape | services/dataService.ts:70 | a normalised header key holds no whitespace and no upper-case letter |
| SheetRows.ResourceHeaderKeyDeletesWhitespace | services/dataService.ts:70 | a resource-sheet key is the trimmed, lower-cased cell with every whitespace character deleted ("Link Url" becomes "linkurl") |
| SheetRows.BlankLineIff | services/dataService.ts:76 | the skip test holds for exactly one line, the empty line |
| SheetRows.TrimCells | services/dataService.ts:80 | trimming the cells keeps their number |
| SheetRows.TrimCellsAt | services/dataService.ts:80 | each trimmed cell is the trim of its own cell |
| SheetRows.TrimmedCell | services/dataService.ts:80 | `row[index]?.trim() \|\| ''` is the trimmed cell, or "" past the end of the line |
| SheetRows.BuildRecord | services/dataService.ts:78-81 | the `forEach` builds the record that assigns the header columns in order |
| SheetRows.RecordKeys | services/dataService.ts:79-81 | the record's keys are exactly the header keys |
| SheetRows.RecordLastWins | services/dataService.ts:79-81 | when headers repeat, the key holds the cell of its last column |
| SheetRows.RecordDependsOnHeaderCells | services/dataService.ts:79-81 | the record depends on the line only through the cells of the header columns |
| SheetRows.RecordIgnoresExtraCells | services/dataService.ts:79-81 | cells past the last header are ignored |
| SheetRows.ShortLineCellIsEmpty | services/dataService.ts:80 | a header whose column is missing from a short line maps to "" |
| SheetRows.CellOfHeader | services/dataService.ts:80 | a header with no later duplicate maps to its own column's trimmed cell |
| SheetRows.LineRecords | services/dataService.ts:73-81 | there is one record, or one skip, per line |
| YouTube.MarkerLength | services/dataService.ts:56 | a marker found at a position fits inside the address |
| YouTube.FirstLineTerminator | services/dataService.ts:56 | the position of the first line terminator, before which `.*` can reach |
| YouTube.LastMarker | services/dataService.ts:56 | the rightmost marker position at or below a bound, or None when there is none |
| YouTube.Capture | services/dataService.ts:56 | `([^#&?]*)` is the longest prefix with no `#`, `&` or `?` |
| YouTube.YouTubeID | services/dataService.ts:55-59 | an id is the 11-character capture at the regular expression's match position; None means no match, or a capture of another length |
| YouTube.NoMatchPosition | services/dataService.ts:56-58 | with no marker before the first line terminator the expression does not match |
| YouTube.MatchPositionIsLast | services/dataService.ts:56-57 | the match position is the rightmost marker before the first line terminator, and it is unique |
| ResourceParser.FirstNonEmpty | services/dataService.ts:101 | the grade is the first non-empty of `grade`, `lớp`, `lop`, `class`, else "" |
| ResourceParser.VideoId | services/dataService.ts:88-90 | a video id has 11 characters, and an empty link has none |
| ResourceParser.ResourceFields | services/dataService.ts:83-114 | each field of an item: the sheet's id or `row-<line>`; the link or `#`; an embed address iff the link names a video; the sheet's thumbnail, else the video's, else ""; the first grade alias; category, author and date as read |
| ResourceParser.LineItems | services/dataService.ts:73-116 | one possible item per line, with none for the header line |
| ResourceParser.MakeItem | services/dataService.ts:84-114 | the YouTube enrichment and defaults of a titled line build its item |
| ResourceParser.ParseLine | services/dataService.ts:74-115 | a blank or untitled line gives nothing, any other line gives its item |
| ResourceParser.ParseTSV | services/dataService.ts:65-119 | the loop returns one item per titled line, in line order |
| ResourceParser.ParseResourcesSingleLine | services/dataService.ts:66-67 | text without a line break gives no items |
| ResourceParser.ResourcesFromTitledLines | services/dataService.ts:73-116 | an item is in the result iff it is the item of some titled data line |
| ResourceParser.ResourcesInLineOrder | services/dataService.ts:73-116 | a titled line's item follows the items of the earlier lines, and a later titled line's item comes later |
| ResourceParser.GeneratedIdsDistinct | services/dataService.ts:104 | two items without a sheet id, from different lines, get different ids |
| WorksheetParser.WorksheetKey | services/dataService.ts:146-147 | the key is empty iff both `id_bai_tap` and `id` are empty |
| WorksheetParser.WorksheetTitle | services/dataService.ts:153 | a worksheet title is never empty |
| WorksheetParser.KindIsFreeTextIff | services/dataService.ts:163-164 | a question is free-text iff its own `loai_cau_hoi` lower-cases to "text"; the default "mc" gives multiple choice |
| WorksheetParser.CollectOptionsFilters | services/dataService.ts:166-172 | the options are the non-empty answer cells: at most one per column, none empty, each from a column, and every non-empty cell included |
| WorksheetParser.CollectOptionsAppend | services/dataService.ts:168-171 | the options of two runs of columns are those of the first run followed by those of the second |
| WorksheetParser.CollectFourOptions | services/dataService.ts:168-171 | four answer columns give their options one column at a time |
| WorksheetParser.QuestionIdInjective | services/dataService.ts:175 | within a worksheet, `q-<key>-<line>` ids of different lines differ |
| WorksheetParser.QuestionOf | services/dataService.ts:161-181 | a line has a question iff `cau_hoi` is non-empty, with its text, id, kind, options for multiple choice only, answer and explanation |
| WorksheetParser.OptionsBounded | services/dataService.ts:166-172 | a multiple-choice question has at most four options, none empty |
| WorksheetParser.CreateSheet | services/dataService.ts:150-156 | after creation the key is in the map |
| WorksheetParser.CreateSheetKeeps | services/dataService.ts:150-156 | creation changes nothing for a known key; a new key goes at the end of the key order with the line's title, and other entries stay |
| WorksheetParser.AppendQuestionKeeps | services/dataService.ts:158-183 | pushing a question changes only that worksheet's questions |
| WorksheetParser.GroupStepKeeps | services/dataService.ts:146-184 | a line keeps the map well formed, keeps every existing worksheet's id and title, leaves other keys' worksheets alone and only appends keys |
| WorksheetParser.GroupStepWellFormed | services/dataService.ts:146-184 | a line keeps the keys distinct, matched with the map, paired with their worksheets' ids, and never "" |
| WorksheetParser.CreateSheetWellFormed | services/dataService.ts:150-156 | creating a worksheet for a non-empty key keeps the map well formed |
| WorksheetParser.AppendQuestionWellFormed | services/dataService.ts:183 | pushing a question keeps the map well formed |
| WorksheetParser.GroupUpToWellFormed | services/dataService.ts:135-185 | after any number of lines the map is well formed |
| WorksheetParser.Values | services/dataService.ts:187 | `Array.from(map.values())` lists one worksheet per key, in key order |
| WorksheetParser.PushIfSet | services/dataService.ts:168-171 | `if (item[k]) options.push(item[k])` appends the column's option, if it has one |
| WorksheetParser.AnswerOptions | services/dataService.ts:166-172 | the four pushes build the options of the answer columns |
| WorksheetParser.AddLine | services/dataService.ts:146-184 | one loop pass updates the key order and the map as one grouping step |
| WorksheetParser.GroupLines | services/dataService.ts:135-185 | the loop builds the grouping of all data lines |
| WorksheetParser.ParseWorksheetTSV | services/dataService.ts:125-188 | the function returns the grouped worksheets in key order |
| WorksheetParser.ParseWorksheetsSingleLine | services/dataService.ts:126-127 | text without a line break gives no worksheets |
| WorksheetParser.ParseWorksheetsDistinctIds | services/dataService.ts:146-187 | the worksheets have pairwise distinct ids |
| WorksheetParser.Dedup | services/dataService.ts:150-156 | the distinct elements, each kept once, with the same members |
| WorksheetParser.DedupPrefix | services/dataService.ts:150-156 | deduplicating a prefix gives a prefix |
| WorksheetParser.GroupKeysFirstSeen | services/dataService.ts:150-156 | the worksheets' order is the order in which their keys first appear |
| WorksheetParser.KeyAbsent | services/dataService.ts:150 | a key that no earlier line carries has no worksheet yet |
| WorksheetParser.TitleFromFirstLine | services/dataService.ts:150-155 | a worksheet's title comes from the first line with its key, and later lines never change it |
| WorksheetParser.GroupedQuestions | services/dataService.ts:158-183 | each worksheet holds exactly the questions of its own lines, in line order |
| WorksheetParser.QuestionsForIds | services/dataService.ts:175 | each question of a key comes from one of its lines, and no two share an id |
| WorksheetParser.ParsedQuestionIdsDistinct | services/dataService.ts:175 | in every parsed worksheet the question ids are pairwise distinct |
| DataService.PlaceholderIff | services/dataService.ts:10 | an address is a placeholder iff it is empty or one of the three markers occurs in it |
| DataService.FetchSheetData | services/dataService.ts:7-27 | a placeholder address or a failed download gives the mock data; otherwise the result is the parse of the downloaded text |
| DataService.FetchWorksheetData | services/dataService.ts:33-50 | a placeholder address or a failed download gives the mock worksheets; otherwise the result is the parse of the downloaded text |
| ResourceGrid.FilterByGrade | components/ResourceGrid.tsx:99-101 | the `all` tab shows every item, and no tab shows more items than there are |
| ResourceGrid.GradeFilterShape | components/ResourceGrid.tsx:101 | the grade filter never lengthens the list |
| ResourceGrid.GradeFilterOrder | components/ResourceGrid.tsx:101 | the filter keeps items in their original order |
| ResourceGrid.GradeFilterCounts | components/ResourceGrid.tsx:101 | an item of the grade is kept as often as it occurs, and any other item is dropped |
| ResourceGrid.FilterByGradeMembers | components/ResourceGrid.tsx:99-101 | on a grade tab an item is shown iff it is in the list and its trimmed grade equals the tab |
| ResourceGrid.OpenLink | components/ResourceGrid.tsx:85-96 | nothing opens iff the link is "" or `#`; the opened address has an http(s) scheme; it is the trimmed link, or `https://` and the trimmed link; a link with a scheme opens as it is |
| ResourceGrid.OpenLinkIdempotent | components/ResourceGrid.tsx:85-96 | opening the opened address again opens the same address |
| ResourceGrid.HasThumbnailIff | components/ResourceGrid.tsx:115 | a thumbnail is drawn iff the address has a non-whitespace character |
| WorksheetView.FindWorksheet | components/WorksheetView.tsx:19 | the open worksheet is the first one with the selected id; there is none without a selection or a match |
| WorksheetView.CountCorrect | components/WorksheetView.tsx:82-86 | the correct answers number at most the questions |
| WorksheetView.FullMarksIff | components/WorksheetView.tsx:79-88 | full marks iff every question is answered correctly |
| WorksheetView.ScoreAtMostAnswered | components/WorksheetView.tsx:83 | an unanswered question never counts, so the score is at most the number answered |
| WorksheetView.QuestionIds | components/WorksheetView.tsx:403 | an id is among a worksheet's question ids iff some question carries it |
| WorksheetView.QuestionIdsSize | components/WorksheetView.tsx:403 | distinct question ids are as many as the questions |
| WorksheetView.SubsetSize | components/WorksheetView.tsx:403 | a subset is no larger than the set, and of equal size only when equal |
| WorksheetView.SubmitEnabledMeansAllAnswered | components/WorksheetView.tsx:403 | when answers are kept only under distinct question ids, submit is enabled iff every question has an answer |
| WorksheetView.SubmitButtonOf | components/WorksheetView.tsx:399-405 | the button is hidden exactly without a selection or after submission; the screen fails exactly when the selected id names no worksheet of the list; otherwise the worksheet is the first one with the selected id and the button is enabled as its answer count allows |
| WorksheetView.WorksheetScreen.Open | components/WorksheetView.tsx:19 | the open worksheet, when there is one, belongs to the current list |
| WorksheetView.WorksheetScreen.constructor | components/WorksheetView.tsx:11-14 | nothing selected, no answers, not submitted, no result dialog; answers only on the open worksheet |
| WorksheetView.WorksheetScreen.ReceiveWorksheets | App.tsx:17-31 | the downloaded list replaces the mock one while the four state values stay as they were |
| WorksheetView.WorksheetScreen.SelectWorksheet | components/WorksheetView.tsx:45-50 | opens the worksheet with empty answers, not submitted and no dialog |
| WorksheetView.WorksheetScreen.AnswerChange | components/WorksheetView.tsx:52-55 | called only for a question of the open worksheet (:345, :365); after submission nothing changes; before it the one answer is recorded and every other answer is kept, so answers stay on the open worksheet |
| WorksheetView.WorksheetScreen.Submit | components/WorksheetView.tsx:57-60 | marks the answers submitted and shows the dialog, keeping the selection and answers |
| WorksheetView.WorksheetScreen.Reset | components/WorksheetView.tsx:62-67 | clears the answers, the submission and the dialog, keeping the selection |
| WorksheetView.WorksheetScreen.Review | components/WorksheetView.tsx:69-72 | hides the dialog and keeps everything else |
| WorksheetView.WorksheetScreen.BackToList | components/WorksheetView.tsx:74-77 | clears the selection and hides the dialog, keeping the answers and the submission |
| WorksheetView.WorksheetScreen.LeaveWorksheet | components/WorksheetView.tsx:204 | the back button clears only the selection |
| WorksheetView.WorksheetScreen.CurrentSubmitButton | components/WorksheetView.tsx:399-405 | the drawn button; in a valid state it is hidden while the result dialog shows; with answers only on the open worksheet's distinct question ids, it is enabled iff every question is answered |
| WorksheetView.WorksheetScreen.GetScore | components/WorksheetView.tsx:79-88 | the loop counts the correct answers of the open worksheet: 0 without one, at most its question count |

Every handler of `WorksheetScreen` also keeps `Valid()`: the result dialog
only shows after a submission. Each handler leaves the worksheet list alone
and keeps `AnswersOnOpenSheet()`: answers sit only under question ids of the
open worksheet. Selecting, resetting and leaving establish that property.

## Left out

- The network: `fetch`, `response.ok` and the `try`/`catch` become the
  `FetchOutcome` parameter. Console logging is not modelled.
- Text.ToLower: only ASCII letters are mapped. `toLowerCase` also maps
  non-ASCII letters, so a header such as "LỚP" is not normalised to the `lớp`
  alias. Scoring is affected too: WorksheetView.IsCorrect lower-cases both
  answers (components/WorksheetView.tsx:83 and :307), so for the correct
  answer 'Hà Nội' a pupil who types "HÀ NỘI" scores in the source but not in
  the model. The `/i` flag of the scheme test in ResourceGrid.tsx only
  involves ASCII letters, so there the model is exact.
- Strings are sequences of Unicode scalar values. JavaScript counts UTF-16
  code units, so the 11-character id test of YouTube.YouTubeID differs for ids
  that hold characters outside the Basic Multilingual Plane.
- SheetRows.RecordOf: a header key that names a property of JavaScript's
  object prototype (`__proto__`) is stored like any other key. The source
  object would treat it specially.
- The result grading of the worksheet screen is left out. Its floating-point
  percentage and its tiers are at components/WorksheetView.tsx:163-195.
- WorksheetView.WorksheetScreen.ReceiveWorksheets: it does not keep the
  answers on the open worksheet. The new list may hold a worksheet with the
  selected id but other questions, and the source keeps the old answers then;
  CurrentSubmitButton's "iff every question is answered" needs that property
  and so is stated only for states where it holds.
- Rendering, audio playback, `window.open` and `scrollTo` are left out. Only
  the decisions they act on are modelled: the filtered list, the address to
  open, whether a thumbnail is drawn, and whether submit is enabled.
- App.tsx, the sidebar, the chatbot and the Gemini service are left out
  because they are outside the ingestion and worksheet core.
- The mock data of constants.ts is a parameter of the fetchers.
- types.ts enumerations used only for navigation (`ViewState`) and
  `ChatMessage` are not part of this model.
