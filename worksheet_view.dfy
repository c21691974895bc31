/** The answering screen of components/WorksheetView.tsx: which worksheet is
    open, the answers given so far, whether they were submitted, and whether
    the result dialog is up; the handlers that move between these states; and
    the score. */
module WorksheetView {
  import opened Text
  import opened Optional
  import opened Types

  /** The open worksheet: the first worksheet
      with the selected id; nothing is found when no id is selected. */
  function FindWorksheet(worksheets: seq<Worksheet>, selected: Option<string>): (found: Option<Worksheet>)
    ensures found.Some? ==> selected.Some? && found.value in worksheets && found.value.id == selected.value
    ensures found.None? ==> selected.None? || forall w :: w in worksheets ==> w.id != selected.value
    ensures found.Some? ==> exists i :: 0 <= i < |worksheets| && worksheets[i] == found.value &&
                                        forall j :: 0 <= j < i ==> worksheets[j].id != selected.value
  {
    if selected.None? || worksheets == [] then None
    else if worksheets[0].id == selected.value then Some(worksheets[0])
    else
      var rest := FindWorksheet(worksheets[1..], selected);
      assert forall i :: 1 <= i < |worksheets| ==> worksheets[i] == worksheets[1..][i - 1];
      rest
  }

  /** The per-question check of the answering screen and of `getScore`: the
      recorded answer, lower-cased and trimmed, is the correct answer,
      lower-cased and trimmed.  A question with no recorded answer is
      never correct (`undefined` is not a string). */
  predicate IsCorrect(answers: map<string, string>, q: Question) {
    q.id in answers && Trim(ToLower(answers[q.id])) == Trim(ToLower(q.correctAnswer))
  }

  /** The number of questions answered correctly. */
  function CountCorrect(answers: map<string, string>, questions: seq<Question>): (n: nat)
    ensures n <= |questions|
  {
    if questions == [] then 0
    else CountCorrect(answers, questions[..|questions| - 1]) + (if IsCorrect(answers, questions[|questions| - 1]) then 1 else 0)
  }

  /** The number of questions that have a recorded answer. */
  function CountAnswered(answers: map<string, string>, questions: seq<Question>): nat {
    if questions == [] then 0
    else CountAnswered(answers, questions[..|questions| - 1]) + (if questions[|questions| - 1].id in answers then 1 else 0)
  }

  /** `getScore()`: 0 without an open worksheet, else its correct answers. */
  function Score(worksheets: seq<Worksheet>, selected: Option<string>, answers: map<string, string>): nat {
    match FindWorksheet(worksheets, selected)
    case None => 0
    case Some(w) => CountCorrect(answers, w.questions)
  }

  /** Full marks exactly when every question is answered correctly. */
  lemma {:induction false} FullMarksIff(answers: map<string, string>, questions: seq<Question>)
    ensures CountCorrect(answers, questions) == |questions| <==> forall q :: q in questions ==> IsCorrect(answers, q)
  {
    if questions != [] {
      var init, last := questions[..|questions| - 1], questions[|questions| - 1];
      FullMarksIff(answers, init);
      assert forall q :: q in questions <==> q in init || q == last by {
        assert questions == init + [last];
      }
    }
  }

  /** Unanswered questions never count: the score is at most the number of
      answered questions. */
  lemma {:induction false} ScoreAtMostAnswered(answers: map<string, string>, questions: seq<Question>)
    ensures CountCorrect(answers, questions) <= CountAnswered(answers, questions)
  {
    if questions != [] {
      ScoreAtMostAnswered(answers, questions[..|questions| - 1]);
    }
  }

  /** The submit button of the answering screen is enabled once there are at
      least as many recorded answers as the worksheet has questions. */
  predicate SubmitEnabled(answers: map<string, string>, w: Worksheet) {
    |answers.Keys| >= |w.questions|
  }

  /** The ids of a list of questions. */
  function QuestionIds(questions: seq<Question>): (ids: set<string>)
    ensures forall id :: id in ids <==> exists i :: 0 <= i < |questions| && questions[i].id == id
  {
    if questions == [] then {}
    else
      var init := questions[..|questions| - 1];
      var ids := QuestionIds(init) + {questions[|questions| - 1].id};
      assert forall i :: 0 <= i < |init| ==> init[i] == questions[i];
      ids
  }

  /** Distinct ids: as many ids as questions. */
  lemma {:induction false} QuestionIdsSize(questions: seq<Question>)
    requires forall i, j :: 0 <= i < j < |questions| ==> questions[i].id != questions[j].id
    ensures |QuestionIds(questions)| == |questions|
  {
    if questions != [] {
      var init := questions[..|questions| - 1];
      var last := questions[|questions| - 1];
      assert forall i :: 0 <= i < |init| ==> init[i] == questions[i];
      QuestionIdsSize(init);
      assert last.id !in QuestionIds(init);
    }
  }

  lemma {:induction false} SubsetSize(a: set<string>, b: set<string>)
    requires a <= b
    ensures |a| <= |b|
    ensures |a| == |b| ==> a == b
    decreases |a|
  {
    if a != {} {
      var y :| y in a;
      SubsetSize(a - {y}, b - {y});
      assert a == (a - {y}) + {y};
      assert b == (b - {y}) + {y};
    } else if b != {} {
      var y :| y in b;
      assert |b| >= 1;
    }
  }

  /** When answers are only ever recorded under question ids and the ids are
      distinct, an enabled submit button means every question has an answer. */
  lemma SubmitEnabledMeansAllAnswered(answers: map<string, string>, w: Worksheet)
    requires forall i, j :: 0 <= i < j < |w.questions| ==> w.questions[i].id != w.questions[j].id
    requires answers.Keys <= QuestionIds(w.questions)
    ensures SubmitEnabled(answers, w) <==> forall q :: q in w.questions ==> q.id in answers
  {
    QuestionIdsSize(w.questions);
    SubsetSize(answers.Keys, QuestionIds(w.questions));
    if forall q :: q in w.questions ==> q.id in answers {
      assert QuestionIds(w.questions) <= answers.Keys;
      assert answers.Keys == QuestionIds(w.questions);
    }
  }

  /** What the answering screen shows in place of the submit button. */
  datatype SubmitButton =
    | Hidden                 // the worksheet list is shown, or the answers are submitted
    | Shown(enabled: bool)   // the button, enabled or not
    | RenderError            // the screen reads the questions of a worksheet that is not in the list

  /** The submit button for the given state.  An empty selected id counts as no
      selection, so the worksheet list is shown.  While the answers are not
      submitted the footer reads the open worksheet's question count, which
      fails when the selected id names no worksheet of the list. */
  function SubmitButtonOf(worksheets: seq<Worksheet>, selected: Option<string>, answers: map<string, string>, submitted: bool): (button: SubmitButton)
    ensures button.Hidden? <==> selected.None? || selected.value == "" || submitted
    ensures button.RenderError? <==>
      selected.Some? && selected.value != "" && !submitted && forall w :: w in worksheets ==> w.id != selected.value
    ensures button.Shown? ==> FindWorksheet(worksheets, selected).Some? &&
                              button.enabled == SubmitEnabled(answers, FindWorksheet(worksheets, selected).value)
  {
    if selected.None? || selected.value == "" || submitted then Hidden
    else
      match FindWorksheet(worksheets, selected)
      case None => RenderError
      case Some(w) => Shown(SubmitEnabled(answers, w))
  }

  /** The component's state: the list of worksheets it is given, which its
      parent replaces once the sheet is downloaded, and its four state values. */
  class WorksheetScreen {
    var worksheets: seq<Worksheet>
    var selectedWorksheetId: Option<string>
    var userAnswers: map<string, string>
    var submitted: bool
    var showResultModal: bool

    /** The result dialog only ever shows after a submission. */
    ghost predicate Valid()
      reads this
    {
      showResultModal ==> submitted
    }

    /** The open worksheet, if the selection names one of the list. */
    function Open(): (w: Option<Worksheet>)
      reads this
      ensures w.Some? ==> w.value in worksheets
    {
      FindWorksheet(worksheets, selectedWorksheetId)
    }

    /** Answers are recorded only under question ids of the open worksheet. */
    ghost predicate AnswersOnOpenSheet()
      reads this
    {
      Open().Some? ==> userAnswers.Keys <= QuestionIds(Open().value.questions)
    }

    /** The four `useState` initial values. */
    constructor(worksheets: seq<Worksheet>)
      ensures this.worksheets == worksheets
      ensures selectedWorksheetId.None? && userAnswers == map[] && !submitted && !showResultModal
      ensures Valid() && AnswersOnOpenSheet()
    {
      this.worksheets := worksheets;
      selectedWorksheetId := None;
      userAnswers := map[];
      submitted := false;
      showResultModal := false;
    }

    /** The parent passes a new list (the downloaded worksheets replace the mock
        ones); the four state values survive, so the selection may now name no
        worksheet, or one with other questions. */
    method ReceiveWorksheets(worksheets: seq<Worksheet>)
      modifies this
      requires Valid()
      ensures this.worksheets == worksheets
      ensures selectedWorksheetId == old(selectedWorksheetId) && userAnswers == old(userAnswers)
      ensures submitted == old(submitted) && showResultModal == old(showResultModal)
      ensures Valid()
    {
      this.worksheets := worksheets;
    }

    /** `handleSelectWorksheet`: open a worksheet with a clean sheet of answers. */
    method SelectWorksheet(id: string)
      modifies this
      ensures selectedWorksheetId == Some(id) && userAnswers == map[]
      ensures !submitted && !showResultModal
      ensures worksheets == old(worksheets)
      ensures Valid() && AnswersOnOpenSheet()
    {
      selectedWorksheetId := Some(id);
      userAnswers := map[];
      submitted := false;
      showResultModal := false;
    }

    /** `handleAnswerChange`: record one answer, unless already submitted.  It
        is only called by the inputs of the open worksheet's questions. */
    method AnswerChange(questionId: string, value: string)
      modifies this
      requires Valid()
      requires Open().Some? && questionId in QuestionIds(Open().value.questions)
      ensures old(submitted) ==> userAnswers == old(userAnswers)
      ensures !old(submitted) ==> userAnswers == old(userAnswers)[questionId := value]
      ensures forall k :: k in old(userAnswers) && k != questionId ==> k in userAnswers && userAnswers[k] == old(userAnswers)[k]
      ensures selectedWorksheetId == old(selectedWorksheetId) && submitted == old(submitted)
      ensures showResultModal == old(showResultModal) && worksheets == old(worksheets)
      ensures Valid()
      ensures old(AnswersOnOpenSheet()) ==> AnswersOnOpenSheet()
    {
      if submitted {
        return;
      }
      userAnswers := userAnswers[questionId := value];
    }

    /** `handleSubmit`: mark the answers submitted and show the result. */
    method Submit()
      modifies this
      ensures submitted && showResultModal
      ensures selectedWorksheetId == old(selectedWorksheetId) && userAnswers == old(userAnswers)
      ensures worksheets == old(worksheets)
      ensures Valid()
      ensures old(AnswersOnOpenSheet()) ==> AnswersOnOpenSheet()
    {
      submitted := true;
      showResultModal := true;
    }

    /** `handleReset`: start the same worksheet over. */
    method Reset()
      modifies this
      ensures !submitted && !showResultModal && userAnswers == map[]
      ensures selectedWorksheetId == old(selectedWorksheetId) && worksheets == old(worksheets)
      ensures Valid() && AnswersOnOpenSheet()
    {
      submitted := false;
      showResultModal := false;
      userAnswers := map[];
    }

    /** `handleReview`: close the result dialog to look over the answers. */
    method Review()
      modifies this
      requires Valid()
      ensures !showResultModal
      ensures submitted == old(submitted) && userAnswers == old(userAnswers)
      ensures selectedWorksheetId == old(selectedWorksheetId) && worksheets == old(worksheets)
      ensures Valid()
      ensures old(AnswersOnOpenSheet()) ==> AnswersOnOpenSheet()
    {
      showResultModal := false;
    }

    /** `handleBackToList`: return to the list of worksheets. */
    method BackToList()
      modifies this
      requires Valid()
      ensures selectedWorksheetId.None? && !showResultModal
      ensures submitted == old(submitted) && userAnswers == old(userAnswers)
      ensures worksheets == old(worksheets)
      ensures Valid() && AnswersOnOpenSheet()
    {
      selectedWorksheetId := None;
      showResultModal := false;
    }

    /** The back button of the answering screen: only the selection is cleared. */
    method LeaveWorksheet()
      modifies this
      requires Valid()
      ensures selectedWorksheetId.None?
      ensures submitted == old(submitted) && userAnswers == old(userAnswers)
      ensures showResultModal == old(showResultModal) && worksheets == old(worksheets)
      ensures Valid() && AnswersOnOpenSheet()
    {
      selectedWorksheetId := None;
    }

    /** The submit button as drawn now.  In a valid state it is never drawn
        under the result dialog.  Where answers sit only under the open
        worksheet's distinct question ids, it is enabled exactly when every
        question is answered. */
    method CurrentSubmitButton() returns (button: SubmitButton)
      ensures button == SubmitButtonOf(worksheets, selectedWorksheetId, userAnswers, submitted)
      ensures Valid() && showResultModal ==> button.Hidden?
      ensures button.Shown? && AnswersOnOpenSheet() &&
              (forall i, j :: 0 <= i < j < |Open().value.questions| ==> Open().value.questions[i].id != Open().value.questions[j].id) ==>
              (button.enabled <==> forall q :: q in Open().value.questions ==> q.id in userAnswers)
    {
      button := SubmitButtonOf(worksheets, selectedWorksheetId, userAnswers, submitted);
      if button.Shown? {
        var w := Open().value;
        if AnswersOnOpenSheet() && forall i, j :: 0 <= i < j < |w.questions| ==> w.questions[i].id != w.questions[j].id {
          SubmitEnabledMeansAllAnswered(userAnswers, w);
        }
      }
    }

    /** `getScore`, counting correct answers one question at a time. */
    method GetScore() returns (score: nat)
      ensures score == Score(worksheets, selectedWorksheetId, userAnswers)
      ensures FindWorksheet(worksheets, selectedWorksheetId).None? ==> score == 0
      ensures FindWorksheet(worksheets, selectedWorksheetId).Some? ==>
        score <= |FindWorksheet(worksheets, selectedWorksheetId).value.questions|
    {
      var activeWorksheet := FindWorksheet(worksheets, selectedWorksheetId);
      if activeWorksheet.None? {
        return 0;
      }
      var questions := activeWorksheet.value.questions;
      var correct := 0;
      for k := 0 to |questions|
        invariant correct == CountCorrect(userAnswers, questions[..k])
      {
        assert questions[..k + 1][..k] == questions[..k];
        if IsCorrect(userAnswers, questions[k]) {
          correct := correct + 1;
        }
      }
      assert questions[..|questions|] == questions;
      score := correct;
    }
  }
}
