/**
 * The interview-practice page with generated questions: the state cells of the
 * page (position, question list, current index, answer draft, answer log,
 * feedback) and the handlers that update them.
 */
module InterviewSession {
  import opened Wrappers
  import opened JsStrings
  import opened Questions
  import opened ReplyParsing
  import opened Feedback

  /** What the user is shown after pressing "Start Interview Practice". */
  datatype StartOutcome =
    | PositionMissing     // alert: please enter a position title
    | GenerationFailed    // alert: failed to generate questions
    | Started

  /** What the user is shown after pressing "Check Answer". */
  datatype CheckOutcome = AnswerMissing | Checked

  /** What "Next Question" / "Finish Interview" did. */
  datatype NextOutcome = Advanced | Completed

  /** The session phases the page moves through. */
  datatype Phase = CollectingPosition | InProgress | Finished

  /** The reply was parsed into an empty list, so the templated questions are used. */
  predicate UsesFallback(reply: SourceReply, json: string -> JsonValue) {
    reply.Replied? && ParseQuestionList(reply.text, json) == Parsed([])
  }

  /** When the reply parses to an empty list the session gets the templated questions. */
  lemma FallbackQuestions(position: string, reply: SourceReply, json: string -> JsonValue)
    requires UsesFallback(reply, json)
    ensures StartQuestions(position, reply, json) == Some(DefaultQuestions(position))
  {
  }

  class Session {
    var position: string
    var questions: seq<Question>
    var showPositionForm: bool
    var currentQuestionIndex: nat
    var answer: string
    var answers: map<int, string>
    var feedback: Option<string>
    var showFeedback: bool
    /** The page has said "Interview practice completed!" and navigated away. */
    var finished: bool

    /** While the position form is shown nothing else has been touched; once the
        questions are shown there is at least one and the index points at one of them.
        Only non-blank answers are ever logged. */
    ghost predicate Valid()
      reads this
    {
      && IdsArePositions(questions)
      && LoggedNonBlank(answers)
      && (showPositionForm ==>
            questions == [] && currentQuestionIndex == 0 && answer == "" && answers == map[]
            && feedback == None && !showFeedback && !finished)
      && (!showPositionForm ==> 0 < |questions| && currentQuestionIndex < |questions|)
    }

    function Phase(): Phase
      reads this
    {
      if showPositionForm then CollectingPosition
      else if finished then Finished
      else InProgress
    }

    /** `currentQuestionIndex === questions.length - 1`. */
    function IsLastQuestion(): (r: bool)
      reads this
      ensures Valid() && Phase() != CollectingPosition ==> (r <==> questions[currentQuestionIndex].id == |questions|)
    {
      currentQuestionIndex == |questions| - 1
    }

    /** The navigation button of question `index` is shown as answered. */
    function IsAnswered(index: nat): (r: bool)
      reads this
      requires index < |questions|
      ensures Valid() ==> (r <==> questions[index].id in answers)
    {
      DraftFor(answers, questions[index]) != ""
    }

    constructor ()
      ensures Valid() && Phase() == CollectingPosition
      ensures position == "" && questions == [] && answers == map[]
    {
      position := "";
      questions := [];
      showPositionForm := true;
      currentQuestionIndex := 0;
      answer := "";
      answers := map[];
      feedback := None;
      showFeedback := false;
      finished := false;
    }

    /** The position input's `onChange`. */
    method EditPosition(text: string)
      requires Valid() && showPositionForm
      modifies this`position
      ensures Valid() && position == text
    {
      position := text;
    }

    /** The answer textarea's `onChange`. */
    method EditAnswer(text: string)
      requires Valid() && Phase() == InProgress
      modifies this`answer
      ensures Valid() && answer == text
    {
      answer := text;
    }

    /** `handleStartInterview`: rejects a blank position; otherwise asks the question
        source (its outcome is `reply`; `json` is `JSON.parse`) and shows the parsed
        questions, or the five templated ones when none could be parsed. */
    method StartInterview(reply: SourceReply, json: string -> JsonValue) returns (outcome: StartOutcome)
      requires Valid() && showPositionForm
      modifies this
      ensures Valid()
      ensures outcome == PositionMissing <==> IsBlank(old(position))
      ensures outcome == Started <==>
                !IsBlank(old(position)) && StartQuestions(old(position), reply, json).Some?
      ensures outcome != Started ==> unchanged(this)
      ensures outcome == Started ==>
                && Phase() == InProgress
                && questions == StartQuestions(old(position), reply, json).value
                && position == old(position) && feedback == old(feedback) && showFeedback == old(showFeedback)
      ensures outcome == Started && !UsesFallback(reply, json) ==>
                currentQuestionIndex == 0 && answer == "" && answers == map[]
      ensures outcome == Started && UsesFallback(reply, json) ==>
                && currentQuestionIndex == old(currentQuestionIndex)
                && answer == old(answer) && answers == old(answers)
    {
      if IsBlank(position) {
        return PositionMissing;
      }
      var generated := StartQuestions(position, reply, json);
      if generated.None? {
        return GenerationFailed;
      }
      questions := generated.value;
      showPositionForm := false;
      if !UsesFallback(reply, json) {
        currentQuestionIndex := 0;
        answer := "";
        answers := map[];
      }
      outcome := Started;
    }

    /** `handleCheckAnswer`: rejects a blank draft; otherwise logs the draft under the
        current question's id (before evaluation, so it survives a failed call) and
        shows the evaluator's feedback or its fallback. */
    method CheckAnswer(evaluation: Evaluation) returns (outcome: CheckOutcome)
      requires Valid() && Phase() == InProgress
      modifies this`answers, this`feedback, this`showFeedback
      ensures Valid()
      ensures outcome == AnswerMissing <==> IsBlank(answer)
      ensures outcome == AnswerMissing ==>
                answers == old(answers) && feedback == old(feedback) && showFeedback == old(showFeedback)
      ensures outcome == Checked ==>
                && answers == old(answers)[questions[currentQuestionIndex].id := answer]
                && feedback == Some(EvaluationFeedback(evaluation, answer))
                && showFeedback
                && IsAnswered(currentQuestionIndex)
      ensures old(answers).Keys <= answers.Keys
    {
      if IsBlank(answer) {
        return AnswerMissing;
      }
      showFeedback := false;
      LogAnswer(answers, questions[currentQuestionIndex], answer);
      answers := answers[questions[currentQuestionIndex].id := answer];
      feedback := Some(EvaluationFeedback(evaluation, answer));
      showFeedback := true;
      outcome := Checked;
    }

    /** `handleNextQuestion`: on the last question the practice is completed; otherwise
        the next question becomes current with its logged answer (or `''`) as draft. */
    method NextQuestion() returns (outcome: NextOutcome)
      requires Valid() && Phase() == InProgress
      modifies this`currentQuestionIndex, this`answer, this`feedback, this`showFeedback, this`finished
      ensures Valid()
      ensures outcome == Completed <==> old(IsLastQuestion())
      ensures outcome == Completed ==>
                && Phase() == Finished && currentQuestionIndex == old(currentQuestionIndex)
                && answer == old(answer) && feedback == old(feedback) && showFeedback == old(showFeedback)
      ensures outcome == Advanced ==>
                && Phase() == InProgress
                && currentQuestionIndex == old(currentQuestionIndex) + 1
                && answer == DraftFor(answers, questions[currentQuestionIndex])
                && feedback == None && !showFeedback
    {
      if IsLastQuestion() {
        finished := true;
        return Completed;
      }
      answer := DraftFor(answers, questions[currentQuestionIndex + 1]);
      currentQuestionIndex := currentQuestionIndex + 1;
      showFeedback := false;
      feedback := None;
      outcome := Advanced;
    }

    /** `handlePreviousQuestion`: nothing happens on the first question; otherwise the
        previous question becomes current with its logged answer (or `''`) as draft. */
    method PreviousQuestion()
      requires Valid() && Phase() == InProgress
      modifies this`currentQuestionIndex, this`answer, this`feedback, this`showFeedback
      ensures Valid() && Phase() == InProgress
      ensures old(currentQuestionIndex) == 0 ==> unchanged(this)
      ensures old(currentQuestionIndex) > 0 ==>
                && currentQuestionIndex == old(currentQuestionIndex) - 1
                && answer == DraftFor(answers, questions[currentQuestionIndex])
                && feedback == None && !showFeedback
    {
      if currentQuestionIndex > 0 {
        answer := DraftFor(answers, questions[currentQuestionIndex - 1]);
        currentQuestionIndex := currentQuestionIndex - 1;
        showFeedback := false;
        feedback := None;
      }
    }

    /** The numbered navigation buttons: any listed question becomes current. */
    method JumpTo(index: nat)
      requires Valid() && Phase() == InProgress
      requires index < |questions|
      modifies this`currentQuestionIndex, this`answer, this`feedback, this`showFeedback
      ensures Valid() && Phase() == InProgress
      ensures currentQuestionIndex == index
      ensures answer == DraftFor(answers, questions[index])
      ensures feedback == None && !showFeedback
    {
      currentQuestionIndex := index;
      answer := DraftFor(answers, questions[index]);
      showFeedback := false;
      feedback := None;
    }
  }
}
