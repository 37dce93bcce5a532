/**
 * The interview-practice page over a fixed list of eight questions: the answer
 * draft, the answer log, the word-count feedback and the navigation handlers.
 */
module SampleInterview {
  import opened Wrappers
  import opened JsStrings
  import opened Questions
  import opened Feedback

  /** The text of the fixed practice question at position `k` (0-based). */
  function SampleText(k: nat): string
    requires k < 8
  {
    match k
    case 0 => "Tell me about yourself and your professional background."
    case 1 => "What are your greatest strengths and how do they apply to this role?"
    case 2 => "Describe a challenging project you worked on and how you overcame the obstacles."
    case 3 => "Where do you see yourself in 5 years?"
    case 4 => "Why are you interested in working for our company?"
    case 5 => "Describe a time when you had to work with a difficult team member."
    case 6 => "What is your greatest weakness and how are you working to improve it?"
    case 7 => "Do you have any questions for us about the role or company?"
  }

  /** The eight fixed practice questions, numbered 1..8 in order. */
  function SampleQuestions(): (qs: seq<Question>)
    ensures |qs| == 8
    ensures IdsArePositions(qs)
  {
    seq(8, k requires 0 <= k < 8 => Question(k + 1, SampleText(k)))
  }

  datatype CheckOutcome = AnswerMissing | Checked
  datatype NextOutcome = Advanced | Completed

  class SampleSession {
    /** `SAMPLE_QUESTIONS`, fixed for the lifetime of the page. */
    const questions: seq<Question>
    var currentQuestionIndex: nat
    var answer: string
    var answers: map<int, string>
    var feedback: Option<string>
    var showFeedback: bool
    /** The page has said "Interview practice completed!" and navigated away. */
    var finished: bool

    /** The eight questions are numbered 1..8, the index is one of them, and only
        non-blank answers are logged. */
    ghost predicate Valid()
      reads this
    {
      && |questions| == 8 && IdsArePositions(questions)
      && currentQuestionIndex < |questions|
      && LoggedNonBlank(answers)
    }

    function CurrentQuestion(): (q: Question)
      reads this
      requires Valid()
      ensures q.id == currentQuestionIndex + 1
    {
      questions[currentQuestionIndex]
    }

    /** `currentQuestionIndex === SAMPLE_QUESTIONS.length - 1`: the eighth question. */
    function IsLastQuestion(): (r: bool)
      reads this
      ensures Valid() ==> (r <==> questions[currentQuestionIndex].id == |questions|)
    {
      currentQuestionIndex == |questions| - 1
    }

    /** The navigation button of question `index` is shown as answered. */
    function IsAnswered(index: nat): (r: bool)
      reads this
      requires index < |questions|
      ensures Valid() ==> (r <==> questions[index].id in answers)
    {
      DraftFor(answers, questions[index]) != ""
    }

    constructor ()
      ensures Valid() && !finished && questions == SampleQuestions()
      ensures currentQuestionIndex == 0 && answer == "" && answers == map[]
      ensures feedback == None && !showFeedback
    {
      questions := SampleQuestions();
      currentQuestionIndex := 0;
      answer := "";
      answers := map[];
      feedback := None;
      showFeedback := false;
      finished := false;
    }

    /** The answer textarea's `onChange`. */
    method EditAnswer(text: string)
      requires Valid() && !finished
      modifies this`answer
      ensures Valid() && answer == text
    {
      answer := text;
    }

    /** `handleCheckAnswer`: rejects a blank draft; otherwise logs it under the current
        question's id and shows the word-count feedback for it. */
    method CheckAnswer() returns (outcome: CheckOutcome)
      requires Valid() && !finished
      modifies this`answers, this`feedback, this`showFeedback
      ensures Valid()
      ensures outcome == AnswerMissing <==> IsBlank(answer)
      ensures outcome == AnswerMissing ==>
                answers == old(answers) && feedback == old(feedback) && showFeedback == old(showFeedback)
      ensures outcome == Checked ==>
                && answers == old(answers)[questions[currentQuestionIndex].id := answer]
                && feedback == Some(WordCountFeedback(answer))
                && showFeedback
                && IsAnswered(currentQuestionIndex)
    {
      if IsBlank(answer) {
        return AnswerMissing;
      }
      showFeedback := false;
      LogAnswer(answers, questions[currentQuestionIndex], answer);
      answers := answers[questions[currentQuestionIndex].id := answer];
      feedback := Some(WordCountFeedback(answer));
      showFeedback := true;
      outcome := Checked;
    }

    /** `handleNextQuestion`: completes the practice on the eighth question, otherwise
        moves on with the next question's logged answer (or `''`) as draft. */
    method NextQuestion() returns (outcome: NextOutcome)
      requires Valid() && !finished
      modifies this`currentQuestionIndex, this`answer, this`feedback, this`showFeedback, this`finished
      ensures Valid()
      ensures outcome == Completed <==> old(currentQuestionIndex) == 7
      ensures outcome == Completed ==>
                && finished && currentQuestionIndex == old(currentQuestionIndex)
                && answer == old(answer) && feedback == old(feedback) && showFeedback == old(showFeedback)
      ensures outcome == Advanced ==>
                && !finished
                && currentQuestionIndex == old(currentQuestionIndex) + 1
                && answer == DraftFor(answers, CurrentQuestion())
                && feedback == None && !showFeedback
    {
      if IsLastQuestion() {
        finished := true;
        return Completed;
      }
      answer := DraftFor(answers, questions[currentQuestionIndex + 1]);
      currentQuestionIndex := currentQuestionIndex + 1;
      showFeedback := false;
      feedback := None;
      outcome := Advanced;
    }

    /** `handlePreviousQuestion`: nothing happens on the first question. */
    method PreviousQuestion()
      requires Valid() && !finished
      modifies this`currentQuestionIndex, this`answer, this`feedback, this`showFeedback
      ensures Valid() && !finished
      ensures old(currentQuestionIndex) == 0 ==> unchanged(this)
      ensures old(currentQuestionIndex) > 0 ==>
                && currentQuestionIndex == old(currentQuestionIndex) - 1
                && answer == DraftFor(answers, CurrentQuestion())
                && feedback == None && !showFeedback
    {
      if currentQuestionIndex > 0 {
        answer := DraftFor(answers, questions[currentQuestionIndex - 1]);
        currentQuestionIndex := currentQuestionIndex - 1;
        showFeedback := false;
        feedback := None;
      }
    }

    /** The numbered navigation buttons. */
    method JumpTo(index: nat)
      requires Valid() && !finished
      requires index < |questions|
      modifies this`currentQuestionIndex, this`answer, this`feedback, this`showFeedback
      ensures Valid() && !finished
      ensures currentQuestionIndex == index
      ensures answer == DraftFor(answers, CurrentQuestion())
      ensures feedback == None && !showFeedback
    {
      currentQuestionIndex := index;
      answer := DraftFor(answers, questions[index]);
      showFeedback := false;
      feedback := None;
    }
  }
}
