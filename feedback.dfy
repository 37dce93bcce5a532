/**
 * Feedback texts of the interview pages: the word-count rule used when no
 * evaluator text is available, the evaluator-outcome choice, and the
 * `**bold**` to `<strong>` rewrite applied before feedback is displayed.
 */
module Feedback {
  import opened Wrappers
  import opened JsStrings

  const MoreDetail: string :=
    "Consider providing more detail in your answer. Employers typically appreciate comprehensive responses that showcase your experience and thought process."
  const StayConcise: string :=
    "Your answer is quite detailed, which is good! Just make sure to stay concise and focused on the key points during an actual interview."
  const GreatAnswer: string :=
    "Great answer! You've provided a good level of detail while staying focused. This demonstrates clear communication skills."
  /** Shown when the evaluator answers with an empty (or missing) text. */
  const DefaultPraise: string := "Great answer! Keep up the good work."

  /** The word-count rule: under 10 words asks for more detail, over 100 asks for
      concision, anything in between is praised. */
  function WordCountFeedback(answer: string): (text: string)
    ensures text in {MoreDetail, StayConcise, GreatAnswer}
  {
    var n := WordCount(answer);
    if n < 10 then MoreDetail
    else if n > 100 then StayConcise
    else GreatAnswer
  }

  /** The three word-count texts are different (they differ in length). */
  lemma WordCountTextsDiffer()
    ensures MoreDetail != StayConcise && MoreDetail != GreatAnswer && StayConcise != GreatAnswer
  {
    assert |MoreDetail| == 152 && |StayConcise| == 134 && |GreatAnswer| == 121;
  }

  /** For a non-blank answer the rule depends only on the number of words in it,
      with the three bands 1..9, 10..100 and 101.. . */
  lemma WordCountFeedbackBands(answer: string)
    requires !IsBlank(answer)
    ensures 1 <= Words(answer)
    ensures WordCountFeedback(answer) == MoreDetail <==> Words(answer) < 10
    ensures WordCountFeedback(answer) == StayConcise <==> Words(answer) > 100
    ensures WordCountFeedback(answer) == GreatAnswer <==> 10 <= Words(answer) <= 100
  {
    WordCountIsWords(answer);
    WordCountTextsDiffer();
    var n := WordCount(answer);
    if n < 10 {
      assert WordCountFeedback(answer) == MoreDetail;
    } else if n > 100 {
      assert WordCountFeedback(answer) == StayConcise;
    } else {
      assert WordCountFeedback(answer) == GreatAnswer;
    }
  }

  /** Two answers with the same words separated differently get the same feedback. */
  lemma WordCountFeedbackIgnoresSpacing(a: string, b: string)
    requires !IsBlank(a) && !IsBlank(b) && Words(a) == Words(b)
    ensures WordCountFeedback(a) == WordCountFeedback(b)
  {
    WordCountIsWords(a);
    WordCountIsWords(b);
  }

  /** What the Answer Evaluator call ended with. `Evaluated("")` also stands for a
      `null` or `undefined` reply, which the page treats the same way. */
  datatype Evaluation = Evaluated(reply: string) | EvaluatorThrew

  /** `aiFeedback || 'Great answer! ...'` on success; the word-count rule when the
      call threw. */
  function EvaluationFeedback(evaluation: Evaluation, answer: string): (text: string)
    ensures text != ""
    ensures evaluation.Evaluated? && evaluation.reply != "" ==> text == evaluation.reply
    ensures evaluation.Evaluated? && evaluation.reply == "" ==> text == DefaultPraise
    ensures evaluation.EvaluatorThrew? ==> text == WordCountFeedback(answer)
  {
    match evaluation
    case Evaluated(reply) => if reply != "" then reply else DefaultPraise
    case EvaluatorThrew => WordCountFeedback(answer)
  }

  // ---------------------------------------------------------------------------
  // text.replace(/\*\*(.*?)\*\*/g, '<strong>$1</strong>')
  // ---------------------------------------------------------------------------

  predicate StarsAt(s: string, i: int) {
    0 <= i && i + 1 < |s| && s[i] == '*' && s[i + 1] == '*'
  }

  /** Where the lazy `(.*?)` starting at `from` stops: the first `**` at or after
      `from` with no line terminator before it, or `None`. */
  function FindClose(s: string, from: nat): (r: Option<nat>)
    ensures r.Some? ==> from <= r.value && StarsAt(s, r.value)
    ensures r.Some? ==> forall j :: from <= j < r.value ==> !StarsAt(s, j) && !IsLineTerminator(s[j])
    ensures r.None? ==> forall j :: from <= j < |s| && StarsAt(s, j) ==>
                          exists t :: from <= t < j && IsLineTerminator(s[t])
    decreases |s| - from
  {
    if from + 1 >= |s| then None
    else if StarsAt(s, from) then Some(from)
    else if IsLineTerminator(s[from]) then None
    else FindClose(s, from + 1)
  }

  /** The rewrite: scanning left to right, each `**x**` whose `x` is the shortest
      line-terminator-free text up to the next `**` becomes `<strong>x</strong>`;
      everything else is copied. */
  function FormatFeedback(s: string): (r: string)
    ensures r == [] <==> s == []
    decreases |s|
  {
    if s == [] then []
    else if StarsAt(s, 0) && FindClose(s, 2).Some? then
      var q := FindClose(s, 2).value;
      "<strong>" + s[2..q] + "</strong>" + FormatFeedback(s[q + 2..])
    else [s[0]] + FormatFeedback(s[1..])
  }

  /** Text in which `*` does not occur is passed through, and the rest is formatted
      on its own. */
  lemma {:induction false} FormatFeedbackPlainPrefix(a: string, b: string)
    requires '*' !in a
    ensures FormatFeedback(a + b) == a + FormatFeedback(b)
  {
    if a != [] {
      assert !StarsAt(a + b, 0);
      assert (a + b)[1..] == a[1..] + b;
      FormatFeedbackPlainPrefix(a[1..], b);
    } else {
      assert a + b == b;
    }
  }

  /** Text in which no `**` is followed, on the same line, by a closing `**` is left
      unchanged: this covers text without stars, a lone `**`, and a pair split by a
      line break. */
  lemma {:induction false} FormatFeedbackNoMatch(s: string)
    requires forall i :: StarsAt(s, i) ==> FindClose(s, i + 2).None?
    ensures FormatFeedback(s) == s
    decreases |s|
  {
    if s != [] {
      assert !(StarsAt(s, 0) && FindClose(s, 2).Some?);
      forall i | StarsAt(s[1..], i) ensures FindClose(s[1..], i + 2).None? {
        assert StarsAt(s, i + 1);
        FindCloseShift(s, i + 2);
      }
      FormatFeedbackNoMatch(s[1..]);
    }
  }

  /** Dropping the first character shifts the scan by one position. */
  lemma {:induction false} FindCloseShift(s: string, from: nat)
    requires s != []
    ensures FindClose(s[1..], from).None? <==> FindClose(s, from + 1).None?
    ensures FindClose(s[1..], from).Some? ==> FindClose(s, from + 1) == Some(FindClose(s[1..], from).value + 1)
    decreases |s| - from
  {
    if from + 2 < |s| {
      assert StarsAt(s[1..], from) <==> StarsAt(s, from + 1);
      assert s[1..][from] == s[from + 1];
      FindCloseShift(s, from + 1);
    }
  }

  /** `**x**` followed by any text, with `x` free of `*` and of line terminators,
      becomes `<strong>x</strong>` followed by the rewrite of that text: with the `g`
      flag every such pair is replaced, not only the first. */
  lemma FormatFeedbackBold(x: string, rest: string)
    requires '*' !in x
    requires forall j :: 0 <= j < |x| ==> !IsLineTerminator(x[j])
    ensures FormatFeedback("**" + x + "**" + rest) == "<strong>" + x + "</strong>" + FormatFeedback(rest)
  {
    var s := "**" + x + "**" + rest;
    var q := |x| + 2;
    BoldCloses(x, rest);
    assert s[2..q] == x && s[q + 2..] == rest;
    assert FormatFeedback(s) == "<strong>" + s[2..q] + "</strong>" + FormatFeedback(s[q + 2..]);
  }

  /** In `**x**` followed by any text, the closing `**` found from position 2 is the
      one after `x`. */
  lemma BoldCloses(x: string, rest: string)
    requires '*' !in x
    requires forall j :: 0 <= j < |x| ==> !IsLineTerminator(x[j])
    ensures StarsAt("**" + x + "**" + rest, 0)
    ensures FindClose("**" + x + "**" + rest, 2) == Some(|x| + 2)
  {
    var s := "**" + x + "**" + rest;
    var q := |x| + 2;
    assert s[q] == '*' && s[q + 1] == '*';
    forall j | 2 <= j < q
      ensures s[j] != '*' && !IsLineTerminator(s[j])
    {
      assert s[j] == x[j - 2];
    }
    FindCloseSkips(s, 2, q);
  }

  lemma {:induction false} FindCloseSkips(s: string, from: nat, q: nat)
    requires from <= q && StarsAt(s, q)
    requires forall j :: from <= j < q ==> s[j] != '*' && !IsLineTerminator(s[j])
    ensures FindClose(s, from) == Some(q)
    decreases q - from
  {
    if from < q {
      FindCloseSkips(s, from + 1, q);
    }
  }
}
