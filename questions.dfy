/** Interview questions and the per-question answer log shared by both interview pages. */
module Questions {
  import opened JsStrings

  /** A question of a practice session: `id` is 1-based and `text` is shown to the candidate. */
  datatype Question = Question(id: int, text: string)

  /** `list.map((text, index) => ({ id: index + 1, text }))`. */
  function Numbered(texts: seq<string>): (qs: seq<Question>)
    ensures |qs| == |texts|
    ensures forall k :: 0 <= k < |qs| ==> qs[k].text == texts[k]
  {
    seq(|texts|, k requires 0 <= k < |texts| => Question(k + 1, texts[k]))
  }

  /** The ids of `qs` are 1, 2, ..., |qs| in list order. */
  predicate IdsArePositions(qs: seq<Question>) {
    forall k :: 0 <= k < |qs| ==> qs[k].id == k + 1
  }

  /** Numbering gives every question its 1-based position as id, so no two questions
      share an id and the answer log keyed by id has one slot per question. */
  lemma NumberedIds(texts: seq<string>)
    ensures IdsArePositions(Numbered(texts))
    ensures forall j, k :: 0 <= j < k < |texts| ==> Numbered(texts)[j].id != Numbered(texts)[k].id
  {
  }

  /** `answers[q.id] || ''`: the draft shown when question `q` becomes current. */
  function DraftFor(answers: map<int, string>, q: Question): (draft: string)
    ensures q.id in answers ==> draft == answers[q.id]
    ensures q.id !in answers ==> draft == ""
  {
    if q.id in answers then answers[q.id] else ""
  }

  /** Every answer in the log is non-blank (blank drafts are rejected before logging). */
  predicate LoggedNonBlank(answers: map<int, string>) {
    forall id :: id in answers ==> !IsBlank(answers[id])
  }

  /** Logging a non-blank answer keeps the log non-blank, and a logged question's
      draft is then non-empty. */
  lemma LogAnswer(answers: map<int, string>, q: Question, answer: string)
    requires LoggedNonBlank(answers) && !IsBlank(answer)
    ensures LoggedNonBlank(answers[q.id := answer])
    ensures DraftFor(answers[q.id := answer], q) == answer != ""
  {
  }
}
