# HireMind interview practice and CV builder, modelled in Dafny

HireMind is a job-seeker web application. This project models the part of its
front end that carries real logic:

- **Generated-question interview page.** The state of the page is held in
  `InterviewSession.Session`. Its handlers are methods:
  - starting the practice for a position;
  - checking an answer;
  - next, previous and jumping to a numbered question.

  The pure parts are functions with their own lemmas:
  - turning the question source's raw reply into questions (`ReplyParsing`);
  - the word-count feedback rule and the `**bold**` rewrite (`Feedback`);
  - the JavaScript string primitives they rely on (`JsStrings`).
- **Fixed-question practice page.** `SampleInterview.SampleSession` works over
  the eight built-in questions, held in a constant field set to
  `SampleQuestions()`. It shares the answer log (`Questions`) and the
  word-count rule.
- **CV builder.** `CvBuilder` holds the `CVData` value and the page's edits:
  - add, update and remove for education, experience and skills;
  - the "current job" checkbox;
  - the two text fields.

  Each edit is a function from the old CV to the new one, as in the page.
- **Templated CV preview.** `CvPreview` derives what is shown from a CV:
  - the empty-CV placeholder;
  - field placeholders;
  - the date ranges;
  - dots and bars for skill levels;
  - which sections appear and in which order for the modern and classic templates.
- **Single-template preview.** `SimpleCvPreview` is the simpler preview. It is
  proved to be the templated preview with its default template.

The question source and the answer evaluator are remote calls. Each one is an
input to the handler that uses it:

- the source gives `Replied(text)` or `SourceThrew`;
- the evaluator gives `Evaluated(reply)` or `EvaluatorThrew`.

`JSON.parse` is a function parameter `string -> JsonValue`. A `JsonValue` is a
syntax error, an array of strings, or any other value.

Where the page calls React setters one after the other, the corresponding method
assigns the same values. A draft restored on navigation is computed from the index
before the move, as the page's handler reads it, so the order of the assignments
does not matter. Each method states the complete new state.

## Model

Paths are relative to the repository root.

| member | source | states |
|---|---|---|
| JsStrings.TrimStart | frontend/src/pages/InterviewPage/index.tsx:37 | the result is a suffix whose dropped prefix is all JavaScript whitespace and which does not start with whitespace |
| JsStrings.TrimEnd | frontend/src/pages/InterviewPage/index.tsx:37 | the result is a prefix whose dropped suffix is all whitespace and which does not end with whitespace |
| JsStrings.Trim | frontend/src/pages/InterviewPage/index.tsx:37 | `trim()` drops an all-whitespace prefix (as `TrimStart`) and then an all-whitespace suffix, is empty exactly for an all-whitespace string, and otherwise begins and ends with non-whitespace |
| JsStrings.IndexOfChar | frontend/src/pages/InterviewPage/index.tsx:54 | the index is the first occurrence of the character |
| JsStrings.SplitOn | frontend/src/pages/InterviewPage/index.tsx:54 | `split('\n')` gives at least one piece, no piece holds a newline, and joining with newlines restores the text |
| JsStrings.NonSpaceRun | frontend/src/pages/InterviewPage/index.tsx:118 | the length of the maximal whitespace-free prefix |
| JsStrings.SplitWhitespace | frontend/src/pages/InterviewPage/index.tsx:118 | `split(/\s+/)` gives at least one piece and no piece contains whitespace |
| JsStrings.WordCount | frontend/src/pages/InterviewPage/index.tsx:118 | `trim().split(/\s+/).length` is at least 1, also for a blank answer |
| JsStrings.TrimStartKeepsLast | frontend/src/pages/InterviewPage/index.tsx:118 | trimming the start of a text that ends with a non-space character keeps that last character |
| JsStrings.SplitCountsWords | frontend/src/pages/InterviewPage/index.tsx:118 | on a trimmed non-blank text the number of `split(/\s+/)` pieces equals the independently defined number of words |
| JsStrings.WordCountIsWords | frontend/src/pages/InterviewPage/index.tsx:118 | for a non-blank answer the page's word count is its number of words |
| Questions.Numbered | frontend/src/pages/InterviewPage/index.tsx:59-62 | one question per text, in order, carrying that text |
| Questions.NumberedIds | frontend/src/pages/InterviewPage/index.tsx:59-62 | ids are 1..n in list order, so they are pairwise distinct |
| Questions.DraftFor | frontend/src/pages/InterviewPage/index.tsx:140 | the logged answer of the question, or `''` when none was logged |
| Questions.LogAnswer | frontend/src/pages/InterviewPage/index.tsx:106-109 | logging a non-blank answer keeps every logged answer non-blank, and the question's draft becomes that answer |
| ReplyParsing.DigitRun | frontend/src/pages/InterviewPage/index.tsx:55 | the maximal run of leading ASCII digits |
| ReplyParsing.StripOrdinal | frontend/src/pages/InterviewPage/index.tsx:55 | `^\d+\.\s*` removal yields a suffix of the line, and leaves unchanged a line not starting with a digit or whose digits are not followed by `.` |
| ReplyParsing.StripQuotes | frontend/src/pages/InterviewPage/index.tsx:55 | a line quoted at both ends loses both quotes, one quoted at one end loses that quote, a lone quote is removed, and an unquoted line is unchanged |
| ReplyParsing.CleanLine | frontend/src/pages/InterviewPage/index.tsx:55 | a cleaned line is empty or begins and ends with non-whitespace |
| ReplyParsing.NonBlank | frontend/src/pages/InterviewPage/index.tsx:54 | a line is kept exactly when it is in the input and not blank, and the list never gets longer |
| ReplyParsing.LineQuestions | frontend/src/pages/InterviewPage/index.tsx:54-55 | the line form has at most one question per reply line, and every question is trimmed |
| ReplyParsing.MapLines | frontend/src/pages/InterviewPage/index.tsx:55 | `map` keeps the length and applies the function pointwise |
| ReplyParsing.ParseQuestionList | frontend/src/pages/InterviewPage/index.tsx:48-56 | a JSON array is taken as is, a non-array value throws, and a JSON syntax error falls back to the line form |
| ReplyParsing.JsonInput | frontend/src/pages/InterviewPage/index.tsx:51 | `JSON.parse` always gets a non-empty text: the reply itself, or `[]` for a missing or empty reply |
| ReplyParsing.DefaultQuestions | frontend/src/pages/InterviewPage/index.tsx:72-78 | the fallback is five questions numbered 1..5 |
| ReplyParsing.StartQuestions | frontend/src/pages/InterviewPage/index.tsx:44-84 | a started session always has at least one question and its ids are 1..n |
| ReplyParsing.DefaultQuestionsMentionPosition | frontend/src/pages/InterviewPage/index.tsx:72-78 | the fallback has five questions with ids 1..5, and questions 1, 2, 3 and 5 contain the position |
| ReplyParsing.FirstSeparator | frontend/src/pages/InterviewPage/index.tsx:54 | in `a + "\n" + b` with a newline-free `a`, the first newline is at the position equal to the length of `a` |
| ReplyParsing.SplitOnCons | frontend/src/pages/InterviewPage/index.tsx:54 | splitting `a + "\n" + b` with a newline-free `a` gives `a` followed by the pieces of `b` |
| ReplyParsing.SeparatorFreeAppend | frontend/src/pages/InterviewPage/index.tsx:54 | two lists of newline-free pieces concatenate to a list of newline-free pieces |
| ReplyParsing.SplitOnUnique | frontend/src/pages/InterviewPage/index.tsx:54 | splitting a join of newline-free pieces gives back the pieces |
| ReplyParsing.SplitOnAppend | frontend/src/pages/InterviewPage/index.tsx:54 | splitting at a newline splits the line list there |
| ReplyParsing.LineQuestionsAppend | frontend/src/pages/InterviewPage/index.tsx:54-55 | the line-form questions of two newline-joined blocks are those of the first block followed by those of the second |
| ReplyParsing.LineQuestionsOneLine | frontend/src/pages/InterviewPage/index.tsx:54-55 | a blank line gives no question and a non-blank line exactly its cleaned text; with the previous row, one question per non-blank line, in order |
| ReplyParsing.StripOrdinalOfNumbered | frontend/src/pages/InterviewPage/index.tsx:55 | `12.` and the whitespace after it are removed entirely |
| ReplyParsing.StripQuotesOfQuoted | frontend/src/pages/InterviewPage/index.tsx:55 | a double-quoted text loses exactly its two quotes |
| ReplyParsing.CleanNumberedQuotedLine | frontend/src/pages/InterviewPage/index.tsx:55 | `N. "x"` becomes `x` trimmed |
| ReplyParsing.CleanPlainLine | frontend/src/pages/InterviewPage/index.tsx:55 | a line without an ordinal or enclosing quotes is only trimmed |
| ReplyParsing.OrdinalOnlyLineLeavesEmptyQuestion | frontend/src/pages/InterviewPage/index.tsx:54-55 | the trim comes last, so the line `1. ""` survives the blank filter and yields an empty question |
| ReplyParsing.NumberedLineIsOneLine | frontend/src/pages/InterviewPage/index.tsx:54 | a line that starts with an ordinal is not blank |
| ReplyParsing.JsonArrayReply | frontend/src/pages/InterviewPage/index.tsx:51-69 | a non-empty JSON array reply becomes the numbered questions |
| ReplyParsing.EmptyReplyFallsBack | frontend/src/pages/InterviewPage/index.tsx:51-81 | a missing or empty reply is parsed as `[]` and the five templated questions are used |
| ReplyParsing.LineReplyQuestions | frontend/src/pages/InterviewPage/index.tsx:52-81 | a non-JSON reply gives the numbered line-form questions, or the fallback when no line survives |
| Feedback.WordCountTextsDiffer | frontend/src/pages/InterviewPage/index.tsx:121-125 | the three fallback feedback texts are different from each other |
| Feedback.WordCountFeedback | for_front/hire-mind-frontend/src/pages/InterviewPage/index.tsx:79-88 | `generateFeedback`, the same rule as the evaluator fallback: always one of the three fixed texts |
| Feedback.WordCountFeedbackBands | frontend/src/pages/InterviewPage/index.tsx:118-126 | for a non-blank answer: "more detail" iff fewer than 10 words, "concise" iff more than 100, "great answer" iff 10..100 |
| Feedback.WordCountFeedbackIgnoresSpacing | frontend/src/pages/InterviewPage/index.tsx:118 | answers with the same number of words get the same fallback, however they are spaced |
| Feedback.EvaluationFeedback | frontend/src/pages/InterviewPage/index.tsx:112-127 | a non-empty evaluator text is shown as is, an empty one gives the default praise, and a failed call gives the word-count rule; the text is never empty |
| Feedback.FindClose | frontend/src/pages/InterviewPage/index.tsx:93 | the lazy `(.*?)` stops at the first `**` that has no line terminator before it, and fails only if every later `**` is behind a line terminator |
| Feedback.FormatFeedbackPlainPrefix | frontend/src/pages/InterviewPage/index.tsx:91-94 | text in which `*` does not occur is copied unchanged, and the rest is rewritten on its own |
| Feedback.FormatFeedback | frontend/src/pages/InterviewPage/index.tsx:91-94 | the rewrite is empty exactly when its input is; the lemmas below say what it does to pairs and to unmatched stars |
| Feedback.FormatFeedbackNoMatch | frontend/src/pages/InterviewPage/index.tsx:91-94 | text in which no `**` is closed by a later `**` on the same line is unchanged: text without pairs, a lone `**`, or a pair split by a line break |
| Feedback.FindCloseShift | frontend/src/pages/InterviewPage/index.tsx:93 | dropping the first character moves where the lazy match closes by one position, and keeps whether it closes |
| Feedback.FormatFeedbackBold | frontend/src/pages/InterviewPage/index.tsx:91-94 | `**x**` followed by any text becomes `<strong>x</strong>` followed by the rewrite of that text, so every pair is replaced (`g` flag) |
| Feedback.BoldCloses | frontend/src/pages/InterviewPage/index.tsx:93 | in `**x**` followed by any text, the closing match is the `**` right after `x` |
| Feedback.FindCloseSkips | frontend/src/pages/InterviewPage/index.tsx:93 | the scan passes over star-free, terminator-free text to the next `**` |
| InterviewSession.FallbackQuestions | frontend/src/pages/InterviewPage/index.tsx:64-81 | an empty parse result starts the session with the five templated questions |
| InterviewSession.Session.constructor | frontend/src/pages/InterviewPage/index.tsx:15-26 | the page starts on the position form with empty position, questions and answers |
| InterviewSession.Session.IsLastQuestion | frontend/src/pages/InterviewPage/index.tsx:29 | once started, the current question is the last exactly when its id is the number of questions |
| InterviewSession.Session.IsAnswered | frontend/src/pages/InterviewPage/index.tsx:345-348 | the button of a non-current question is shown green (answered) exactly when its id is in the answer log; the current question's button is highlighted instead |
| InterviewSession.Session.EditPosition | frontend/src/pages/InterviewPage/index.tsx:220 | typing sets the position and nothing else |
| InterviewSession.Session.EditAnswer | frontend/src/pages/InterviewPage/index.tsx:270 | typing sets the draft and nothing else |
| InterviewSession.Session.StartInterview | frontend/src/pages/InterviewPage/index.tsx:36-88 | a position that is blank after trimming is rejected with no state change; a failed call changes nothing; otherwise the parsed or fallback questions are shown; a parsed list resets index, draft and log, while the fallback keeps them |
| InterviewSession.Session.CheckAnswer | frontend/src/pages/InterviewPage/index.tsx:96-132 | a blank draft is rejected with nothing changed; otherwise the draft is logged under the current question's id, whatever the evaluator does, and the evaluator or fallback feedback is shown |
| InterviewSession.Session.NextQuestion | frontend/src/pages/InterviewPage/index.tsx:134-144 | on the last question the practice is completed; otherwise the index moves on by one, the draft is restored from the log and the feedback is cleared |
| InterviewSession.Session.PreviousQuestion | frontend/src/pages/InterviewPage/index.tsx:146-153 | nothing changes at index 0; otherwise the index moves back by one, the draft is restored and the feedback is cleared |
| InterviewSession.Session.JumpTo | frontend/src/pages/InterviewPage/index.tsx:338-343 | any listed question becomes current with its restored draft and cleared feedback |
| SampleInterview.SampleQuestions | for_front/hire-mind-frontend/src/pages/InterviewPage/index.tsx:10-43 | eight questions with ids 1..8 in order |
| SampleInterview.SampleSession.CurrentQuestion | for_front/hire-mind-frontend/src/pages/InterviewPage/index.tsx:54 | the current question's id is its index plus one |
| SampleInterview.SampleSession.IsLastQuestion | for_front/hire-mind-frontend/src/pages/InterviewPage/index.tsx:55 | the current question is the last exactly when its id is the number of questions |
| SampleInterview.SampleSession.IsAnswered | for_front/hire-mind-frontend/src/pages/InterviewPage/index.tsx:241-244 | the button of a non-current question is shown green (answered) exactly when its id is in the answer log; the current question's button is highlighted instead |
| SampleInterview.SampleSession.constructor | for_front/hire-mind-frontend/src/pages/InterviewPage/index.tsx:47-52 | the practice starts on question 1 of the eight `SAMPLE_QUESTIONS` with an empty draft, an empty log and no feedback |
| SampleInterview.SampleSession.EditAnswer | for_front/hire-mind-frontend/src/pages/InterviewPage/index.tsx:169 | typing sets the draft and nothing else |
| SampleInterview.SampleSession.CheckAnswer | for_front/hire-mind-frontend/src/pages/InterviewPage/index.tsx:62-99 | a blank draft is rejected with nothing changed; otherwise it overwrites the current question's entry, other entries are kept, and the word-count feedback is shown |
| SampleInterview.SampleSession.NextQuestion | for_front/hire-mind-frontend/src/pages/InterviewPage/index.tsx:101-111 | completes exactly on index 7; otherwise increments the index and restores the draft |
| SampleInterview.SampleSession.PreviousQuestion | for_front/hire-mind-frontend/src/pages/InterviewPage/index.tsx:114-121 | nothing changes on index 0; otherwise decrements and restores the draft |
| SampleInterview.SampleSession.JumpTo | for_front/hire-mind-frontend/src/pages/InterviewPage/index.tsx:234-239 | sets the index, restores the draft and clears the feedback |
| CvBuilder.InitialCv | for_front/hire-mind-frontend/src/pages/CVBuilderPage/index.tsx:48-54 | the builder starts with both texts empty and all three lists empty |
| CvBuilder.UpdateById | for_front/hire-mind-frontend/src/pages/CVBuilderPage/index.tsx:81-83 | length and order are kept; entries with the id are changed and all others are kept |
| CvBuilder.RemoveById | for_front/hire-mind-frontend/src/pages/CVBuilderPage/index.tsx:90 | exactly the entries with another id are kept |
| CvBuilder.RemoveMissingId | for_front/hire-mind-frontend/src/pages/CVBuilderPage/index.tsx:87-92 | removing an id no entry has is a no-op |
| CvBuilder.RemoveByIdAppend | for_front/hire-mind-frontend/src/pages/CVBuilderPage/index.tsx:87-92 | filtering distributes over concatenation, so kept entries keep their relative order |
| CvBuilder.RemoveAppended | for_front/hire-mind-frontend/src/pages/CVBuilderPage/index.tsx:65-92 | removing the id of a just-appended entry with a fresh id gives back the old list |
| CvBuilder.UpdateMissingId | for_front/hire-mind-frontend/src/pages/CVBuilderPage/index.tsx:78-85 | updating an id no entry has is a no-op |
| CvBuilder.WithEducationText | for_front/hire-mind-frontend/src/pages/CVBuilderPage/index.tsx:82 | the named field reads back the value; the id and the other fields are kept |
| CvBuilder.WithExperienceEdit | for_front/hire-mind-frontend/src/pages/CVBuilderPage/index.tsx:111 | a text edit sets one field and a flag edit only `current`; everything else is kept |
| CvBuilder.WithSkillText | for_front/hire-mind-frontend/src/pages/CVBuilderPage/index.tsx:136 | the named field reads back the value, and the other field and the id are kept |
| CvBuilder.AddEducation | for_front/hire-mind-frontend/src/pages/CVBuilderPage/index.tsx:65-76 | exactly one blank entry with the given id is appended; the rest of the CV is unchanged |
| CvBuilder.UpdateEducation | for_front/hire-mind-frontend/src/pages/CVBuilderPage/index.tsx:78-85 | only the named field of entries with that id changes |
| CvBuilder.RemoveEducation | for_front/hire-mind-frontend/src/pages/CVBuilderPage/index.tsx:87-92 | the list is filtered by id and the rest of the CV is unchanged |
| CvBuilder.AddExperience | for_front/hire-mind-frontend/src/pages/CVBuilderPage/index.tsx:94-105 | exactly one blank, not-current entry is appended |
| CvBuilder.UpdateExperience | for_front/hire-mind-frontend/src/pages/CVBuilderPage/index.tsx:107-114 | the edit is applied only to entries with that id |
| CvBuilder.RemoveExperience | for_front/hire-mind-frontend/src/pages/CVBuilderPage/index.tsx:116-121 | the list is filtered by id |
| CvBuilder.ToggleCurrent | for_front/hire-mind-frontend/src/pages/CVBuilderPage/index.tsx:343-348 | ticking sets `current` and clears `endDate`; unticking only clears `current`; other entries and fields are unchanged |
| CvBuilder.AddSkill | for_front/hire-mind-frontend/src/pages/CVBuilderPage/index.tsx:123-130 | exactly one unnamed skill at the lowest level, `Beginner`, is appended |
| CvBuilder.UpdateSkill | for_front/hire-mind-frontend/src/pages/CVBuilderPage/index.tsx:132-139 | only the named field of skills with that id changes |
| CvBuilder.RemoveSkill | for_front/hire-mind-frontend/src/pages/CVBuilderPage/index.tsx:141-146 | the list is filtered by id |
| CvBuilder.SetAboutMe | for_front/hire-mind-frontend/src/pages/CVBuilderPage/index.tsx:198 | only `aboutMe` changes |
| CvBuilder.SetProfessionalTitle | for_front/hire-mind-frontend/src/pages/CVBuilderPage/index.tsx:187 | only the title changes |
| CvBuilder.AddThenRemoveEducation | for_front/hire-mind-frontend/src/pages/CVBuilderPage/index.tsx:65-92 | add followed by remove under a fresh id restores the CV |
| CvBuilder.AddThenRemoveExperience | for_front/hire-mind-frontend/src/pages/CVBuilderPage/index.tsx:94-121 | add followed by remove under a fresh id restores the CV |
| CvBuilder.AddThenRemoveSkill | for_front/hire-mind-frontend/src/pages/CVBuilderPage/index.tsx:123-146 | add followed by remove under a fresh id restores the CV |
| CvBuilder.RemoveEducationIdempotent | for_front/hire-mind-frontend/src/pages/CVBuilderPage/index.tsx:87-92 | removing twice equals removing once, and removing a missing id changes nothing |
| CvBuilder.UpdateEducationMissingId | for_front/hire-mind-frontend/src/pages/CVBuilderPage/index.tsx:78-85 | an update naming no entry leaves the CV unchanged |
| CvBuilder.UpdateEducationCommutes | for_front/hire-mind-frontend/src/pages/CVBuilderPage/index.tsx:78-85 | edits of two different fields commute |
| CvBuilder.TickThenUntick | for_front/hire-mind-frontend/src/pages/CVBuilderPage/index.tsx:343-348 | after ticking and then unticking, the entry is not current and its end date stays cleared |
| CvPreview.HasAnyData | frontend/src/components/CVPreview/index.tsx:18-24 | there is data exactly when the CV differs from the initial empty CV |
| CvPreview.OrPlaceholder | frontend/src/components/CVPreview/index.tsx:32 | a non-empty field is shown verbatim and an empty one as its placeholder |
| CvPreview.Optional | frontend/src/components/CVPreview/index.tsx:66 | a description paragraph is present exactly when its text is non-empty |
| CvPreview.EducationRange | frontend/src/components/CVPreview/index.tsx:61-62 | "s - e" with both years, "s - Present" with only a start, and empty exactly without a start |
| CvPreview.ExperienceRange | frontend/src/components/CVPreview/index.tsx:87-89 | "s - Present" when current, "s - e" with an end date, the start alone otherwise, and empty exactly without a start |
| CvPreview.RangesBeginWithStart | frontend/src/components/CVPreview/index.tsx:61-89 | both ranges begin with the start, and a current job ignores a stale end date |
| CvPreview.OpenEndedRanges | frontend/src/components/CVPreview/index.tsx:61-89 | an open-ended education entry reads "s - Present" like a current job, and an open-ended, not-current job shows only its start |
| CvPreview.IndexOf | frontend/src/components/CVPreview/index.tsx:115 | `indexOf` is the first position of the value, and -1 exactly when the value is absent |
| CvPreview.FilledDots | frontend/src/components/CVPreview/index.tsx:115 | `indexOf(level) + 1` is at most 4, 0 exactly for an unknown level, and otherwise one more than the index of level in the list |
| CvPreview.Dots | frontend/src/components/CVPreview/index.tsx:111-119 | four dots, dot `i` filled exactly when `i < indexOf(level) + 1` |
| CvPreview.BarWidth | frontend/src/components/CVPreview/index.tsx:221 | the bar width is 25 times the filled-dot count, in {0, 25, 50, 75, 100} |
| CvPreview.LevelsFillDots | frontend/src/components/CVPreview/index.tsx:115 | the k-th offered level fills k + 1 dots |
| CvPreview.CountFilledPrefix | frontend/src/components/CVPreview/index.tsx:111-119 | a row whose first n dots are the filled ones has n filled dots |
| CvPreview.DotsAreAPrefix | frontend/src/components/CVPreview/index.tsx:111-119 | filled dots come first, and the bar is as full as the dots |
| CvPreview.DegreeHeading | frontend/src/components/CVPreview/index.tsx:58 | the heading starts with the degree or "Degree" and a space, followed by "in field" only when the field is set |
| CvPreview.EducationViewOf | frontend/src/components/CVPreview/index.tsx:55-68 | the heading starts with the degree or "Degree", the institution or "Institution" is shown, the years appear exactly with a start year, and the description only when given |
| CvPreview.ExperienceViewOf | frontend/src/components/CVPreview/index.tsx:81-96 | position and company are shown or their placeholders, the dates appear exactly with a start date, and the description only when given |
| CvPreview.SkillViewOf | frontend/src/components/CVPreview/index.tsx:106-225 | the name or "Skill"; four dots in the modern layout, level text and a bar 25 times as wide as the filled-dot count in the classic one |
| CvPreview.BlankEntriesShowPlaceholders | frontend/src/components/CVPreview/index.tsx:58-115 | freshly added entries are shown entirely with placeholders, and a new skill shows one dot (or a 25% bar) |
| CvPreview.LayoutOrder | frontend/src/components/CVPreview/index.tsx:26-233 | each template writes its sections in its own strictly increasing order |
| CvPreview.SectionsIn | frontend/src/components/CVPreview/index.tsx:26-129 | every written section is the rendering of its kind for this CV |
| CvPreview.Sections | frontend/src/components/CVPreview/index.tsx:26-233 | a template's body has a section of a kind exactly when that kind's data is present |
| CvPreview.EveryKindInOrder | frontend/src/components/CVPreview/index.tsx:26-233 | each template has a place for all four sections |
| CvPreview.PresentKinds | frontend/src/components/CVPreview/index.tsx:42-103 | exactly the kinds whose data is present are listed |
| CvPreview.KindsOfSectionsIn | frontend/src/components/CVPreview/index.tsx:26-129 | the written sections are, in order, those whose data is present |
| CvPreview.PresentKindsOrdered | frontend/src/components/CVPreview/index.tsx:26-233 | skipping absent sections keeps the template order |
| CvPreview.SectionsShownInOrder | frontend/src/components/CVPreview/index.tsx:26-233 | a section appears exactly when its field or list is non-empty, in the template's order |
| CvPreview.EducationAndExperienceOrder | frontend/src/components/CVPreview/index.tsx:50-183 | modern lists education before experience, classic experience before education |
| CvPreview.ChooseLayout | frontend/src/components/CVPreview/index.tsx:264 | no template means modern, and a given template is modern exactly when it is `'modern'` |
| CvPreview.Render | frontend/src/components/CVPreview/index.tsx:253-265 | the placeholder appears exactly for the initial CV; otherwise the chosen layout with the title or its placeholder and the layout's body |
| CvPreview.TitleOnlyHasEmptyBody | frontend/src/components/CVPreview/index.tsx:253-265 | a CV with only a title renders a document with an empty body |
| CvPreview.NothingPresentNoSections | frontend/src/components/CVPreview/index.tsx:26-233 | no data present means no sections |
| CvPreview.AddedEducationIsShown | frontend/src/components/CVPreview/index.tsx:50 | after adding an education entry the preview is a document with an education section |
| SimpleCvPreview.Render | for_front/hire-mind-frontend/src/components/CVPreview/index.tsx:30-51 | the placeholder appears exactly for the initial CV; otherwise the title or "Professional Title" is shown |
| SimpleCvPreview.Body | for_front/hire-mind-frontend/src/components/CVPreview/index.tsx:54-140 | at most four blocks, each a section whose data is present, rendered as in the modern template |
| SimpleCvPreview.BodyIsModernSections | for_front/hire-mind-frontend/src/components/CVPreview/index.tsx:54-140 | its body is the modern template's body |
| SimpleCvPreview.RenderIsDefaultTemplate | for_front/hire-mind-frontend/src/components/CVPreview/index.tsx:30-140 | this preview is the templated preview with the default (modern) template |
| SimpleCvPreview.SectionVisibility | for_front/hire-mind-frontend/src/components/CVPreview/index.tsx:56-117 | each section is shown exactly when its field or list is non-empty, in the order About, Education, Experience, Skills |
| SimpleCvPreview.EntryRules | for_front/hire-mind-frontend/src/components/CVPreview/index.tsx:72-133 | the three-way education range, the experience range, four dots with `indexOf(level) + 1` filled, and the Degree, Institution, Position, Company and Skill placeholders |

## Left out

- The HTTP clients behind the question source and the answer evaluator are not modelled. Their outcomes are inputs. The client swallowing an error and returning `undefined` is `Replied(None)`.
- `JSON.parse` is abstract (a function parameter), and no JSON grammar is modelled. `OtherValue` stands for a non-array value, where `.map` throws. An array holding values other than strings is outside the model: the page would number those values as question texts.
- The loading flags `isGeneratingQuestions` and `isChecking` are not modelled, nor the button disabling they drive, nor the async interleaving of handlers.
- The progress percentage is not modelled: it is floating-point display only.
- `alert`, `navigate` and the back-to-dashboard button are not modelled. An alert is an outcome value (`PositionMissing`, `AnswerMissing`, `GenerationFailed`). Completion sets the `finished` flag.
- The 1.5-second `setTimeout` on the fixed-question page is not modelled. Its `catch` branch ("Unable to check answer …") is left out: nothing in the `try` can throw.
- `Date.now()` is not modelled. Ids are inputs, and they may collide; the add-then-remove lemmas assume a fresh id.
- `updateEducation` and friends can be given the `id` key itself. The form never does this, so an update of the id field is not modelled.
- The i18n `t()` translations, the translated headings and labels, the PDF export, the user name and e-mail header and its `toUpperCase` are left out: markup only.
- The UI shows "Next" only after feedback. The handler itself does not check this, so the methods do not require it.
- The template select state and `handleSave` (a console log and an alert) of the builder page are left out.
- `frontend/src/pages/CVBuilderPage/index.tsx` is not part of this model. The preview's `CVData` type is the one of the builder page modelled here.
- SampleInterview.SampleQuestions: its contract gives the count and the ids. The eight texts are fixed by its definition (`SampleText`) rather than restated in an `ensures`.
