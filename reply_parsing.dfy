/**
 * How the interview page turns the question source's raw reply into a list of
 * question texts: a JSON array if the reply parses as one, otherwise one
 * question per non-blank line with a leading `N.` ordinal and enclosing quotes
 * stripped; an empty result falls back to five templated questions.
 */
module ReplyParsing {
  import opened Wrappers
  import opened JsStrings
  import opened Questions

  /** What `JSON.parse` makes of a string, as far as the page cares: a syntax error,
      an array (of strings), or any other JSON value. */
  datatype JsonValue = Invalid | StringArray(items: seq<string>) | OtherValue

  /** Result of the parsing step: the question texts, or an exception escaping it
      (a non-array JSON value has no `.map`). */
  datatype ParseResult = Parsed(texts: seq<string>) | ParseThrew

  /** `generatedQuestions || '[]'`: a missing or empty reply is parsed as an empty array. */
  function JsonInput(reply: Option<string>): (r: string)
    ensures r != ""
    ensures reply.Some? && reply.value != "" ==> r == reply.value
    ensures reply.None? || reply.value == "" ==> r == "[]"
  {
    if reply.None? || reply.value == "" then "[]" else reply.value
  }

  /** The number of leading ASCII digits of `s`. */
  function DigitRun(s: string): (k: nat)
    ensures k <= |s|
    ensures forall j :: 0 <= j < k ==> IsDigit(s[j])
    ensures k < |s| ==> !IsDigit(s[k])
  {
    if s != [] && IsDigit(s[0]) then 1 + DigitRun(s[1..]) else 0
  }

  /** `line.replace(/^\d+\.\s*\/, '')`: removes a leading run of digits followed by a dot
      and the whitespace after it; a line not of that shape is returned unchanged. */
  function StripOrdinal(line: string): (r: string)
    ensures |r| <= |line| && r == line[|line| - |r|..]
    ensures (line == [] || !IsDigit(line[0])) ==> r == line
    ensures (DigitRun(line) == |line| || line[DigitRun(line)] != '.') ==> r == line
  {
    var k := DigitRun(line);
    if 0 < k < |line| && line[k] == '.' then TrimStart(line[k + 1..]) else line
  }

  predicate IsQuote(c: char) {
    c == '"' || c == '\''
  }

  /** `line.replace(/^["']|["']$/g, '')`: drops one leading quote and then one trailing
      quote of what remains (a lone quote character is removed once). */
  function StripQuotes(line: string): (r: string)
    ensures |line| - 2 <= |r| <= |line|
    ensures (line == [] || (!IsQuote(line[0]) && !IsQuote(line[|line| - 1]))) ==> r == line
    ensures |line| >= 2 && IsQuote(line[0]) && IsQuote(line[|line| - 1]) ==> r == line[1..|line| - 1]
    ensures line != [] && IsQuote(line[0]) && !IsQuote(line[|line| - 1]) ==> r == line[1..]
    ensures line != [] && !IsQuote(line[0]) && IsQuote(line[|line| - 1]) ==> r == line[..|line| - 1]
    ensures |line| == 1 && IsQuote(line[0]) ==> r == []
  {
    var a := if line != [] && IsQuote(line[0]) then line[1..] else line;
    if a != [] && IsQuote(a[|a| - 1]) then a[..|a| - 1] else a
  }

  /** Empty, or starting and ending with a non-whitespace character. */
  predicate Trimmed(x: string) {
    x == [] || (!IsSpace(x[0]) && !IsSpace(x[|x| - 1]))
  }

  /** One reply line turned into a question text; the final `trim` may leave `""`. */
  function CleanLine(line: string): (r: string)
    ensures r == [] || (!IsSpace(r[0]) && !IsSpace(r[|r| - 1]))
  {
    Trim(StripQuotes(StripOrdinal(line)))
  }

  /** `lines.filter(line => line.trim())`. */
  function NonBlank(lines: seq<string>): (r: seq<string>)
    ensures |r| <= |lines|
    ensures forall k :: 0 <= k < |r| ==> !IsBlank(r[k])
    ensures forall x :: x in r <==> x in lines && !IsBlank(x)
  {
    if lines == [] then []
    else (if IsBlank(lines[0]) then [] else [lines[0]]) + NonBlank(lines[1..])
  }

  lemma {:induction false} NonBlankAppend(a: seq<string>, b: seq<string>)
    ensures NonBlank(a + b) == NonBlank(a) + NonBlank(b)
  {
    if a != [] {
      assert (a + b)[1..] == a[1..] + b;
      NonBlankAppend(a[1..], b);
    } else {
      assert a + b == b;
    }
  }

  /** `xs.map(f)`. */
  function MapLines(f: string -> string, xs: seq<string>): (r: seq<string>)
    ensures |r| == |xs|
    ensures forall k :: 0 <= k < |r| ==> r[k] == f(xs[k])
  {
    if xs == [] then [] else [f(xs[0])] + MapLines(f, xs[1..])
  }

  lemma {:induction false} MapLinesAppend(f: string -> string, a: seq<string>, b: seq<string>)
    ensures MapLines(f, a + b) == MapLines(f, a) + MapLines(f, b)
  {
    if a != [] {
      assert (a + b)[1..] == a[1..] + b;
      MapLinesAppend(f, a[1..], b);
    } else {
      assert a + b == b;
    }
  }

  /** The line form of the reply: every non-blank line, cleaned, in order. */
  function LineQuestions(text: string): (qs: seq<string>)
    ensures |qs| <= |SplitOn(text, '\n')|
    ensures forall k :: 0 <= k < |qs| ==> Trimmed(qs[k])
  {
    var lines := SplitOn(text, '\n');
    var kept := NonBlank(lines);
    var qs := MapLines(CleanLine, kept);
    qs
  }

  /** The JSON attempt, then the line form when `JSON.parse` throws. A non-array value
      reaches `.map` and throws out of the whole handler. */
  function ParseQuestionList(reply: Option<string>, json: string -> JsonValue): (r: ParseResult)
    ensures json(JsonInput(reply)).StringArray? ==> r == Parsed(json(JsonInput(reply)).items)
    ensures json(JsonInput(reply)).OtherValue? <==> r == ParseThrew
    ensures json(JsonInput(reply)).Invalid? ==> r == Parsed(LineQuestions(reply.GetOr("")))
  {
    match json(JsonInput(reply))
    case StringArray(items) => Parsed(items)
    case OtherValue => ParseThrew
    case Invalid => Parsed(LineQuestions(reply.GetOr("")))
  }

  /** The text of the templated question at position `k` (0-based); all but the fourth
      name the position. */
  function DefaultText(position: string, k: nat): string
    requires k < 5
  {
    match k
    case 0 => "Tell me about yourself and your background relevant to the " + position + " role."
    case 1 => "What interests you most about this " + position + " position?"
    case 2 => "What skills do you bring to this " + position + " role?"
    case 3 => "Describe a challenging situation you've faced and how you handled it."
    case 4 => "Where do you see yourself in 5 years in your " + position + " career?"
  }

  /** The five templated questions used when nothing could be parsed. */
  function DefaultQuestions(position: string): (qs: seq<Question>)
    ensures |qs| == 5 && IdsArePositions(qs)
  {
    seq(5, k requires 0 <= k < 5 => Question(k + 1, DefaultText(position, k)))
  }

  /** The question list a start request ends with: `None` when an exception escapes
      (the page alerts and stays on the position form), the numbered parse result
      when it is non-empty, otherwise the templated fallback. */
  function StartQuestions(position: string, reply: SourceReply, json: string -> JsonValue): (r: Option<seq<Question>>)
    ensures r.Some? ==> |r.value| > 0 && IdsArePositions(r.value)
  {
    match reply
    case SourceThrew => None
    case Replied(text) =>
      match ParseQuestionList(text, json)
      case ParseThrew => None
      case Parsed(texts) =>
        NumberedIds(texts);
        if |texts| > 0 then Some(Numbered(texts)) else Some(DefaultQuestions(position))
  }

  /** The outcome of asking the question source, whose error handling is not part of
      this model: a reply (`None` when the client swallowed an error and returned
      `undefined`) or an exception. */
  datatype SourceReply = Replied(text: Option<string>) | SourceThrew

  // ---------------------------------------------------------------------------
  // Properties
  // ---------------------------------------------------------------------------

  /** The fallback always has five questions numbered 1..5, and all but the fourth
      mention the position. */
  lemma {:induction false} DefaultQuestionsMentionPosition(position: string)
    ensures |DefaultQuestions(position)| == 5
    ensures IdsArePositions(DefaultQuestions(position))
    ensures forall k :: 0 <= k < 5 && k != 3 ==> Contains(DefaultQuestions(position)[k].text, position)
  {
    var qs := DefaultQuestions(position);
    forall k | 0 <= k < 5 && k != 3 ensures Contains(qs[k].text, position) {
      match k
      case 0 => ContainsInfix("Tell me about yourself and your background relevant to the ", position, " role.");
      case 1 => ContainsInfix("What interests you most about this ", position, " position?");
      case 2 => ContainsInfix("What skills do you bring to this ", position, " role?");
      case 4 => ContainsInfix("Where do you see yourself in 5 years in your ", position, " career?");
    }
  }

  lemma {:induction false} JoinAppend(a: seq<string>, b: seq<string>, sep: char)
    requires |a| >= 1 && |b| >= 1
    ensures JoinWith(a + b, sep) == JoinWith(a, sep) + [sep] + JoinWith(b, sep)
    decreases |a|
  {
    if |a| > 1 {
      assert (a + b)[1..] == a[1..] + b;
      JoinAppend(a[1..], b, sep);
    } else {
      assert (a + b)[1..] == b;
    }
  }

  /** The first separator of `a + [sep] + b` is the one after `a` when `a` has none. */
  lemma {:induction false} FirstSeparator(a: string, b: string, sep: char)
    requires sep !in a
    ensures sep in a + [sep] + b && IndexOfChar(a + [sep] + b, sep) == |a|
    decreases |a|
  {
    var s := a + [sep] + b;
    assert s[|a|] == sep;
    if a != [] {
      assert s[0] == a[0] && s[1..] == a[1..] + [sep] + b;
      FirstSeparator(a[1..], b, sep);
    }
  }

  /** `split` is the only way to cut a string into separator-free pieces that join back to it. */
  lemma {:induction false} SplitOnUnique(parts: seq<string>, sep: char)
    requires |parts| >= 1
    requires forall k :: 0 <= k < |parts| ==> sep !in parts[k]
    ensures SplitOn(JoinWith(parts, sep), sep) == parts
    decreases |parts|
  {
    if |parts| > 1 {
      var rest := JoinWith(parts[1..], sep);
      assert JoinWith(parts, sep) == parts[0] + [sep] + rest;
      SplitOnCons(parts[0], rest, sep);
      SplitOnUnique(parts[1..], sep);
      assert parts == [parts[0]] + parts[1..];
    }
  }

  /** Splitting `a + [sep] + b` for a separator-free `a` gives `a`, then the pieces of `b`. */
  lemma SplitOnCons(a: string, b: string, sep: char)
    requires sep !in a
    ensures SplitOn(a + [sep] + b, sep) == [a] + SplitOn(b, sep)
  {
    var s := a + [sep] + b;
    FirstSeparator(a, b, sep);
    var i := IndexOfChar(s, sep);
    assert s[..i] == a;
    assert s[i + 1..] == b;
  }

  lemma SeparatorFreeAppend(xs: seq<string>, ys: seq<string>, sep: char)
    requires forall k :: 0 <= k < |xs| ==> sep !in xs[k]
    requires forall k :: 0 <= k < |ys| ==> sep !in ys[k]
    ensures forall k :: 0 <= k < |xs + ys| ==> sep !in (xs + ys)[k]
  {
    forall k | 0 <= k < |xs + ys| ensures sep !in (xs + ys)[k] {
      if k < |xs| { assert (xs + ys)[k] == xs[k]; } else { assert (xs + ys)[k] == ys[k - |xs|]; }
    }
  }

  /** Splitting at a newline splits the line list there too. */
  lemma SplitOnAppend(a: string, b: string, sep: char)
    ensures SplitOn(a + [sep] + b, sep) == SplitOn(a, sep) + SplitOn(b, sep)
  {
    var pa, pb := SplitOn(a, sep), SplitOn(b, sep);
    var parts := pa + pb;
    JoinAppend(pa, pb, sep);
    assert JoinWith(parts, sep) == a + [sep] + b;
    SeparatorFreeAppend(pa, pb, sep);
    SplitOnUnique(parts, sep);
  }

  /** Line form: the questions of two newline-separated blocks are those of the first
      block followed by those of the second. */
  lemma LineQuestionsAppend(a: string, b: string)
    ensures LineQuestions(a + "\n" + b) == LineQuestions(a) + LineQuestions(b)
  {
    SplitOnAppend(a, b, '\n');
    NonBlankAppend(SplitOn(a, '\n'), SplitOn(b, '\n'));
    MapLinesAppend(CleanLine, NonBlank(SplitOn(a, '\n')), NonBlank(SplitOn(b, '\n')));
  }

  /** Line form: a single line gives no question when blank and exactly its cleaned
      text otherwise. With LineQuestionsAppend this makes the output one element per
      non-blank input line, in input order. */
  lemma LineQuestionsOneLine(line: string)
    requires '\n' !in line
    ensures LineQuestions(line) == if IsBlank(line) then [] else [CleanLine(line)]
  {
    assert SplitOn(line, '\n') == [line];
    assert NonBlank([line]) == (if IsBlank(line) then [] else [line]) + NonBlank([]);
  }

  lemma {:induction false} TrimStartSpaces(w: string, y: string)
    requires AllSpace(w)
    requires y == [] || !IsSpace(y[0])
    ensures TrimStart(w + y) == y
    decreases |w|
  {
    if w != [] {
      assert (w + y)[1..] == w[1..] + y;
      TrimStartSpaces(w[1..], y);
    } else {
      assert w + y == y;
    }
  }

  lemma DigitRunOfNumbered(digits: string, rest: string)
    requires digits != [] && forall j :: 0 <= j < |digits| ==> IsDigit(digits[j])
    ensures DigitRun(digits + "." + rest) == |digits|
  {
    var line := digits + "." + rest;
    assert forall j :: 0 <= j < |digits| ==> line[j] == digits[j];
    assert line[|digits|] == '.';
  }

  /** `^\d+\.\s*` removes the ordinal and the whitespace after it. */
  lemma StripOrdinalOfNumbered(digits: string, w: string, y: string)
    requires digits != [] && forall j :: 0 <= j < |digits| ==> IsDigit(digits[j])
    requires AllSpace(w)
    requires y == [] || !IsSpace(y[0])
    ensures StripOrdinal(digits + "." + w + y) == y
  {
    var line := digits + "." + w + y;
    assert line == digits + "." + (w + y);
    DigitRunOfNumbered(digits, w + y);
    assert line[|digits| + 1..] == w + y;
    TrimStartSpaces(w, y);
  }

  lemma StripQuotesOfQuoted(x: string)
    ensures StripQuotes("\"" + x + "\"") == x
  {
    var quoted := "\"" + x + "\"";
    assert quoted[1..] == x + "\"";
    assert (x + "\"")[..|x|] == x;
  }

  /** A typical numbered, quoted line `12. "text"` yields the trimmed text. */
  lemma CleanNumberedQuotedLine(digits: string, w: string, x: string)
    requires digits != [] && forall j :: 0 <= j < |digits| ==> IsDigit(digits[j])
    requires AllSpace(w)
    ensures CleanLine(digits + "." + w + "\"" + x + "\"") == Trim(x)
  {
    var quoted := "\"" + x + "\"";
    assert digits + "." + w + "\"" + x + "\"" == digits + "." + w + quoted;
    StripOrdinalOfNumbered(digits, w, quoted);
    StripQuotesOfQuoted(x);
  }

  /** A line that holds no ordinal and no enclosing quote is only trimmed. */
  lemma CleanPlainLine(line: string)
    requires line != [] && !IsDigit(line[0]) && !IsQuote(line[0]) && !IsQuote(line[|line| - 1])
    ensures CleanLine(line) == Trim(line)
  {
  }

  /** The trim comes last, so a line holding only an ordinal and a pair of quotes
      (`1. ""`) survives the blank-line filter and leaves an empty question. */
  lemma OrdinalOnlyLineLeavesEmptyQuestion(digits: string, w: string)
    requires digits != [] && forall j :: 0 <= j < |digits| ==> IsDigit(digits[j])
    requires AllSpace(w) && '\n' !in w
    ensures LineQuestions(digits + "." + w + "\"\"") == [""]
  {
    var line := digits + "." + w + "\"\"";
    NumberedLineIsOneLine(digits, w + "\"\"");
    assert line == digits + "." + (w + "\"\"");
    assert line == digits + "." + w + "\"" + "" + "\"";
    CleanNumberedQuotedLine(digits, w, "");
    LineQuestionsOneLine(line);
  }

  /** A line that starts with an ordinal is not blank, and has no newline if its tail has none. */
  lemma NumberedLineIsOneLine(digits: string, tail: string)
    requires digits != [] && forall j :: 0 <= j < |digits| ==> IsDigit(digits[j])
    requires '\n' !in tail
    ensures '\n' !in digits + "." + tail
    ensures !IsBlank(digits + "." + tail)
  {
    var line := digits + "." + tail;
    assert '\n' !in digits;
    assert line[0] == digits[0];
  }

  /** A JSON array reply is taken as is, e.g. `["Q1","Q2","Q3"]` gives questions 1..3. */
  lemma JsonArrayReply(position: string, raw: string, json: string -> JsonValue, texts: seq<string>)
    requires raw != "" && json(raw) == StringArray(texts) && texts != []
    ensures StartQuestions(position, Replied(Some(raw)), json) == Some(Numbered(texts))
  {
  }

  /** A reply that is not JSON is read line by line; if no line survives, or the source
      gave nothing and `JSON.parse('[]')` is the empty array, the fallback is used. */
  lemma EmptyReplyFallsBack(position: string, reply: Option<string>, json: string -> JsonValue)
    requires reply.None? || reply.value == ""
    requires json("[]") == StringArray([])
    ensures StartQuestions(position, Replied(reply), json) == Some(DefaultQuestions(position))
  {
  }

  /** A reply that is not JSON gives the numbered line-form questions, or the fallback
      when no line survives. */
  lemma LineReplyQuestions(position: string, raw: string, json: string -> JsonValue)
    requires raw != "" && json(raw) == Invalid
    ensures StartQuestions(position, Replied(Some(raw)), json)
         == Some(if LineQuestions(raw) == [] then DefaultQuestions(position) else Numbered(LineQuestions(raw)))
  {
    assert ParseQuestionList(Some(raw), json) == Parsed(LineQuestions(raw));
  }
}
