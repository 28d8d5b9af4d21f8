/**
 * The quiz generator: the prompt it sends, and the line-oriented parser that
 * turns the model's reply (`Qn:` stem, `A)`..`D)` options, `ANSWER: X`) into
 * questions. The parser scans the lines left to right with one accumulator,
 * commits an accumulator only if it has an answer, keeps the committed
 * questions that have exactly four options, and returns at most five.
 */
module QuizParser {
  import opened Common
  import opened Text

  /** One returned question: the dict `{question, options, answer}`. */
  datatype Question = Question(question: string, options: map<char, string>, answer: char)

  /** The `current_question` accumulator; `answer` is absent until a valid ANSWER line. */
  datatype Draft = Draft(question: string, options: map<char, string>, answer: Option<char>)

  /** The scan state: the committed questions and the open accumulator, if any. */
  datatype ScanState = ScanState(questions: seq<Question>, current: Option<Draft>)

  const OptionKeys: set<char> := {'A', 'B', 'C', 'D'}

  const Start := ScanState([], None)

  /** The most questions the parser returns, whatever was asked for. */
  const MaxQuestions := 5

  /** How the parser reads one line; the first matching reading wins. */
  datatype LineKind =
    | Blank
    | QuestionLine(stem: string)
    | OptionLine(key: char, text: string)
    | AnswerLine(letter: Option<char>)   // None: the value is not exactly one of A-D
    | Other

  /** The letter after `ANSWER:`, upper-cased, when it is exactly one of A-D. */
  function AnswerLetter(line: string): (r: Option<char>)
    requires ':' in line
    ensures r.Some? ==> r.value in OptionKeys
  {
    var a := Upper(Strip(AfterFirst(line, ':')));
    if |a| == 1 && a[0] in OptionKeys then Some(a[0]) else None
  }

  lemma UpperColon(line: string)
    requires StartsWith(Upper(line), "ANSWER:")
    ensures ':' in line
  {
    assert Upper(line)[6] == ':';
    assert line[6] == ':';
  }

  /** The reading of an already stripped line. */
  function ReadLine(line: string): (k: LineKind)
    ensures k.OptionLine? ==> k.key in OptionKeys
  {
    if line == [] then Blank
    else if line[0] == 'Q' && ':' in line then QuestionLine(Strip(AfterFirst(line, ':')))
    else if line[0] in OptionKeys && ')' in line then OptionLine(line[0], Strip(AfterFirst(line, ')')))
    else if StartsWith(Upper(line), "ANSWER:") then
      UpperColon(line);
      AnswerLine(AnswerLetter(line))
    else Other
  }

  function Kind(raw: string): LineKind {
    ReadLine(Strip(raw))
  }

  function Kinds(lines: seq<string>): (r: seq<LineKind>)
    ensures |r| == |lines|
  {
    if lines == [] then [] else [Kind(lines[0])] + Kinds(lines[1..])
  }

  lemma {:induction false} KindsAt(lines: seq<string>, i: nat)
    requires i < |lines|
    ensures Kinds(lines)[i] == Kind(lines[i])
  {
    if i > 0 {
      KindsAt(lines[1..], i - 1);
    }
  }

  function Commit(d: Draft): Question
    requires d.answer.Some?
  {
    Question(d.question, d.options, d.answer.value)
  }

  /** The committed questions, plus the open accumulator when it has an answer. */
  function Committed(s: ScanState): seq<Question> {
    if s.current.Some? && s.current.value.answer.Some? then s.questions + [Commit(s.current.value)]
    else s.questions
  }

  /** One iteration of the scan loop. Option and ANSWER lines only act on an open accumulator. */
  function Step(s: ScanState, k: LineKind): ScanState {
    match k
    case QuestionLine(stem) => ScanState(Committed(s), Some(Draft(stem, map[], None)))
    case OptionLine(key, text) =>
      if s.current.None? then s
      else ScanState(s.questions, Some(s.current.value.(options := s.current.value.options[key := text])))
    case AnswerLine(letter) =>
      if s.current.None? || letter.None? then s
      else ScanState(s.questions, Some(s.current.value.(answer := letter)))
    case _ => s
  }

  function Run(s: ScanState, kinds: seq<LineKind>): ScanState
    decreases |kinds|
  {
    if kinds == [] then s else Run(Step(s, kinds[0]), kinds[1..])
  }

  /** The final filter: questions with exactly four options. */
  function KeepFourOptions(qs: seq<Question>): seq<Question>
  {
    if qs == [] then []
    else (if |qs[0].options| == 4 then [qs[0]] else []) + KeepFourOptions(qs[1..])
  }

  /** The result for lines already read: scan, commit the last block, keep
      four-option questions, cut to five. */
  function ParseKinds(kinds: seq<LineKind>): seq<Question> {
    Take(KeepFourOptions(Committed(Run(Start, kinds))), MaxQuestions)
  }

  function ParseLines(lines: seq<string>): seq<Question> {
    ParseKinds(Kinds(lines))
  }

  /** What `_parse_questions` returns for a reply. */
  function Parse(response: string): seq<Question> {
    ParseLines(Split(response, '\n'))
  }

  /** A question that can be shown and scored: its option keys are exactly A-D
      and its answer is one of them. */
  predicate WellFormed(q: Question) {
    q.options.Keys == OptionKeys && q.answer in q.options
  }

  // ------------------------------------------------------------ the method

  /** One pass of the loop of `_parse_questions` over one raw line. */
  method ScanLine(questions: seq<Question>, current: Option<Draft>, raw: string)
    returns (questions': seq<Question>, current': Option<Draft>)
    ensures ScanState(questions', current') == Step(ScanState(questions, current), Kind(raw))
  {
    questions', current' := questions, current;
    var line := Strip(raw);
    if line == [] {
    } else if line[0] == 'Q' && ':' in line {
      if current.Some? && current.value.answer.Some? {
        questions' := questions + [Commit(current.value)];
      }
      current' := Some(Draft(Strip(AfterFirst(line, ':')), map[], None));
    } else if current.Some? && line[0] in OptionKeys && ')' in line {
      var key := line[0];
      var text := Strip(AfterFirst(line, ')'));
      current' := Some(current.value.(options := current.value.options[key := text]));
    } else if current.Some? && StartsWith(Upper(line), "ANSWER:") {
      UpperColon(line);
      var answer := Upper(Strip(AfterFirst(line, ':')));
      if |answer| == 1 && answer[0] in OptionKeys {
        current' := Some(current.value.(answer := Some(answer[0])));
      }
    }
  }

  /** `_parse_questions`, as the loop it is. */
  method ParseQuestions(response: string) returns (valid: seq<Question>)
    ensures valid == Parse(response)
    ensures |valid| <= MaxQuestions
    ensures forall i :: 0 <= i < |valid| ==> WellFormed(valid[i])
  {
    var questions: seq<Question> := [];
    var current: Option<Draft> := None;
    var lines := Split(response, '\n');
    var i := 0;
    while i < |lines|
      invariant 0 <= i <= |lines|
      invariant Run(ScanState(questions, current), Kinds(lines[i..])) == Run(Start, Kinds(lines))
    {
      assert lines[i..] == [lines[i]] + lines[i + 1..];
      questions, current := ScanLine(questions, current, lines[i]);
      i := i + 1;
    }
    if current.Some? && current.value.answer.Some? {
      questions := questions + [Commit(current.value)];
    }
    valid := Take(KeepFourOptions(questions), MaxQuestions);
    ParseWellFormed(response);
  }

  // ------------------------------------------------- validity of the output

  /** Every option key is one of A-D and every answer is one of A-D. */
  predicate DraftKeysOk(d: Draft) {
    d.options.Keys <= OptionKeys && (d.answer.Some? ==> d.answer.value in OptionKeys)
  }

  predicate QuestionKeysOk(q: Question) {
    q.options.Keys <= OptionKeys && q.answer in OptionKeys
  }

  predicate StateKeysOk(s: ScanState) {
    (forall i :: 0 <= i < |s.questions| ==> QuestionKeysOk(s.questions[i]))
    && (s.current.Some? ==> DraftKeysOk(s.current.value))
  }

  /** The kinds a reply can produce: option keys and answer letters among A-D. */
  predicate KindOk(k: LineKind) {
    (k.OptionLine? ==> k.key in OptionKeys) && (k.AnswerLine? && k.letter.Some? ==> k.letter.value in OptionKeys)
  }

  lemma KindIsOk(raw: string)
    ensures KindOk(Kind(raw))
  {
  }

  lemma {:induction false} RunKeysOk(s: ScanState, kinds: seq<LineKind>)
    requires StateKeysOk(s)
    requires forall i :: 0 <= i < |kinds| ==> KindOk(kinds[i])
    ensures StateKeysOk(Run(s, kinds))
    decreases |kinds|
  {
    if kinds != [] {
      assert KindOk(kinds[0]);
      RunKeysOk(Step(s, kinds[0]), kinds[1..]);
    }
  }

  lemma {:induction false} SubsetSize(a: set<char>, b: set<char>)
    requires a <= b
    ensures |a| <= |b|
    ensures a != b ==> |a| < |b|
    decreases |b|
  {
    if b != {} {
      var x :| x in b;
      SubsetSize(a - {x}, b - {x});
      if x in a {
        assert a == (a - {x}) + {x};
      } else {
        assert a == a - {x};
      }
      assert b == (b - {x}) + {x};
      if a != b && a - {x} == b - {x} {
        assert x !in a;
      }
    }
  }

  /** Four keys drawn from A-D are all of A-D. */
  lemma FourKeys(keys: set<char>)
    requires keys <= OptionKeys && |keys| == 4
    ensures keys == OptionKeys
  {
    SubsetSize(keys, OptionKeys);
  }

  lemma {:induction false} KeepFourWellFormed(qs: seq<Question>)
    requires forall i :: 0 <= i < |qs| ==> QuestionKeysOk(qs[i])
    ensures forall i :: 0 <= i < |KeepFourOptions(qs)| ==> WellFormed(KeepFourOptions(qs)[i])
    ensures |KeepFourOptions(qs)| <= |qs|
  {
    if qs != [] {
      KeepFourWellFormed(qs[1..]);
      if |qs[0].options| == 4 {
        FourKeys(qs[0].options.Keys);
      }
    }
  }

  /** Every returned question has exactly the option keys A-D and an answer
      among them, and there are at most five. */
  lemma ParseWellFormed(response: string)
    ensures |Parse(response)| <= MaxQuestions
    ensures forall i :: 0 <= i < |Parse(response)| ==> WellFormed(Parse(response)[i])
  {
    var kinds := Kinds(Split(response, '\n'));
    forall i | 0 <= i < |kinds| ensures KindOk(kinds[i]) {
      KindsAt(Split(response, '\n'), i);
      KindIsOk(Split(response, '\n')[i]);
    }
    RunKeysOk(Start, kinds);
    var c := Committed(Run(Start, kinds));
    assert forall i :: 0 <= i < |c| ==> QuestionKeysOk(c[i]);
    KeepFourWellFormed(c);
  }

  // ---------------------------------------------- how the scan treats lines

  lemma {:induction false} RunConcat(s: ScanState, a: seq<LineKind>, b: seq<LineKind>)
    ensures Run(s, a + b) == Run(Run(s, a), b)
    decreases |a|
  {
    if a != [] {
      ConcatTail(a, b);
      RunConcat(Step(s, a[0]), a[1..], b);
    } else {
      assert a + b == b;
    }
  }

  lemma {:induction false} KindsConcat(a: seq<string>, b: seq<string>)
    ensures Kinds(a + b) == Kinds(a) + Kinds(b)
  {
    if a != [] {
      ConcatTail(a, b);
      KindsConcat(a[1..], b);
      assert Kinds(a + b) == [Kind(a[0])] + (Kinds(a[1..]) + Kinds(b));
    } else {
      assert a + b == b;
    }
  }

  /** A blank (or all-whitespace) line can be inserted anywhere without changing the result. */
  lemma BlankLineIgnored(a: seq<string>, blank: string, b: seq<string>)
    requires Strip(blank) == []
    ensures ParseLines(a + [blank] + b) == ParseLines(a + b)
  {
    KindsConcat(a + [blank], b);
    KindsConcat(a, [blank]);
    KindsConcat(a, b);
    assert Kinds([blank]) == [Blank];
    RunConcat(Start, Kinds(a) + [Blank], Kinds(b));
    RunConcat(Start, Kinds(a), [Blank]);
    RunConcat(Start, Kinds(a), Kinds(b));
  }

  /** Lines before the first question line are ignored, whatever they hold,
      options and ANSWER lines included. */
  lemma PreambleIgnored(pre: seq<string>, rest: seq<string>)
    requires forall i :: 0 <= i < |pre| ==> !Kind(pre[i]).QuestionLine?
    ensures ParseLines(pre + rest) == ParseLines(rest)
  {
    forall i | 0 <= i < |pre| ensures !Kinds(pre)[i].QuestionLine? {
      KindsAt(pre, i);
    }
    PreambleRun(Kinds(pre));
    KindsConcat(pre, rest);
    RunConcat(Start, Kinds(pre), Kinds(rest));
  }

  lemma {:induction false} PreambleRun(pre: seq<LineKind>)
    requires forall i :: 0 <= i < |pre| ==> !pre[i].QuestionLine?
    ensures Run(Start, pre) == Start
    decreases |pre|
  {
    if pre != [] {
      assert !pre[0].QuestionLine?;
      assert Step(Start, pre[0]) == Start;
      PreambleRun(pre[1..]);
    }
  }

  // ------------------------------------------------ what a block produces

  /** The text of the LAST option line with key `k`, read from the end. */
  function LastOption(body: seq<LineKind>, k: char): Option<string>
  {
    if body == [] then None
    else
      var kind := body[|body| - 1];
      if kind.OptionLine? && kind.key == k then Some(kind.text)
      else LastOption(body[..|body| - 1], k)
  }

  /** The letter of the LAST valid ANSWER line, read from the end. */
  function LastAnswer(body: seq<LineKind>): Option<char>
  {
    if body == [] then None
    else
      var kind := body[|body| - 1];
      if kind.AnswerLine? && kind.letter.Some? then kind.letter
      else LastAnswer(body[..|body| - 1])
  }

  /** Lines that do not open a new question. */
  predicate NoQuestionLine(body: seq<LineKind>) {
    forall i :: 0 <= i < |body| ==> !body[i].QuestionLine?
  }

  /** Scanning the body of a block: a later option line with the same letter
      overwrites the earlier text, a later valid ANSWER overwrites the earlier
      answer, and nothing is committed. */
  lemma {:induction false} BlockBody(done: seq<Question>, d: Draft, body: seq<LineKind>)
    requires NoQuestionLine(body)
    ensures var r := Run(ScanState(done, Some(d)), body);
      && r.questions == done && r.current.Some?
      && r.current.value.question == d.question
      && r.current.value.answer == (if LastAnswer(body).Some? then LastAnswer(body) else d.answer)
      && (forall k :: LastOption(body, k).Some? ==>
            k in r.current.value.options && r.current.value.options[k] == LastOption(body, k).value)
      && (forall k :: LastOption(body, k).None? ==>
            (k in r.current.value.options <==> k in d.options)
            && (k in d.options ==> r.current.value.options[k] == d.options[k]))
    decreases |body|
  {
    if body != [] {
      var n := |body| - 1;
      var init := body[..n];
      InitLast(body);
      assert NoQuestionLine(init) by {
        forall i | 0 <= i < |init| ensures !init[i].QuestionLine? { assert init[i] == body[i]; }
      }
      BlockBody(done, d, init);
      RunConcat(ScanState(done, Some(d)), init, [body[n]]);
      assert !body[n].QuestionLine?;
    }
  }

  /** A block whose answer is never set is dropped: removing it (its question
      line and its body) does not change the result, provided what follows is
      the end or another question line. */
  lemma UnansweredBlockDropped(pre: seq<string>, qline: string, body: seq<string>, rest: seq<string>)
    requires Kind(qline).QuestionLine?
    requires NoQuestionLine(Kinds(body)) && LastAnswer(Kinds(body)).None?
    requires rest == [] || Kind(rest[0]).QuestionLine?
    ensures ParseLines(pre + [qline] + body + rest) == ParseLines(pre + rest)
  {
    var s := Run(Start, Kinds(pre));
    var d := Draft(Kind(qline).stem, map[], None);
    var open := Step(s, Kind(qline));
    assert open == ScanState(Committed(s), Some(d));
    BlockBody(Committed(s), d, Kinds(body));
    var after := Run(open, Kinds(body));
    assert after.questions == Committed(s) && after.current.Some? && after.current.value.answer.None?;
    KindsConcat(pre + [qline] + body, rest);
    KindsConcat(pre + [qline], body);
    KindsConcat(pre, [qline]);
    KindsConcat(pre, rest);
    assert Kinds([qline]) == [Kind(qline)];
    RunConcat(Start, Kinds(pre), [Kind(qline)]);
    RunConcat(Start, Kinds(pre) + [Kind(qline)], Kinds(body));
    RunConcat(Start, Kinds(pre) + [Kind(qline)] + Kinds(body), Kinds(rest));
    RunConcat(Start, Kinds(pre), Kinds(rest));
    if rest != [] {
      var kr := Kinds(rest);
      assert kr == [kr[0]] + kr[1..];
      RunConcat(after, [kr[0]], kr[1..]);
      RunConcat(s, [kr[0]], kr[1..]);
      assert Step(after, kr[0]) == Step(s, kr[0]);
    }
  }

  // ------------------------------------------------------------ round trip

  /** Every text of a question is trimmed and on one line. */
  predicate OneLineTexts(q: Question) {
    && IsTrimmed(q.question, Py) && '\n' !in q.question
    && forall k :: k in q.options ==> IsTrimmed(q.options[k], Py) && '\n' !in q.options[k]
  }

  /** The lines of one question in the template `Qn: ...`, `A) ...` .. `D) ...`,
      `ANSWER: X`, followed by a blank line. */
  function RenderQuestion(q: Question, n: nat): seq<string>
    requires WellFormed(q)
  {
    [ "Q" + NatToString(n) + ": " + q.question,
      "A) " + q.options['A'],
      "B) " + q.options['B'],
      "C) " + q.options['C'],
      "D) " + q.options['D'],
      "ANSWER: " + [q.answer],
      "" ]
  }

  function RenderLines(qs: seq<Question>, n: nat): seq<string>
    requires forall i :: 0 <= i < |qs| ==> WellFormed(qs[i])
    decreases |qs|
  {
    if qs == [] then [] else RenderQuestion(qs[0], n) + RenderLines(qs[1..], n + 1)
  }

  /** A reply in the template, questions numbered from 1. */
  function Render(qs: seq<Question>): string
    requires forall i :: 0 <= i < |qs| ==> WellFormed(qs[i])
  {
    Join(RenderLines(qs, 1), '\n')
  }

  /** `head + " " + t` stripped is itself, or `head` when `t` is empty. */
  lemma StripSpaced(head: string, t: string)
    requires head != [] && !IsSpace(Py, head[0]) && !IsSpace(Py, head[|head| - 1])
    requires IsTrimmed(t, Py)
    ensures Strip(head + " " + t) == if t == [] then head else head + " " + t
  {
    TrimSpaced(head, t, Py);
  }

  /** In `line`, which starts with `head` whose only `c` is its last character,
      the stripped text after the first `c` is `t` when `line` is `head`,
      `head + " " + t`, and `t` is trimmed. */
  lemma AfterHead(head: string, c: char, t: string, line: string)
    requires |head| >= 1 && head[|head| - 1] == c && c !in head[..|head| - 1]
    requires IsTrimmed(t, Py)
    requires line == (if t == [] then head else head + " " + t)
    ensures c in line && Strip(AfterFirst(line, c)) == t
  {
    assert line[..|head|] == head;
    assert line[|head| - 1] == c;
    assert line[..|head| - 1] == head[..|head| - 1];
    assert IndexOf(line, c) == |head| - 1;
    assert AfterFirst(line, c) == line[|head|..];
    if t == [] {
      assert line[|head|..] == [];
    } else {
      assert line[|head|..] == " " + t;
      TrimLeadingSpace(t, Py);
    }
  }

  lemma KindOfQuestionLine(n: nat, stem: string)
    requires IsTrimmed(stem, Py)
    ensures Kind("Q" + NatToString(n) + ": " + stem) == QuestionLine(stem)
  {
    var head := "Q" + NatToString(n) + ":";
    assert "Q" + NatToString(n) + ": " + stem == head + " " + stem;
    assert ':' !in head[..|head| - 1] by {
      forall i | 0 <= i < |head| - 1 ensures head[i] != ':' {
        if i > 0 { assert head[i] == NatToString(n)[i - 1]; }
      }
    }
    StripSpaced(head, stem);
    var line := if stem == [] then head else head + " " + stem;
    AfterHead(head, ':', stem, line);
    assert line[0] == 'Q';
  }

  lemma KindOfOptionLine(k: char, text: string)
    requires k in OptionKeys && IsTrimmed(text, Py)
    ensures Kind([k] + ") " + text) == OptionLine(k, text)
  {
    var head := [k] + ")";
    assert [k] + ") " + text == head + " " + text;
    StripSpaced(head, text);
    var line := if text == [] then head else head + " " + text;
    AfterHead(head, ')', text, line);
    assert line[0] == k;
  }

  lemma ReadAnswerLine(a: char)
    requires a in OptionKeys
    ensures ReadLine("ANSWER: " + [a]) == AnswerLine(Some(a))
  {
    var line := "ANSWER: " + [a];
    assert line[0] == 'A';
    assert ')' !in "ANSWER: " && a != ')';
    assert ')' !in line;
    assert Upper(line)[..7] == "ANSWER:";
    AfterHead("ANSWER:", ':', [a], line);
    assert Upper([a]) == [a];
  }

  lemma KindOfAnswerLine(a: char)
    requires a in OptionKeys
    ensures Kind("ANSWER: " + [a]) == AnswerLine(Some(a))
  {
    assert "ANSWER: " + [a] == "ANSWER:" + " " + [a];
    StripSpaced("ANSWER:", [a]);
    ReadAnswerLine(a);
  }

  /** How the lines of a rendered question read: its stem, its four options,
      its answer and a blank line. */
  function QuestionKinds(q: Question): (r: seq<LineKind>)
    requires WellFormed(q)
    ensures |r| == 7
  {
    [ QuestionLine(q.question),
      OptionLine('A', q.options['A']), OptionLine('B', q.options['B']),
      OptionLine('C', q.options['C']), OptionLine('D', q.options['D']),
      AnswerLine(Some(q.answer)), Blank ]
  }

  function AllKinds(qs: seq<Question>): seq<LineKind>
    requires forall i :: 0 <= i < |qs| ==> WellFormed(qs[i])
  {
    if qs == [] then [] else QuestionKinds(qs[0]) + AllKinds(qs[1..])
  }

  /** Each rendered line reads back as the part of the question it carries. */
  lemma RenderedKindAt(q: Question, n: nat, i: nat)
    requires WellFormed(q) && OneLineTexts(q) && i < 7
    ensures Kind(RenderQuestion(q, n)[i]) == QuestionKinds(q)[i]
  {
    var lines := RenderQuestion(q, n);
    if i == 0 {
      KindOfQuestionLine(n, q.question);
    } else if i <= 4 {
      var k := if i == 1 then 'A' else if i == 2 then 'B' else if i == 3 then 'C' else 'D';
      assert lines[i] == [k] + ") " + q.options[k];
      KindOfOptionLine(k, q.options[k]);
    } else if i == 5 {
      KindOfAnswerLine(q.answer);
    } else {
      assert Kind("") == Blank;
    }
  }

  lemma KindsOfQuestion(q: Question, n: nat)
    requires WellFormed(q) && OneLineTexts(q)
    ensures Kinds(RenderQuestion(q, n)) == QuestionKinds(q)
  {
    var lines := RenderQuestion(q, n);
    forall i | 0 <= i < 7 ensures Kinds(lines)[i] == QuestionKinds(q)[i] {
      KindsAt(lines, i);
      RenderedKindAt(q, n, i);
    }
  }

  lemma {:induction false} KindsOfRenderLines(qs: seq<Question>, n: nat)
    requires forall i :: 0 <= i < |qs| ==> WellFormed(qs[i])
    requires forall i :: 0 <= i < |qs| ==> OneLineTexts(qs[i])
    ensures Kinds(RenderLines(qs, n)) == AllKinds(qs)
    decreases |qs|
  {
    if qs != [] {
      KindsConcat(RenderQuestion(qs[0], n), RenderLines(qs[1..], n + 1));
      KindsOfQuestion(qs[0], n);
      KindsOfRenderLines(qs[1..], n + 1);
    }
  }

  /** The draft that one rendered question leaves open. */
  lemma RunQuestion(s: ScanState, q: Question)
    requires WellFormed(q)
    ensures Run(s, QuestionKinds(q)) == ScanState(Committed(s), Some(Draft(q.question, q.options, Some(q.answer))))
  {
    var ks := QuestionKinds(q);
    var m := map['A' := q.options['A'], 'B' := q.options['B'], 'C' := q.options['C'], 'D' := q.options['D']];
    assert m == q.options;
    var s1 := Step(s, ks[0]);
    var s2 := Step(s1, ks[1]);
    var s3 := Step(s2, ks[2]);
    var s4 := Step(s3, ks[3]);
    var s5 := Step(s4, ks[4]);
    var s6 := Step(s5, ks[5]);
    var s7 := Step(s6, ks[6]);
    assert s7 == ScanState(Committed(s), Some(Draft(q.question, q.options, Some(q.answer))));
    assert Run(s6, ks[6..]) == s7 by { assert ks[6..][1..] == []; }
    assert Run(s5, ks[5..]) == Run(s6, ks[6..]) by { assert ks[5..][1..] == ks[6..]; }
    assert Run(s4, ks[4..]) == Run(s5, ks[5..]) by { assert ks[4..][1..] == ks[5..]; }
    assert Run(s3, ks[3..]) == Run(s4, ks[4..]) by { assert ks[3..][1..] == ks[4..]; }
    assert Run(s2, ks[2..]) == Run(s3, ks[3..]) by { assert ks[2..][1..] == ks[3..]; }
    assert Run(s1, ks[1..]) == Run(s2, ks[2..]) by { assert ks[1..][1..] == ks[2..]; }
    assert Run(s, ks) == Run(s1, ks[1..]);
  }

  lemma {:induction false} RunAll(s: ScanState, qs: seq<Question>)
    requires forall i :: 0 <= i < |qs| ==> WellFormed(qs[i])
    ensures Committed(Run(s, AllKinds(qs))) == Committed(s) + qs
    decreases |qs|
  {
    if qs != [] {
      RunConcat(s, QuestionKinds(qs[0]), AllKinds(qs[1..]));
      RunQuestion(s, qs[0]);
      var s' := Run(s, QuestionKinds(qs[0]));
      RunAll(s', qs[1..]);
      assert Committed(s') == Committed(s) + [qs[0]];
      HeadTail(qs);
      Assoc(Committed(s), [qs[0]], qs[1..]);
    }
  }

  lemma {:induction false} KeepFourOfFour(qs: seq<Question>)
    requires forall i :: 0 <= i < |qs| ==> WellFormed(qs[i])
    ensures KeepFourOptions(qs) == qs
  {
    if qs != [] {
      assert qs[0].options.Keys == OptionKeys;
      assert |qs[0].options| == |OptionKeys| == 4;
      KeepFourOfFour(qs[1..]);
      HeadTail(qs);
    }
  }

  lemma {:induction false} RenderedLinesSingle(qs: seq<Question>, n: nat)
    requires forall i :: 0 <= i < |qs| ==> WellFormed(qs[i])
    requires forall i :: 0 <= i < |qs| ==> OneLineTexts(qs[i])
    ensures forall i :: 0 <= i < |RenderLines(qs, n)| ==> '\n' !in RenderLines(qs, n)[i]
    decreases |qs|
  {
    if qs != [] {
      RenderedLinesSingle(qs[1..], n + 1);
      var q := qs[0];
      var lines := RenderQuestion(q, n);
      assert '\n' !in NatToString(n);
      forall i | 0 <= i < |lines| ensures '\n' !in lines[i] { }
      var all := RenderLines(qs, n);
      assert all == lines + RenderLines(qs[1..], n + 1);
      forall i | 0 <= i < |all| ensures '\n' !in all[i] {
        if i >= |lines| { assert all[i] == RenderLines(qs[1..], n + 1)[i - |lines|]; }
      }
    }
  }

  /** Round trip: rendering questions in the prompt's template and parsing the
      reply gives the same questions back, in order, cut to the first five. */
  lemma RoundTrip(qs: seq<Question>)
    requires forall i :: 0 <= i < |qs| ==> WellFormed(qs[i])
    requires forall i :: 0 <= i < |qs| ==> OneLineTexts(qs[i])
    ensures Parse(Render(qs)) == Take(qs, MaxQuestions)
  {
    if qs == [] {
      assert Split("", '\n') == [""];
      assert Kinds([""]) == [Blank];
    } else {
      var lines := RenderLines(qs, 1);
      RenderedLinesSingle(qs, 1);
      SplitJoin(lines, '\n');
      ParseRendered(qs);
    }
  }

  lemma ParseRendered(qs: seq<Question>)
    requires forall i :: 0 <= i < |qs| ==> WellFormed(qs[i])
    requires forall i :: 0 <= i < |qs| ==> OneLineTexts(qs[i])
    ensures ParseLines(RenderLines(qs, 1)) == Take(qs, MaxQuestions)
  {
    KindsOfRenderLines(qs, 1);
    ParseAllKinds(qs);
  }

  lemma ParseAllKinds(qs: seq<Question>)
    requires forall i :: 0 <= i < |qs| ==> WellFormed(qs[i])
    ensures ParseKinds(AllKinds(qs)) == Take(qs, MaxQuestions)
  {
    RunAll(Start, qs);
    assert Committed(Start) + qs == qs;
    KeepFourOfFour(qs);
  }

  // -------------------------------------------------------- generate_quiz

  /** What the completion call produced: it raised, or it replied with a
      content that may be null. */
  datatype Completion = CallFailed | Replied(content: Option<string>)

  const SystemPrompt := "Kullanıcı tarafından verilen metin hakkında çoktan seçmeli sorular oluştur. Soruları verilen formatta yaz."

  const PromptTemplate := "\n\nÇıkış formatı (her soru için ayrı satırlar):\nQ1: [Soru metni]\nA) [Seçenek 1]\nB) [Seçenek 2]\nC) [Seçenek 3]\nD) [Seçenek 4]\nANSWER: [A/B/C/D]\n\nQ2: [Soru metni]\n...\n\nBaşla:"

  function PromptHead(numQuestions: int): string {
    "Aşağıdaki metindan " + IntToString(numQuestions) + " çoktan seçmeli soru oluştur.\n\nMetin:\n"
  }

  /** The user prompt: the requested count, the first 2000 characters of the
      document and the output template. */
  function QuizPrompt(documentText: string, numQuestions: int): (p: string)
    ensures Contains(p, Take(documentText, 2000))
  {
    var head := PromptHead(numQuestions);
    var excerpt := Take(documentText, 2000);
    var p := head + excerpt + PromptTemplate;
    assert p[|head|..|head| + |excerpt|] == excerpt;
    ContainsAt(p, excerpt, |head|);
    p
  }

  /** `generate_quiz`: builds the system and user messages of the call, and
      turns any failure of the call, including a null reply, into the empty
      list. */
  method GenerateQuiz(documentText: string, numQuestions: int, completion: Completion)
    returns (system: string, prompt: string, questions: seq<Question>)
    ensures system == SystemPrompt
    ensures prompt == QuizPrompt(documentText, numQuestions)
    ensures completion.CallFailed? || completion.content.None? ==> questions == []
    ensures completion.Replied? && completion.content.Some? ==> questions == Parse(completion.content.value)
    ensures |questions| <= MaxQuestions && forall i :: 0 <= i < |questions| ==> WellFormed(questions[i])
  {
    system := SystemPrompt;
    prompt := QuizPrompt(documentText, numQuestions);
    match completion {
      case CallFailed =>
        questions := [];
      case Replied(content) =>
        if content.None? {
          questions := [];
        } else {
          questions := ParseQuestions(content.value);
        }
    }
  }
}
