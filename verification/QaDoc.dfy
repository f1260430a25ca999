/** Question-and-answer documents: go-crawler/internal/source/stackexchange.go
    prints them and py-processor/export_sft.py parses them back. */
module QaDoc {
  import opened Wrappers
  import opened Text

  // ---- the printer -----------------------------------------------------------------

  /** An answer; `body` is its converted markdown, None when conversion fails. */
  datatype Answer = Answer(body: Option<string>, score: int, accepted: bool)

  ghost predicate SomeAccepted(answers: seq<Answer>) {
    exists i | 0 <= i < |answers| :: answers[i].accepted
  }

  /** What "best" means: the first accepted answer; without one, the first among
      the highest-scored of the positive ones; without those, none. */
  ghost predicate IsBest(answers: seq<Answer>, best: Option<nat>) {
    match best
    case None =>
      forall i | 0 <= i < |answers| :: !answers[i].accepted && answers[i].score <= 0
    case Some(b) =>
      && b < |answers|
      && if answers[b].accepted then forall i | 0 <= i < b :: !answers[i].accepted
         else
           && !SomeAccepted(answers) && answers[b].score > 0
           && (forall i | 0 <= i < |answers| :: answers[i].score <= answers[b].score)
           && (forall i | 0 <= i < b :: answers[i].score < answers[b].score)
  }

  lemma BestIsUnique(answers: seq<Answer>, a: Option<nat>, b: Option<nat>)
    requires IsBest(answers, a) && IsBest(answers, b)
    ensures a == b
  {
    if a.Some? && b.Some? && a != b {
      assert false;
    }
  }

  method BestAnswer(answers: seq<Answer>) returns (best: Option<nat>)
    ensures IsBest(answers, best)
    ensures best.None? <==> forall a | a in answers :: !a.accepted && a.score <= 0
    ensures best.Some? ==> best.value < |answers|
    ensures best.Some? && (exists a | a in answers :: a.accepted) ==>
      answers[best.value].accepted && forall a | a in answers[..best.value] :: !a.accepted
    ensures best.Some? && (forall a | a in answers :: !a.accepted) ==>
      && (forall a | a in answers :: a.score <= answers[best.value].score)
      && (forall a | a in answers[..best.value] :: a.score < answers[best.value].score)
  {
    best := None;
    for i := 0 to |answers|
      invariant !SomeAccepted(answers[..i]) && IsBest(answers[..i], best)
      invariant best.Some? ==> best.value < i
    {
      ghost var seen := answers[..i + 1];
      assert forall j | 0 <= j < i :: seen[j] == answers[..i][j];
      if answers[i].accepted {
        return Some(i);
      }
      if answers[i].score <= 0 {
        continue;
      }
      if best.None? || answers[i].score > answers[best.value].score {
        best := Some(i);
      }
    }
    assert answers[..|answers|] == answers;
  }

  const ANSWER_SEP := "\n## Top answer\n"

  /** The document with converted and trimmed parts. */
  function Document(title: string, question: string, answer: Option<string>): string {
    "# " + title + "\n\n" + question + "\n"
    + if answer.Some? then ANSWER_SEP + "\n" + answer.value + "\n" else ""
  }

  /** The best answer converts to `md`, and `md` is not blank. */
  predicate Answers(answers: seq<Answer>, best: Option<nat>, md: string) {
    best.Some? && best.value < |answers| && answers[best.value].body == Some(md) && !Blank(IsSpaceGo, md)
  }

  /** `question` is the converted body, None when conversion fails; `title` is
      already unescaped. */
  method ComposeDoc(title: string, question: Option<string>, answers: seq<Answer>, requireAnswered: bool)
      returns (doc: Option<string>)
    ensures doc.Some? <==>
      question.Some? && !Blank(IsSpaceGo, question.value) && !(requireAnswered && IsBest(answers, None))
    ensures forall best, md | doc.Some? && IsBest(answers, best) && Answers(answers, best, md) ::
      doc.value == Document(title, TrimSpace(question.value), Some(TrimSpace(md)))
    ensures forall best | doc.Some? && IsBest(answers, best) && (forall md :: !Answers(answers, best, md)) ::
      doc.value == Document(title, TrimSpace(question.value), None)
  {
    var best := BestAnswer(answers);
    forall other | IsBest(answers, other)
      ensures other == best
    {
      BestIsUnique(answers, best, other);
    }
    if requireAnswered && best.None? {
      return None;
    }
    if question.None? {
      return None;
    }
    TrimEmpty(IsSpaceGo, question.value);
    if TrimSpace(question.value) == "" {
      return None;
    }
    var b := "# " + title + "\n\n";
    b := b + TrimSpace(question.value) + "\n";
    if best.Some? {
      var md := answers[best.value].body;
      if md.Some? {
        TrimEmpty(IsSpaceGo, md.value);
      }
      if md.Some? && TrimSpace(md.value) != "" {
        b := b + "\n## Top answer\n\n" + TrimSpace(md.value) + "\n";
        assert ANSWER_SEP + "\n" == "\n## Top answer\n\n";
        assert Answers(answers, best, md.value);
        assert b == Document(title, TrimSpace(question.value), Some(TrimSpace(md.value)));
      }
    }
    doc := Some(b);
  }

  // ---- the parser ----------------------------------------------------------------------

  datatype Qa = Qa(title: string, question: string, answer: string)

  function NewlineFrom(s: string, i: nat): (e: nat)
    requires i <= |s|
    ensures i <= e <= |s| && (forall k | i <= k < e :: s[k] != '\n') && (e < |s| ==> s[e] == '\n')
    decreases |s| - i
  {
    if i == |s| || s[i] == '\n' then i else NewlineFrom(s, i + 1)
  }

  predicate OccursAt(sep: string, s: string, k: nat) {
    k + |sep| <= |s| && s[k..k + |sep|] == sep
  }

  ghost predicate Occurs(sep: string, s: string) {
    exists k: nat :: OccursAt(sep, s, k)
  }

  /** The first occurrence of sep at or after i. */
  function Find(sep: string, s: string, i: nat): (r: Option<nat>)
    requires i <= |s|
    ensures r.Some? ==> i <= r.value && OccursAt(sep, s, r.value)
    ensures forall k: nat | i <= k && (r.Some? ==> k < r.value) :: !OccursAt(sep, s, k)
    decreases |s| - i
  {
    if OccursAt(sep, s, i) then Some(i) else if i == |s| then None else Find(sep, s, i + 1)
  }

  /** `parse_qa`. In a stripped text the whitespace after `#` stops before the
      end, so the title pattern never backtracks. */
  function ParseQa(content: string, minAnswerChars: int): Option<Qa> {
    var s := Strip(content);
    if |s| < 2 || s[0] != '#' || !IsSpace(s[1]) then None
    else
      var lo := RunEnd(s, 1);
      var hi := NewlineFrom(s, lo);
      SplitRest(Strip(s[lo..hi]), Strip(s[hi..]), minAnswerChars)
  }

  function SplitRest(title: string, rest: string, minAnswerChars: int): Option<Qa> {
    match Find(ANSWER_SEP, rest, 0)
    case None => None
    case Some(k) =>
      var question, answer := Strip(rest[..k]), Strip(rest[k + |ANSWER_SEP|..]);
      if question == "" || |answer| < minAnswerChars then None else Some(Qa(title, question, answer))
  }

  predicate OneLine(s: string) {
    forall k | 0 <= k < |s| :: s[k] != '\n'
  }

  /** Whatever the input, a parsed pair has a one-line title and a question,
      both clean, and a stripped answer of the length asked for. */
  lemma ParsedIsClean(content: string, minAnswerChars: int)
    ensures match ParseQa(content, minAnswerChars)
      case None => true
      case Some(qa) =>
        && Clean(qa.title) && OneLine(qa.title) && Clean(qa.question)
        && Trimmed(IsSpace, qa.answer) && |qa.answer| >= minAnswerChars
  {
    var s := Strip(content);
    var x, y := TrimFacts(IsSpace, content);
    if !(|s| < 2 || s[0] != '#' || !IsSpace(s[1])) {
      var lo := RunEnd(s, 1);
      var hi := NewlineFrom(s, lo);
      TitleIsClean(s, lo, hi);
      SplitIsClean(Strip(s[lo..hi]), Strip(s[hi..]), minAnswerChars);
    }
  }

  lemma TitleIsClean(s: string, lo: nat, hi: nat)
    requires lo <= hi <= |s| && lo < |s| && !IsSpace(s[lo]) && hi == NewlineFrom(s, lo)
    ensures Clean(Strip(s[lo..hi])) && OneLine(Strip(s[lo..hi]))
  {
    var line := s[lo..hi];
    LineFrom(s, lo, hi);
    StripIsClean(line);
    var a, b := TrimFacts(IsSpace, line);
    PartOfLine(line, a, b);
  }

  lemma LineFrom(s: string, lo: nat, hi: nat)
    requires lo <= hi <= |s| && lo < |s| && !IsSpace(s[lo]) && hi == NewlineFrom(s, lo)
    ensures OneLine(s[lo..hi]) && s[lo..hi] != "" && !IsSpace(s[lo..hi][0])
  {
    assert IsSpace('\n');
  }

  lemma StripIsClean(line: string)
    requires line != "" && !IsSpace(line[0])
    ensures Clean(Strip(line))
  {
    TrimEmpty(IsSpace, line);
    var a, b := TrimFacts(IsSpace, line);
  }

  lemma PartOfLine(line: string, a: nat, b: nat)
    requires OneLine(line) && a <= b <= |line|
    ensures OneLine(line[a..b])
  {}

  lemma SplitIsClean(title: string, rest: string, minAnswerChars: int)
    ensures match SplitRest(title, rest, minAnswerChars)
      case None => true
      case Some(qa) =>
        && qa.title == title && Clean(qa.question)
        && Trimmed(IsSpace, qa.answer) && |qa.answer| >= minAnswerChars
  {
    var r := Find(ANSWER_SEP, rest, 0);
    if r.Some? {
      var a, b := TrimFacts(IsSpace, rest[..r.value]);
      var c, d := TrimFacts(IsSpace, rest[r.value + |ANSWER_SEP|..]);
    }
  }

  // ---- the round trip --------------------------------------------------------------------

  /** The parser peels the title line off a printed document. */
  lemma PeelTitle(title: string, body: string, tail: string, minAnswerChars: int)
    requires Clean(title) && OneLine(title) && Clean(body) && Blank(IsSpace, tail)
    ensures ParseQa("# " + title + "\n\n" + body + tail, minAnswerChars) == SplitRest(title, body, minAnswerChars)
  {
    var s, rest := "# " + title + "\n\n" + body, "\n\n" + body;
    assert s[0] == '#' && s[|s| - 1] == body[|body| - 1];
    assert "" + s + tail == s + tail;
    TrimInside(IsSpace, "", s, tail);
    assert s == "# " + title + rest;
    TitleSpan(s, title, rest);
    TrimTrimmed(IsSpace, title);
    assert rest == "\n\n" + body + "";
    TrimInside(IsSpace, "\n\n", body, "");
  }

  /** Where the title pattern matches. */
  lemma TitleSpan(s: string, title: string, rest: string)
    requires s == "# " + title + rest && Clean(title) && OneLine(title) && rest != "" && rest[0] == '\n'
    ensures RunEnd(s, 1) == 2 && NewlineFrom(s, 2) == 2 + |title|
    ensures s[1] == ' ' && s[2..2 + |title|] == title && s[2 + |title|..] == rest
  {
    assert s[1] == ' ' && s[2] == title[0];
    assert s[2..2 + |title|] == title && s[2 + |title|] == '\n';
    TitleEnds(s, title);
  }

  lemma TitleEnds(s: string, title: string)
    requires 2 + |title| < |s| && s[2..2 + |title|] == title && s[2 + |title|] == '\n' && OneLine(title)
    ensures NewlineFrom(s, 2) == 2 + |title|
  {
    assert forall k | 2 <= k < 2 + |title| :: s[k] == title[k - 2];
  }

  /** Text with an answer section: where the separator can occur. */
  lemma SepOccurrences(question: string, answer: string, k: nat)
    requires k <= |question|
    ensures OccursAt(ANSWER_SEP, question + "\n" + ANSWER_SEP + "\n" + answer, k)
       <==> OccursAt(ANSWER_SEP, question + "\n", k)
  {
    var short, long := question + "\n", question + "\n" + ANSWER_SEP + "\n" + answer;
    var n := |ANSWER_SEP|;
    assert n == 15 && ANSWER_SEP[0] == '\n' && ANSWER_SEP[1] == '#' && ANSWER_SEP[14] == '\n';
    if k + n <= |short| {
      assert long[k..k + n] == short[k..k + n];
    } else {
      var d := |question| - k;
      assert long[k..k + n][d] == '\n' && long[|question| + 1] == '\n';
      assert d < 14 ==> long[k..k + n][d + 1] == '\n';
      assert forall i | 0 < i < 14 :: ANSWER_SEP[i] != '\n';
    }
  }

  lemma SplitPrinted(title: string, question: string, answer: string, minAnswerChars: int)
    requires Clean(question) && Clean(answer) && |answer| >= minAnswerChars
    ensures SplitRest(title, question + "\n" + ANSWER_SEP + "\n" + answer, minAnswerChars)
            == Some(Qa(title, question, answer))
       <==> !Occurs(ANSWER_SEP, question + "\n")
  {
    var rest, n := question + "\n" + ANSWER_SEP + "\n" + answer, |question| + 1;
    assert OccursAt(ANSWER_SEP, rest, n);
    var k := Find(ANSWER_SEP, rest, 0).value;
    if k < n {
      EarlierSep(title, question, answer, minAnswerChars, k);
    } else {
      NoEarlierSep(question, answer);
      CutAtSep(question, answer);
    }
  }

  lemma EarlierSep(title: string, question: string, answer: string, minAnswerChars: int, k: nat)
    requires Find(ANSWER_SEP, question + "\n" + ANSWER_SEP + "\n" + answer, 0) == Some(k) && k <= |question|
    ensures Occurs(ANSWER_SEP, question + "\n")
    ensures SplitRest(title, question + "\n" + ANSWER_SEP + "\n" + answer, minAnswerChars)
            != Some(Qa(title, question, answer))
  {
    SepOccurrences(question, answer, k);
    TrimShrinks(IsSpace, (question + "\n" + ANSWER_SEP + "\n" + answer)[..k]);
  }

  lemma NoEarlierSep(question: string, answer: string)
    requires Find(ANSWER_SEP, question + "\n" + ANSWER_SEP + "\n" + answer, 0) == Some(|question| + 1)
    ensures !Occurs(ANSWER_SEP, question + "\n")
  {
    forall j: nat | OccursAt(ANSWER_SEP, question + "\n", j)
      ensures false
    {
      SepOccurrences(question, answer, j);
    }
  }

  lemma CutAtSep(question: string, answer: string)
    requires Clean(question) && Clean(answer)
    ensures var rest, n := question + "\n" + ANSWER_SEP + "\n" + answer, |question| + 1;
      Strip(rest[..n]) == question && Strip(rest[n + |ANSWER_SEP|..]) == answer
  {
    var rest, n := question + "\n" + ANSWER_SEP + "\n" + answer, |question| + 1;
    assert rest[..n] == "" + question + "\n";
    TrimInside(IsSpace, "", question, "\n");
    assert rest[n + |ANSWER_SEP|..] == "\n" + answer + "";
    TrimInside(IsSpace, "\n", answer, "");
  }

  /** Printing then parsing gives the parts back, exactly when the title is one
      clean line, question and answer are clean, the answer is long enough and
      the question has no line that reads as the separator. */
  lemma RoundTrip(title: string, question: string, answer: string, minAnswerChars: int)
    requires question != "" && answer != ""
    ensures ParseQa(Document(title, question, Some(answer)), minAnswerChars) == Some(Qa(title, question, answer))
       <==> && Clean(title) && OneLine(title) && Clean(question) && Clean(answer)
            && |answer| >= minAnswerChars && !Occurs(ANSWER_SEP, question + "\n")
  {
    var doc := Document(title, question, Some(answer));
    ParsedIsClean(doc, minAnswerChars);
    if Clean(title) && OneLine(title) && Clean(question) && Clean(answer) && |answer| >= minAnswerChars {
      var body := question + "\n" + ANSWER_SEP + "\n" + answer;
      assert body[0] == question[0] && body[|body| - 1] == answer[|answer| - 1];
      assert doc == "# " + title + "\n\n" + body + "\n";
      PeelTitle(title, body, "\n", minAnswerChars);
      SplitPrinted(title, question, answer, minAnswerChars);
    }
  }

  /** The first occurrence. */
  ghost predicate FirstAt(sep: string, s: string, k: nat) {
    OccursAt(sep, s, k) && forall j: nat | j < k :: !OccursAt(sep, s, j)
  }

  /** The question holds a separator whose rest is too short for an answer. */
  ghost predicate ShortRest(question: string, minAnswerChars: int) {
    exists k: nat :: FirstAt(ANSWER_SEP, question, k) && |Strip(question[k + |ANSWER_SEP|..])| < minAnswerChars
  }

  lemma FirstIsUnique(sep: string, s: string, j: nat, k: nat)
    requires FirstAt(sep, s, j) && FirstAt(sep, s, k)
    ensures j == k
  {}

  /** Without an answer section the parser finds no pair exactly when the question
      has no separator, or too little after its first one. */
  lemma NoAnswerSection(title: string, question: string, minAnswerChars: int)
    requires Clean(title) && OneLine(title) && Clean(question)
    ensures ParseQa(Document(title, question, None), minAnswerChars) == None
       <==> !Occurs(ANSWER_SEP, question) || ShortRest(question, minAnswerChars)
    ensures forall k: nat | FirstAt(ANSWER_SEP, question, k)
                         && |Strip(question[k + |ANSWER_SEP|..])| >= minAnswerChars ::
      ParseQa(Document(title, question, None), minAnswerChars)
      == Some(Qa(title, Strip(question[..k]), Strip(question[k + |ANSWER_SEP|..])))
  {
    assert Document(title, question, None) == "# " + title + "\n\n" + question + "\n";
    PeelTitle(title, question, "\n", minAnswerChars);
    var found := Find(ANSWER_SEP, question, 0);
    if found.Some? {
      var k := found.value;
      assert FirstAt(ANSWER_SEP, question, k);
      QuestionBeforeSep(question, k);
      forall j: nat | FirstAt(ANSWER_SEP, question, j)
        ensures j == k
      {
        FirstIsUnique(ANSWER_SEP, question, j, k);
      }
    }
  }

  /** A clean question has text before the separator. */
  lemma QuestionBeforeSep(question: string, k: nat)
    requires Clean(question) && OccursAt(ANSWER_SEP, question, k)
    ensures Strip(question[..k]) != ""
  {
    assert question[k..k + |ANSWER_SEP|][0] == '\n';
    assert k > 0 && question[..k][0] == question[0];
    TrimEmpty(IsSpace, question[..k]);
  }

  /** A question that quotes a whole answer section is taken for an answered one. */
  lemma ForgedAnswer(title: string, question: string, answer: string, minAnswerChars: int)
    requires Clean(title) && OneLine(title) && Clean(question) && Clean(answer)
    requires |answer| >= minAnswerChars && !Occurs(ANSWER_SEP, question + "\n")
    ensures var quoting := question + "\n" + ANSWER_SEP + "\n" + answer;
      && Clean(quoting)
      && ParseQa(Document(title, quoting, None), minAnswerChars) == Some(Qa(title, question, answer))
  {
    var quoting := question + "\n" + ANSWER_SEP + "\n" + answer;
    assert quoting[0] == question[0] && quoting[|quoting| - 1] == answer[|answer| - 1];
    assert Document(title, quoting, None) == "# " + title + "\n\n" + quoting + "\n";
    PeelTitle(title, quoting, "\n", minAnswerChars);
    SplitPrinted(title, question, answer, minAnswerChars);
  }

  // ---- the export -----------------------------------------------------------------------

  /** A row in the order of the query; `score` is None for SQL NULL. */
  datatype Row = Row(content: string, score: Option<real>)

  datatype Filter = Filter(minQuality: real, minAnswerChars: int, lower: string -> string)

  function Qualified(f: Filter, row: Row): Option<Qa> {
    if row.score.Some? && row.score.value < f.minQuality then None else ParseQa(row.content, f.minAnswerChars)
  }

  /** The key a row competes under, if it qualifies. */
  function Key(f: Filter, row: Row): Option<string> {
    match Qualified(f, row)
    case None => None
    case Some(qa) => Some(f.lower(qa.title))
  }

  /** Row i qualifies and is the first to do so under its title. */
  ghost predicate Wins(f: Filter, rows: seq<Row>, i: nat) {
    i < |rows| && Key(f, rows[i]).Some? && forall j | 0 <= j < i :: Key(f, rows[j]) != Key(f, rows[i])
  }

  ghost function Written(f: Filter, rows: seq<Row>, k: nat): seq<Qa>
    requires k <= |rows|
  {
    if k == 0 then []
    else Written(f, rows, k - 1) + if Wins(f, rows, k - 1) then [Qualified(f, rows[k - 1]).value] else []
  }

  ghost predicate KeyUsed(f: Filter, rows: seq<Row>, k: nat, key: string) {
    exists j | 0 <= j < k <= |rows| :: Key(f, rows[j]) == Some(key)
  }

  lemma KeyUsedNext(f: Filter, rows: seq<Row>, k: nat, key: string)
    requires k < |rows|
    ensures KeyUsed(f, rows, k + 1, key) <==> KeyUsed(f, rows, k, key) || Key(f, rows[k]) == Some(key)
  {}

  method ExportSft(f: Filter, rows: seq<Row>) returns (out: seq<Qa>, written: nat)
    ensures out == Written(f, rows, |rows|) && written == |out|
  {
    out, written := [], 0;
    var seenTitles: set<string> := {};
    for k := 0 to |rows|
      invariant out == Written(f, rows, k) && written == |out|
      invariant forall key :: key in seenTitles <==> KeyUsed(f, rows, k, key)
    {
      forall key {
        KeyUsedNext(f, rows, k, key);
      }
      var row := rows[k];
      if row.score.Some? && row.score.value < f.minQuality {
        continue;
      }
      var qa := ParseQa(row.content, f.minAnswerChars);
      if qa.None? {
        continue;
      }
      var key := f.lower(qa.value.title);
      assert Key(f, row) == Some(key);
      if key in seenTitles {
        continue;
      }
      seenTitles := seenTitles + {key};
      assert Wins(f, rows, k);
      out := out + [qa.value];
      written := written + 1;
    }
  }

  /** Every qualifying row's title is won by exactly one row, at or before it. */
  lemma {:induction false} Winner(f: Filter, rows: seq<Row>, i: nat) returns (w: nat)
    requires i < |rows| && Key(f, rows[i]).Some?
    ensures w <= i && Wins(f, rows, w) && Key(f, rows[w]) == Key(f, rows[i])
    ensures forall v: nat | Wins(f, rows, v) && Key(f, rows[v]) == Key(f, rows[i]) :: v == w
  {
    if j: nat :| j < i && Key(f, rows[j]) == Key(f, rows[i]) {
      w := Winner(f, rows, j);
    } else {
      w := i;
    }
  }

  /** `ORDER BY quality_score DESC NULLS LAST` */
  predicate NoWorse(a: Option<real>, b: Option<real>) {
    b.None? || (a.Some? && a.value >= b.value)
  }

  ghost predicate ByQuality(rows: seq<Row>) {
    forall i, j | 0 <= i < j < |rows| :: NoWorse(rows[i].score, rows[j].score)
  }

  /** In the order of the query the first row under a title is a best one. */
  lemma WinnerIsBest(f: Filter, rows: seq<Row>, i: nat) returns (w: nat)
    requires ByQuality(rows) && i < |rows| && Key(f, rows[i]).Some?
    ensures w < |rows| && Wins(f, rows, w) && Key(f, rows[w]) == Key(f, rows[i])
    ensures NoWorse(rows[w].score, rows[i].score)
  {
    w := Winner(f, rows, i);
  }

  ghost predicate WonBy(f: Filter, rows: seq<Row>, k: nat, qa: Qa) {
    exists i: nat | i < k :: Wins(f, rows, i) && Qualified(f, rows[i]) == Some(qa)
  }

  /** The samples written are exactly the winners'. */
  lemma {:induction false} WrittenAreWinners(f: Filter, rows: seq<Row>, k: nat, qa: Qa)
    requires k <= |rows|
    ensures qa in Written(f, rows, k) <==> WonBy(f, rows, k, qa)
  {
    if k > 0 {
      WrittenAreWinners(f, rows, k - 1, qa);
    }
  }

  /** The row is good enough, and its document is this question and answer. */
  predicate Offers(f: Filter, row: Row, qa: Qa) {
    (row.score.None? || row.score.value >= f.minQuality) && ParseQa(row.content, f.minAnswerChars) == Some(qa)
  }

  ghost predicate Offered(f: Filter, rows: seq<Row>, qa: Qa) {
    exists i | 0 <= i < |rows| :: Offers(f, rows[i], qa)
  }

  /** Every sample comes from a row that has no score or a sufficient one. */
  lemma WrittenAreOffered(f: Filter, rows: seq<Row>, qa: Qa)
    requires qa in Written(f, rows, |rows|)
    ensures Offered(f, rows, qa)
  {
    WrittenAreWinners(f, rows, |rows|, qa);
    var i: nat :| i < |rows| && Wins(f, rows, i) && Qualified(f, rows[i]) == Some(qa);
    assert Offers(f, rows[i], qa);
  }

  /** And every such row has its title written. */
  lemma OfferedAreWritten(f: Filter, rows: seq<Row>, i: nat, qa: Qa) returns (out: Qa)
    requires i < |rows| && Offers(f, rows[i], qa)
    ensures out in Written(f, rows, |rows|) && f.lower(out.title) == f.lower(qa.title)
  {
    var w := Winner(f, rows, i);
    out := Qualified(f, rows[w]).value;
    WrittenAreWinners(f, rows, |rows|, out);
  }

  ghost predicate DistinctTitles(f: Filter, out: seq<Qa>) {
    forall a, b | 0 <= a < b < |out| :: f.lower(out[a].title) != f.lower(out[b].title)
  }

  /** No title is written twice. */
  lemma {:induction false} WrittenDistinct(f: Filter, rows: seq<Row>, k: nat)
    requires k <= |rows|
    ensures DistinctTitles(f, Written(f, rows, k))
  {
    if k > 0 {
      WrittenDistinct(f, rows, k - 1);
      if Wins(f, rows, k - 1) {
        WinnerIsNew(f, rows, k - 1);
      }
    }
  }

  lemma WinnerIsNew(f: Filter, rows: seq<Row>, k: nat)
    requires Wins(f, rows, k)
    ensures forall qa | qa in Written(f, rows, k) :: f.lower(qa.title) != f.lower(Qualified(f, rows[k]).value.title)
  {
    forall qa | qa in Written(f, rows, k)
      ensures f.lower(qa.title) != f.lower(Qualified(f, rows[k]).value.title)
    {
      WrittenAreWinners(f, rows, k, qa);
    }
  }
}
