/** py-processor/chunker.py: `split_markdown`, over the sections and windows of
    `Chunker`. */
module Markdown {
  import opened Wrappers
  import opened Text
  import opened Chunker

  // ---- lines and paragraphs -------------------------------------------------------

  /** What ends a line for `str.splitlines`. */
  predicate EndsLine(c: char) {
    var n := c as int;
    10 <= n <= 13 || 28 <= n <= 30 || n == 0x85 || n == 0x2028 || n == 0x2029
  }

  function LineEnd(s: string, i: nat): (e: nat)
    requires i <= |s|
    ensures i <= e <= |s|
    decreases |s| - i
  {
    if i < |s| && !EndsLine(s[i]) then LineEnd(s, i + 1) else i
  }

  /** `s.splitlines()` */
  function SplitLines(s: string): seq<string> {
    if s == "" then []
    else
      var e := LineEnd(s, 0);
      if e == |s| then [s]
      else [s[..e]] + SplitLines(s[if s[e] == '\r' && e + 1 < |s| && s[e + 1] == '\n' then e + 2 else e + 1..])
  }

  /** Lines with what ended them. */
  function Glue(lines: seq<string>, ends: seq<string>): string
    requires |lines| == |ends|
  {
    if lines == [] then "" else lines[0] + ends[0] + Glue(lines[1..], ends[1..])
  }

  /** A line holds no line boundary and ends with one, a carriage return and line
      feed counting as one; only the last line may lack it, if it is not empty. */
  predicate ProperLine(lines: seq<string>, ends: seq<string>, i: nat)
    requires i < |lines| == |ends|
  {
    && (forall k | 0 <= k < |lines[i]| :: !EndsLine(lines[i][k]))
    && (ends[i] == "\r\n" || (|ends[i]| == 1 && EndsLine(ends[i][0]))
        || (ends[i] == "" && i == |lines| - 1 && lines[i] != ""))
    && (ends[i] == "\r" && i + 1 < |lines| && lines[i + 1] == "" ==> ends[i + 1] != "" && ends[i + 1][0] != '\n')
  }

  lemma {:induction false} LinesOf(s: string) returns (ends: seq<string>)
    ensures |ends| == |SplitLines(s)| && Glue(SplitLines(s), ends) == s
    ensures forall i | 0 <= i < |ends| :: ProperLine(SplitLines(s), ends, i)
    decreases |s|
  {
    if s == "" {
      ends := [];
    } else {
      var e := LineEnd(s, 0);
      LineEndIs(s, 0);
      if e == |s| {
        ends := [""];
        assert Glue([s], [""]) == s + "" + Glue([s][1..], [""][1..]);
      } else {
        var next := if s[e] == '\r' && e + 1 < |s| && s[e + 1] == '\n' then e + 2 else e + 1;
        var more := LinesOf(s[next..]);
        ends := [s[e..next]] + more;
        LinesOfStep(s, e, next, more);
      }
    }
  }

  lemma {:induction false} LineEndIs(s: string, i: nat)
    requires i <= |s|
    ensures forall k | i <= k < LineEnd(s, i) :: !EndsLine(s[k])
    ensures LineEnd(s, i) < |s| ==> EndsLine(s[LineEnd(s, i)])
    decreases |s| - i
  {
    if i < |s| && !EndsLine(s[i]) {
      LineEndIs(s, i + 1);
    }
  }

  lemma LinesOfStep(s: string, e: nat, next: nat, more: seq<string>)
    requires e == LineEnd(s, 0) < |s|
    requires next == if s[e] == '\r' && e + 1 < |s| && s[e + 1] == '\n' then e + 2 else e + 1
    requires |more| == |SplitLines(s[next..])| && Glue(SplitLines(s[next..]), more) == s[next..]
    requires forall i | 0 <= i < |more| :: ProperLine(SplitLines(s[next..]), more, i)
    ensures var ends := [s[e..next]] + more;
      && |ends| == |SplitLines(s)| && Glue(SplitLines(s), ends) == s
      && forall i | 0 <= i < |ends| :: ProperLine(SplitLines(s), ends, i)
  {
    var rest, ends := SplitLines(s[next..]), [s[e..next]] + more;
    var lines := [s[..e]] + rest;
    LineEndIs(s, 0);
    assert SplitLines(s) == lines && lines[1..] == rest && ends[1..] == more;
    assert s == s[..e] + s[e..next] + s[next..];
    assert s[e] == '\r' && next == e + 2 ==> s[e..next] == "\r\n";
    if rest != [] && rest[0] == "" {
      assert ProperLine(rest, more, 0);
      GlueStarts(rest, more);
    }
    forall i | 0 <= i < |ends|
      ensures ProperLine(lines, ends, i)
    {
      assert i > 0 ==> ProperLine(rest, more, i - 1);
      assert rest != [] ==> ProperLine(rest, more, 0);
    }
  }

  lemma GlueStarts(lines: seq<string>, ends: seq<string>)
    requires |lines| == |ends| && lines != [] && lines[0] == "" && ends[0] != ""
    ensures Glue(lines, ends) != "" && Glue(lines, ends)[0] == ends[0][0]
  {}

  function LastNewline(s: string, lo: nat, hi: nat): (j: Option<nat>)
    requires lo <= hi <= |s|
    ensures j.Some? ==> lo <= j.value < hi && s[j.value] == '\n'
    ensures j.None? ==> forall k | lo <= k < hi :: s[k] != '\n'
  {
    if lo == hi then None
    else if s[hi - 1] == '\n' then Some(hi - 1)
    else LastNewline(s, lo, hi - 1)
  }

  /** Two newlines with only whitespace between them. */
  predicate BlankLineAt(s: string, a: nat, b: nat) {
    a < b < |s| && s[a] == '\n' == s[b] && forall k | a < k < b :: IsSpace(s[k])
  }

  /** The leftmost match of `\n\s*\n` from i on, as long as it gets. */
  function FindBlankLine(s: string, i: nat): (m: Option<Span>)
    requires i <= |s|
    ensures m.Some? ==> i <= m.value.lo < m.value.hi <= |s| && BlankLineAt(s, m.value.lo, m.value.hi - 1)
    ensures forall a, b | i <= a < (if m.Some? then m.value.lo else |s|) :: !BlankLineAt(s, a, b)
    decreases |s| - i
  {
    if i == |s| then None
    else if s[i] == '\n' then
      match LastNewline(s, i + 1, RunEnd(s, i + 1))
      case Some(j) => Some(Span(i, j + 1))
      case None => FindBlankLine(s, i + 1)
    else FindBlankLine(s, i + 1)
  }

  /** `re.split(r"\n\s*\n", s)` */
  function SplitBlank(s: string): seq<string> {
    match FindBlankLine(s, 0)
    case None => [s]
    case Some(m) => [s[..m.lo]] + SplitBlank(s[m.hi..])
  }

  /** `[p.strip() for p in parts if p.strip()]` */
  function Stripped(parts: seq<string>): (ps: seq<string>)
    ensures forall i | 0 <= i < |ps| :: ps[i] != ""
  {
    if parts == [] then []
    else (if Strip(parts[0]) != "" then [Strip(parts[0])] else []) + Stripped(parts[1..])
  }

  function Paragraphs(body: string): (ps: seq<string>)
    ensures forall i | 0 <= i < |ps| :: ps[i] != ""
  {
    Stripped(SplitBlank(body))
  }

  // ---- chunks -----------------------------------------------------------------------

  datatype Chunk = Chunk(text: string, path: seq<string>)

  predicate IsHeadingLine(line: string) {
    ParseHeading(line).Some?
  }

  /** A paragraph made of heading lines only. */
  predicate AllHeadings(p: string) {
    forall l | l in SplitLines(p) :: IsHeadingLine(l)
  }

  /** How many paragraphs the heading prefix takes. */
  function LeadingHeadings(ps: seq<string>): (n: nat)
    ensures n <= |ps| && (forall i | 0 <= i < n :: AllHeadings(ps[i])) && (n < |ps| ==> !AllHeadings(ps[n]))
  {
    if ps != [] && AllHeadings(ps[0]) then 1 + LeadingHeadings(ps[1..]) else 0
  }

  /** The text of one piece: the heading paragraphs and then the window's, all
      joined by blank lines. */
  function PieceText(ps: seq<string>, n: nat, w: Span): string {
    if n <= |ps| && w.lo <= w.hi <= |ps| - n then Join(ps[..n] + ps[n..][w.lo..w.hi], "\n\n") else ""
  }

  function Pieces(ps: seq<string>, n: nat, ws: seq<Span>): seq<string> {
    seq(|ws|, i requires 0 <= i < |ws| => PieceText(ps, n, ws[i]))
  }

  function OversizePieces(body: string, target: int, overlap: int): seq<string> {
    var ps := Paragraphs(body);
    var n := LeadingHeadings(ps);
    Pieces(ps, n, Windows(ps[n..], target, overlap))
  }

  function SectionPieces(body: string, target: int, overlap: int): seq<string> {
    if |body| <= target then [body] else OversizePieces(body, target, overlap)
  }

  /** The pieces long enough to keep. */
  function Keep(pieces: seq<string>, path: seq<string>, minChars: int): seq<Chunk> {
    if pieces == [] then []
    else
      var last := pieces[|pieces| - 1];
      Keep(pieces[..|pieces| - 1], path, minChars) + if |last| >= minChars then [Chunk(last, path)] else []
  }

  function ChunksOf(sections: seq<Section>, target: int, overlap: int, minChars: int): seq<Chunk> {
    if sections == [] then []
    else
      var s := sections[|sections| - 1];
      ChunksOf(sections[..|sections| - 1], target, overlap, minChars)
      + Keep(SectionPieces(s.body, target, overlap), s.path, minChars)
  }

  function Sections(text: string): seq<Section> {
    var lines := SplitLines(text);
    NonEmpty(SectionsOf(lines, Spans(Headings(lines))))
  }

  method SplitMarkdown(text: string, target: int, overlap: int, minChars: int) returns (out: seq<Chunk>)
    ensures out == ChunksOf(Sections(text), target, overlap, minChars)
  {
    out := [];
    var sections := ParseSections(SplitLines(text));
    for k := 0 to |sections|
      invariant out == ChunksOf(sections[..k], target, overlap, minChars)
    {
      NextSection(sections, k, target, overlap, minChars);
      var s := sections[k];
      if |s.body| <= target {
        KeepOne(s.body, s.path, minChars);
        if |s.body| >= minChars {
          out := out + [Chunk(s.body, s.path)];
        }
      } else {
        var more := SplitSection(s.path, s.body, target, overlap, minChars);
        out := out + more;
      }
    }
    assert sections[..|sections|] == sections;
  }

  method SplitSection(path: seq<string>, body: string, target: int, overlap: int, minChars: int)
      returns (out: seq<Chunk>)
    ensures out == Keep(OversizePieces(body, target, overlap), path, minChars)
  {
    ghost var all := Paragraphs(body);
    StrippedFacts(SplitBlank(body));
    ghost var n := LeadingHeadings(all);
    var prefix, ps := TakePrefix(Paragraphs(body));
    var pieces := SplitParagraphs(ps, target, overlap);
    ghost var ws := Windows(ps, target, overlap);
    WindowsCover(ps, target, overlap);
    out := Emit(all, n, ws, prefix, pieces, path, minChars);
  }

  /** The loop that moves leading heading paragraphs into the prefix. */
  method TakePrefix(paragraphs: seq<string>) returns (prefix: string, ps: seq<string>)
    requires forall p | p in paragraphs :: Clean(p)
    ensures var n := LeadingHeadings(paragraphs);
      prefix == Join(paragraphs[..n], "\n\n") && ps == paragraphs[n..]
  {
    ghost var n := 0;
    prefix, ps := "", paragraphs;
    while ps != [] && AllHeadings(ps[0])
      invariant n <= |paragraphs| && ps == paragraphs[n..] && prefix == Join(paragraphs[..n], "\n\n")
      invariant n + LeadingHeadings(ps) == LeadingHeadings(paragraphs)
      decreases |ps|
    {
      JoinLast(paragraphs, n);
      StripJoin(paragraphs[..n], paragraphs[n]);
      prefix := Strip(prefix + "\n\n" + ps[0]);
      ps := ps[1..];
      n := n + 1;
    }
  }

  method Emit(ghost all: seq<string>, ghost n: nat, ghost ws: seq<Span>, prefix: string,
              pieces: seq<string>, path: seq<string>, minChars: int) returns (out: seq<Chunk>)
    requires n <= |all| && (forall p | p in all :: Clean(p))
    requires forall w | w in ws :: w.lo < w.hi <= |all| - n
    requires prefix == Join(all[..n], "\n\n") && pieces == WindowTexts(all[n..], ws)
    ensures out == Keep(Pieces(all, n, ws), path, minChars)
  {
    ghost var texts := Pieces(all, n, ws);
    out := [];
    for k := 0 to |pieces|
      invariant out == Keep(texts[..k], path, minChars)
    {
      KeepNext(texts, k, path, minChars);
      PrefixedPiece(all, n, ws[k]);
      var full := if prefix != "" then Strip(prefix + "\n\n" + pieces[k]) else pieces[k];
      if |full| >= minChars {
        out := out + [Chunk(full, path)];
      }
    }
    assert texts[..|texts|] == texts;
  }

  lemma NextSection(sections: seq<Section>, k: nat, target: int, overlap: int, minChars: int)
    requires k < |sections|
    ensures ChunksOf(sections[..k + 1], target, overlap, minChars)
         == ChunksOf(sections[..k], target, overlap, minChars)
            + Keep(SectionPieces(sections[k].body, target, overlap), sections[k].path, minChars)
  {
    assert sections[..k + 1][..k] == sections[..k];
  }

  lemma KeepOne(piece: string, path: seq<string>, minChars: int)
    ensures Keep([piece], path, minChars) == if |piece| >= minChars then [Chunk(piece, path)] else []
  {
    assert [piece][..0] == [];
  }

  lemma KeepNext(pieces: seq<string>, k: nat, path: seq<string>, minChars: int)
    requires k < |pieces|
    ensures Keep(pieces[..k + 1], path, minChars)
         == Keep(pieces[..k], path, minChars) + if |pieces[k]| >= minChars then [Chunk(pieces[k], path)] else []
  {
    assert pieces[..k + 1][..k] == pieces[..k];
  }

  // ---- joining stripped paragraphs ------------------------------------------------------

  lemma {:induction false} StrippedFacts(parts: seq<string>)
    ensures forall p | p in Stripped(parts) :: Clean(p)
  {
    if parts != [] {
      var lo, hi := TrimFacts(IsSpace, parts[0]);
      StrippedFacts(parts[1..]);
    }
  }

  lemma JoinLast(ps: seq<string>, n: nat)
    requires n < |ps|
    ensures Join(ps[..n + 1], "\n\n") == if n == 0 then ps[0] else Join(ps[..n], "\n\n") + "\n\n" + ps[n]
  {
    assert ps[..n + 1][..n] == ps[..n];
  }

  lemma {:induction false} JoinClean(ps: seq<string>)
    requires ps != [] && forall p | p in ps :: Clean(p)
    ensures Clean(Join(ps, "\n\n"))
  {
    if |ps| > 1 {
      var front, last := ps[..|ps| - 1], ps[|ps| - 1];
      JoinClean(front);
      var j := Join(ps, "\n\n");
      assert last in ps && ps[0] in ps;
      assert j[0] == Join(front, "\n\n")[0] && j[|j| - 1] == last[|last| - 1];
    } else {
      assert ps[0] in ps;
    }
  }

  /** Stripping after each append is the same as joining. */
  lemma StripJoin(ps: seq<string>, p: string)
    requires Clean(p) && forall q | q in ps :: Clean(q)
    ensures Strip(Join(ps, "\n\n") + "\n\n" + p) == if ps == [] then p else Join(ps, "\n\n") + "\n\n" + p
  {
    var j := Join(ps, "\n\n");
    if ps == [] {
      assert "" + "\n\n" + p == "\n\n" + p + "";
      TrimInside(IsSpace, "\n\n", p, "");
    } else {
      JoinClean(ps);
      var whole := j + "\n\n" + p;
      assert whole[0] == j[0] && whole[|whole| - 1] == p[|p| - 1];
      TrimTrimmed(IsSpace, whole);
    }
  }

  lemma {:induction false} JoinConcat(a: seq<string>, b: seq<string>)
    requires a != [] && b != []
    ensures Join(a + b, "\n\n") == Join(a, "\n\n") + "\n\n" + Join(b, "\n\n")
  {
    var ab := a + b;
    if |b| == 1 {
      assert ab[..|ab| - 1] == a;
    } else {
      JoinConcat(a, b[..|b| - 1]);
      assert ab[..|ab| - 1] == a + b[..|b| - 1];
    }
  }

  lemma PrefixedPiece(ps: seq<string>, n: nat, w: Span)
    requires n <= |ps| && w.lo < w.hi <= |ps| - n && forall p | p in ps :: Clean(p)
    ensures var prefix, piece := Join(ps[..n], "\n\n"), WindowText(ps[n..], w);
      PieceText(ps, n, w) == if prefix != "" then Strip(prefix + "\n\n" + piece) else piece
  {
    var front, back := ps[..n], ps[n..][w.lo..w.hi];
    JoinClean(back);
    if n > 0 {
      JoinClean(front);
      JoinConcat(front, back);
      StripJoin(front, Join(back, "\n\n"));
    } else {
      assert front + back == back;
    }
  }

  // ---- what the chunks promise ------------------------------------------------------------

  lemma {:induction false} KeepExactly(pieces: seq<string>, path: seq<string>, minChars: int, c: Chunk)
    ensures c in Keep(pieces, path, minChars) <==> c.text in pieces && |c.text| >= minChars && c.path == path
  {
    if pieces != [] {
      KeepExactly(pieces[..|pieces| - 1], path, minChars, c);
      assert pieces == pieces[..|pieces| - 1] + [pieces[|pieces| - 1]];
    }
  }

  /** c is a long enough piece of s, under its path. */
  predicate PieceOf(s: Section, target: int, overlap: int, minChars: int, c: Chunk) {
    c.path == s.path && |c.text| >= minChars && c.text in SectionPieces(s.body, target, overlap)
  }

  ghost predicate FromSection(sections: seq<Section>, target: int, overlap: int, minChars: int, c: Chunk) {
    exists i | 0 <= i < |sections| :: PieceOf(sections[i], target, overlap, minChars, c)
  }

  lemma FromLastSection(sections: seq<Section>, target: int, overlap: int, minChars: int, c: Chunk)
    requires sections != []
    ensures FromSection(sections, target, overlap, minChars, c)
       <==> FromSection(sections[..|sections| - 1], target, overlap, minChars, c)
            || PieceOf(sections[|sections| - 1], target, overlap, minChars, c)
  {
    var front := sections[..|sections| - 1];
    assert forall i | 0 <= i < |front| :: front[i] == sections[i];
    assert forall i | 0 <= i < |sections| :: i < |front| || sections[i] == sections[|sections| - 1];
  }

  /** The chunks are exactly the long enough pieces of the sections. */
  lemma {:induction false} ChunksExactly(sections: seq<Section>, target: int, overlap: int, minChars: int, c: Chunk)
    ensures c in ChunksOf(sections, target, overlap, minChars) <==> FromSection(sections, target, overlap, minChars, c)
  {
    if sections != [] {
      var front, s := sections[..|sections| - 1], sections[|sections| - 1];
      ChunksExactly(front, target, overlap, minChars, c);
      KeepExactly(SectionPieces(s.body, target, overlap), s.path, minChars, c);
      FromLastSection(sections, target, overlap, minChars, c);
    }
  }

  lemma {:induction false} KeepConcat(a: seq<string>, b: seq<string>, path: seq<string>, minChars: int)
    ensures Keep(a + b, path, minChars) == Keep(a, path, minChars) + Keep(b, path, minChars)
  {
    if b == [] {
      assert a + b == a;
    } else {
      KeepConcat(a, b[..|b| - 1], path, minChars);
      assert (a + b)[..|a + b| - 1] == a + b[..|b| - 1];
    }
  }

  /** Chunks are in document order: those of the first k + 1 sections come first,
      and they end with section k's ... */
  lemma {:induction false} DocumentOrder(sections: seq<Section>, k: nat, target: int, overlap: int, minChars: int)
    requires k < |sections|
    ensures ChunksOf(sections[..k + 1], target, overlap, minChars) <= ChunksOf(sections, target, overlap, minChars)
    ensures ChunksOf(sections[..k + 1], target, overlap, minChars)
         == ChunksOf(sections[..k], target, overlap, minChars)
            + Keep(SectionPieces(sections[k].body, target, overlap), sections[k].path, minChars)
    decreases |sections| - k
  {
    NextSection(sections, k, target, overlap, minChars);
    if k + 1 < |sections| {
      DocumentOrder(sections, k + 1, target, overlap, minChars);
    } else {
      assert sections[..k + 1] == sections;
    }
  }

  /** ... while in a section those of earlier pieces do. */
  lemma SectionOrder(s: Section, target: int, overlap: int, minChars: int, p: seq<string>, q: seq<string>)
    requires SectionPieces(s.body, target, overlap) == p + q
    ensures ChunksOf([s], target, overlap, minChars) == Keep(p, s.path, minChars) + Keep(q, s.path, minChars)
  {
    var all := [s];
    assert all[..|all| - 1] == [];
    KeepConcat(p, q, s.path, minChars);
  }

  /** The size a piece of a section may have. */
  function PieceLimit(body: string, target: int, overlap: int): int {
    if |body| <= target then target
    else
      var ps := Paragraphs(body);
      var n := LeadingHeadings(ps);
      Bound(ps[n..], target, overlap) + if n > 0 then |Join(ps[..n], "\n\n")| + 2 else 0
  }

  lemma PrefixedLength(ps: seq<string>, n: nat, w: Span)
    requires n <= |ps| && w.lo < w.hi <= |ps| - n
    ensures |PieceText(ps, n, w)| == |WindowText(ps[n..], w)| + if n > 0 then |Join(ps[..n], "\n\n")| + 2 else 0
  {
    var front, back := ps[..n], ps[n..][w.lo..w.hi];
    if n > 0 {
      JoinConcat(front, back);
    } else {
      assert front + back == back;
    }
  }

  lemma OversizeLimit(body: string, target: int, overlap: int, k: nat)
    requires k < |OversizePieces(body, target, overlap)| && |body| > target
    ensures |OversizePieces(body, target, overlap)[k]| <= PieceLimit(body, target, overlap)
  {
    var ps := Paragraphs(body);
    var n := LeadingHeadings(ps);
    var rest := ps[n..];
    var ws := Windows(rest, target, overlap);
    WindowsCover(rest, target, overlap);
    PrefixedLength(ps, n, ws[k]);
    assert forall j | 0 <= j < |rest| :: rest[j] != "";
    PieceBound(rest, target, overlap, k);
  }

  /** A piece of an oversize section ends only where the next paragraph would take
      its window over the target. */
  lemma PiecesAreFull(body: string, target: int, overlap: int, k: nat) returns (w: Span)
    requires k + 1 < |OversizePieces(body, target, overlap)|
    ensures var ps := Paragraphs(body);
      var n := LeadingHeadings(ps);
      && w.lo < w.hi < |ps| - n && PieceText(ps, n, w) == OversizePieces(body, target, overlap)[k]
      && |WindowText(ps[n..], w)| + 2 + |ps[n + w.hi]| > target
  {
    var ps := Paragraphs(body);
    var n := LeadingHeadings(ps);
    var rest := ps[n..];
    w := Windows(rest, target, overlap)[k];
    assert forall j | 0 <= j < |rest| :: rest[j] != "";
    WindowsFull(rest, target, overlap, k);
  }

  /** Every chunk belongs to a section, carries that section's heading path, and
      is neither shorter than `min_chars` nor longer than the section's limit. */
  lemma ChunkSizes(text: string, target: int, overlap: int, minChars: int, c: Chunk) returns (i: nat)
    requires c in ChunksOf(Sections(text), target, overlap, minChars)
    ensures i < |Sections(text)| && c.path == Sections(text)[i].path
    ensures minChars <= |c.text| <= PieceLimit(Sections(text)[i].body, target, overlap)
  {
    var sections := Sections(text);
    ChunksExactly(sections, target, overlap, minChars, c);
    i :| 0 <= i < |sections| && PieceOf(sections[i], target, overlap, minChars, c);
    PieceWithinLimit(sections[i].body, target, overlap, c.text);
  }

  lemma PieceWithinLimit(body: string, target: int, overlap: int, piece: string)
    requires piece in SectionPieces(body, target, overlap)
    ensures |piece| <= PieceLimit(body, target, overlap)
  {
    if |body| > target {
      var pieces := OversizePieces(body, target, overlap);
      var k :| 0 <= k < |pieces| && pieces[k] == piece;
      OversizeLimit(body, target, overlap, k);
    }
  }

  /** Every paragraph of an oversize section after its heading prefix is whole
      in a piece, and that piece is a chunk unless it is too short. */
  lemma ParagraphKept(sections: seq<Section>, i: nat, j: nat, target: int, overlap: int, minChars: int)
      returns (w: Span)
    requires i < |sections| && |sections[i].body| > target
    requires j < |Paragraphs(sections[i].body)| - LeadingHeadings(Paragraphs(sections[i].body))
    ensures var ps := Paragraphs(sections[i].body);
      var n := LeadingHeadings(ps);
      var piece := PieceText(ps, n, w);
      && w.lo <= j < w.hi <= |ps| - n
      && (|piece| >= minChars ==> Chunk(piece, sections[i].path) in ChunksOf(sections, target, overlap, minChars))
  {
    var ps := Paragraphs(sections[i].body);
    var n := LeadingHeadings(ps);
    var ws := Windows(ps[n..], target, overlap);
    WindowsCover(ps[n..], target, overlap);
    assert InSomeWindow(ws, j);
    var k :| 0 <= k < |ws| && ws[k].lo <= j < ws[k].hi;
    w := ws[k];
    var c := Chunk(PieceText(ps, n, w), sections[i].path);
    assert Pieces(ps, n, ws)[k] == c.text;
    ChunksExactly(sections, target, overlap, minChars, c);
    assert |c.text| >= minChars ==> PieceOf(sections[i], target, overlap, minChars, c);
  }

  /** An oversize section yields nothing exactly when all its paragraphs look
      like headings: the prefix is only ever put on a piece. */
  lemma HeadingOnlySectionsVanish(body: string, target: int, overlap: int)
    ensures OversizePieces(body, target, overlap) == [] <==> forall p | p in Paragraphs(body) :: AllHeadings(p)
  {
    var ps := Paragraphs(body);
    var n := LeadingHeadings(ps);
    WindowsCover(ps[n..], target, overlap);
    if n < |ps| {
      assert ps[n] in ps;
    }
  }

  // ---- the paragraph splitter ----------------------------------------------------------------

  /** The characters that are not whitespace. */
  function Ink(s: string): string {
    if s == "" then "" else (if IsSpace(s[0]) then "" else [s[0]]) + Ink(s[1..])
  }

  function InkOfAll(parts: seq<string>): string {
    if parts == [] then "" else Ink(parts[0]) + InkOfAll(parts[1..])
  }

  lemma {:induction false} InkConcat(a: string, b: string)
    ensures Ink(a + b) == Ink(a) + Ink(b)
  {
    if a == "" {
      assert a + b == b;
    } else {
      assert (a + b)[1..] == a[1..] + b;
      InkConcat(a[1..], b);
    }
  }

  lemma {:induction false} InkBlank(s: string)
    requires Blank(IsSpace, s)
    ensures Ink(s) == ""
  {
    if s != "" {
      InkBlank(s[1..]);
    }
  }

  lemma InkThree(a: string, b: string, c: string)
    ensures Ink(a + b + c) == Ink(a) + Ink(b) + Ink(c)
  {
    InkConcat(a, b);
    InkConcat(a + b, c);
  }

  lemma InkStrip(s: string)
    ensures Ink(Strip(s)) == Ink(s)
  {
    var lo, hi := TrimFacts(IsSpace, s);
    InkBlank(s[..lo]);
    InkBlank(s[hi..]);
    InkThree(s[..lo], s[lo..hi], s[hi..]);
    assert s[..lo] + s[lo..hi] + s[hi..] == s;
  }

  lemma {:induction false} InkStripped(parts: seq<string>)
    ensures InkOfAll(Stripped(parts)) == InkOfAll(parts)
  {
    if parts != [] {
      InkStrip(parts[0]);
      InkStripped(parts[1..]);
      var p, rest := Strip(parts[0]), Stripped(parts[1..]);
      assert ([p] + rest)[1..] == rest;
      assert Stripped(parts) == if p != "" then [p] + rest else rest;
    }
  }

  lemma InkOfCons(p: string, rest: seq<string>)
    ensures InkOfAll([p] + rest) == Ink(p) + InkOfAll(rest)
  {
    assert ([p] + rest)[1..] == rest;
  }

  lemma InkAround(s: string, a: string, b: string, c: string)
    requires s == a + b + c && Blank(IsSpace, b)
    ensures Ink(s) == Ink(a) + Ink(c)
  {
    InkBlank(b);
    InkThree(a, b, c);
    assert Ink(a) + "" == Ink(a);
  }

  /** The text before the first blank line, the blank line, and the rest. */
  lemma CutAtBlankLine(s: string, m: Span) returns (a: string, b: string, c: string)
    requires FindBlankLine(s, 0) == Some(m)
    ensures s == a + b + c && Blank(IsSpace, b) && |c| < |s|
    ensures a == s[..m.lo] && c == s[m.hi..]
  {
    a, b, c := s[..m.lo], s[m.lo..m.hi], s[m.hi..];
    CutThree(s, m.lo, m.hi);
  }

  lemma CutThree(s: string, lo: nat, hi: nat)
    requires lo <= hi <= |s|
    ensures s == s[..lo] + s[lo..hi] + s[hi..]
  {}

  lemma {:induction false} InkSplit(s: string)
    ensures InkOfAll(SplitBlank(s)) == Ink(s)
    decreases |s|
  {
    match FindBlankLine(s, 0)
    case None =>
      InkOfCons(s, []);
    case Some(m) =>
      var a, b, c := CutAtBlankLine(s, m);
      InkSplit(c);
      InkAround(s, a, b, c);
      InkOfCons(a, SplitBlank(c));
  }

  ghost predicate HasBlankLine(s: string) {
    exists a, b :: BlankLineAt(s, a, b)
  }

  lemma BlankLineInPart(s: string, lo: nat, hi: nat, a: nat, b: nat)
    requires lo <= hi <= |s| && BlankLineAt(s[lo..hi], a, b)
    ensures BlankLineAt(s, lo + a, lo + b)
  {
    assert forall k | lo + a < k < lo + b :: s[k] == s[lo..hi][k - lo];
  }

  lemma PartHasNoBlankLine(s: string, lo: nat, hi: nat)
    requires lo <= hi <= |s| && forall a: nat, b: nat | lo <= a < hi && b < hi :: !BlankLineAt(s, a, b)
    ensures !HasBlankLine(s[lo..hi])
  {
    if HasBlankLine(s[lo..hi]) {
      var a: nat, b: nat :| BlankLineAt(s[lo..hi], a, b);
      BlankLineInPart(s, lo, hi, a, b);
    }
  }

  lemma {:induction false} SplitHasNoBlankLine(s: string)
    ensures forall p | p in SplitBlank(s) :: !HasBlankLine(p)
    decreases |s|
  {
    var m := FindBlankLine(s, 0);
    var end := if m.Some? then m.value.lo else |s|;
    PartHasNoBlankLine(s, 0, end);
    assert s[0..end] == if m.Some? then s[..end] else s;
    if m.Some? {
      SplitHasNoBlankLine(s[m.value.hi..]);
    }
  }

  lemma {:induction false} StrippedHasNoBlankLine(parts: seq<string>)
    requires forall p | p in parts :: !HasBlankLine(p)
    ensures forall p | p in Stripped(parts) :: !HasBlankLine(p)
  {
    if parts != [] {
      StrippedHasNoBlankLine(parts[1..]);
      var s := parts[0];
      assert s in parts;
      var lo, hi := TrimFacts(IsSpace, s);
      PartHasNoBlankLine(s, lo, hi);
    }
  }

  /** Paragraphs are what blank lines separate: stripped, never empty, with no
      blank line inside, and together all the text but whitespace, in order. */
  lemma ParagraphsOfBody(body: string)
    ensures var ps := Paragraphs(body);
      && InkOfAll(ps) == Ink(body)
      && forall p | p in ps :: Clean(p) && !HasBlankLine(p)
  {
    var parts := SplitBlank(body);
    InkStripped(parts);
    InkSplit(body);
    StrippedFacts(parts);
    SplitHasNoBlankLine(body);
    StrippedHasNoBlankLine(parts);
  }
}
