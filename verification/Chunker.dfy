/** py-processor/chunker.py: sections under a heading stack, oversize sections
    split on paragraphs with a carried tail. */
module Chunker {
  import opened Wrappers
  import opened Text
  import opened Outline

  // ---- headings -----------------------------------------------------------------

  function LeadingHashes(line: string): nat {
    if line != [] && line[0] == '#' then 1 + LeadingHashes(line[1..]) else 0
  }

  /** `^(#{1,6})\s+(.*\S)\s*$` */
  function ParseHeading(line: string): Option<Heading> {
    var n := LeadingHashes(line);
    if 1 <= n <= 6 && n < |line| && IsSpace(line[n]) && Strip(line[n..]) != "" then
      Some(Heading(n, Strip(line[n..])))
    else None
  }

  function Hashes(n: nat): (s: string)
    ensures |s| == n && forall i | 0 <= i < n :: s[i] == '#'
  {
    seq(n, _ => '#')
  }

  /** One to six hashes, whitespace, a title that neither begins nor ends with
      whitespace, whitespace. */
  predicate HeadingText(line: string, n: nat, title: string, gap: string, rest: string) {
    && 1 <= n <= 6 && line == Hashes(n) + gap + title + rest
    && gap != "" && Blank(IsSpace, gap) && Clean(title) && Blank(IsSpace, rest)
  }

  lemma {:induction false} HashCount(n: nat, tail: string)
    requires tail == "" || tail[0] != '#'
    ensures LeadingHashes(Hashes(n) + tail) == n
  {
    var line := Hashes(n) + tail;
    if n == 0 {
      assert line == tail;
    } else {
      HashCount(n - 1, tail);
      assert line[1..] == Hashes(n - 1) + tail;
    }
  }

  lemma {:induction false} LeadingAreHashes(line: string)
    ensures LeadingHashes(line) <= |line| && line[..LeadingHashes(line)] == Hashes(LeadingHashes(line))
  {
    if line != [] && line[0] == '#' {
      LeadingAreHashes(line[1..]);
    }
  }

  /** A line is a heading of this level and title if and only if it reads like one. */
  lemma HeadingExactly(line: string, h: Heading)
    ensures ParseHeading(line) == Some(h) <==> exists gap, rest :: HeadingText(line, h.level, h.title, gap, rest)
  {
    if ParseHeading(line) == Some(h) {
      var gap, rest := HeadingReads(line, h);
    }
    forall gap, rest | HeadingText(line, h.level, h.title, gap, rest)
      ensures ParseHeading(line) == Some(h)
    {
      HeadingParses(line, h, gap, rest);
    }
  }

  lemma HeadingReads(line: string, h: Heading) returns (gap: string, rest: string)
    requires ParseHeading(line) == Some(h)
    ensures HeadingText(line, h.level, h.title, gap, rest)
  {
    var n := h.level;
    LeadingAreHashes(line);
    var tail := line[n..];
    var lo, hi := TrimFacts(IsSpace, tail);
    gap, rest := tail[..lo], tail[hi..];
    assert tail == gap + h.title + rest;
    assert line == line[..n] + tail;
    assert line == Hashes(n) + gap + h.title + rest;
  }

  lemma HeadingParses(line: string, h: Heading, gap: string, rest: string)
    requires HeadingText(line, h.level, h.title, gap, rest)
    ensures ParseHeading(line) == Some(h)
  {
    var n, tail := h.level, gap + h.title + rest;
    assert line == Hashes(n) + tail;
    assert IsSpace(gap[0]) && tail[0] == gap[0];
    HashCount(n, tail);
    assert line[n..] == tail && line[n] == tail[0];
    TrimInside(IsSpace, gap, h.title, rest);
  }

  function Headings(lines: seq<string>): (doc: Doc)
    ensures |doc| == |lines|
  {
    seq(|lines|, i requires 0 <= i < |lines| => ParseHeading(lines[i]))
  }

  function Titles(doc: Doc, stack: seq<nat>): seq<string> {
    seq(|stack|, q requires 0 <= q < |stack| => if IsHeading(doc, stack[q]) then doc[stack[q]].value.title else "")
  }

  // ---- sections -------------------------------------------------------------------

  datatype Section = Section(path: seq<string>, body: string)

  /** Lines lo to hi - 1. */
  datatype Span = Span(lo: nat, hi: nat)

  /** Where the section being read after k lines starts. */
  function Start(doc: Doc, k: nat): (lo: nat)
    requires k <= |doc|
    ensures lo <= k && (k > 0 ==> lo < k)
  {
    if k == 0 then 0 else if doc[k - 1].Some? then k - 1 else Start(doc, k - 1)
  }

  /** The sections finished after k lines. */
  function Finished(doc: Doc, k: nat): seq<Span>
    requires k <= |doc|
  {
    if k == 0 then []
    else if doc[k - 1].Some? && k > 1 then Finished(doc, k - 1) + [Span(Start(doc, k - 1), k - 1)]
    else Finished(doc, k - 1)
  }

  function Spans(doc: Doc): seq<Span> {
    Finished(doc, |doc|) + if |doc| > 0 then [Span(Start(doc, |doc|), |doc|)] else []
  }

  function SpanText(lines: seq<string>, s: Span): string {
    if s.lo <= s.hi <= |lines| then Join(lines[s.lo..s.hi], "\n") else ""
  }

  function SectionOf(lines: seq<string>, s: Span): Section {
    var doc := Headings(lines);
    Section(if s.hi <= |doc| then Titles(doc, Stack(doc, s.hi)) else [], Strip(SpanText(lines, s)))
  }

  function SectionsOf(lines: seq<string>, spans: seq<Span>): seq<Section> {
    seq(|spans|, i requires 0 <= i < |spans| => SectionOf(lines, spans[i]))
  }

  function NonEmpty(sections: seq<Section>): seq<Section> {
    if sections == [] then []
    else
      var s := sections[|sections| - 1];
      NonEmpty(sections[..|sections| - 1]) + if s.body != "" then [s] else []
  }

  /** What the loop variables hold after k lines. */
  predicate Parsing(lines: seq<string>, k: nat, path: seq<string>, all: seq<Section>, current: seq<string>)
    requires k <= |lines|
  {
    var doc := Headings(lines);
    && path == Titles(doc, Stack(doc, k))
    && all == SectionsOf(lines, Finished(doc, k))
    && current == lines[Start(doc, k)..k]
  }

  method ParseSections(lines: seq<string>) returns (sections: seq<Section>)
    ensures sections == NonEmpty(SectionsOf(lines, Spans(Headings(lines))))
  {
    var path, all, current := [], [], [];
    for k := 0 to |lines|
      invariant Parsing(lines, k, path, all, current)
    {
      var heading := ParseHeading(lines[k]);
      ParseLine(lines, k, path, all, current);
      if heading.Some? {
        if current != [] {
          all := all + [Section(path, Strip(Join(current, "\n")))];
        }
        path := Cut(path, heading.value.level) + [heading.value.title];
        current := [lines[k]];
      } else {
        current := current + [lines[k]];
      }
    }
    ParseEnd(lines, path, all, current);
    if current != [] {
      all := all + [Section(path, Strip(Join(current, "\n")))];
    }
    sections := DropEmpty(all);
  }

  function Closed(path: seq<string>, all: seq<Section>, current: seq<string>): seq<Section> {
    if current != [] then all + [Section(path, Strip(Join(current, "\n")))] else all
  }

  lemma ParseLine(lines: seq<string>, k: nat, path: seq<string>, all: seq<Section>, current: seq<string>)
    requires k < |lines| && Parsing(lines, k, path, all, current)
    ensures
      match ParseHeading(lines[k])
      case None => Parsing(lines, k + 1, path, all, current + [lines[k]])
      case Some(h) => Parsing(lines, k + 1, Cut(path, h.level) + [h.title], Closed(path, all, current), [lines[k]])
  {
    var doc := Headings(lines);
    assert doc[k] == ParseHeading(lines[k]);
    if doc[k].Some? {
      PushTitle(doc, k);
      if k > 0 {
        CloseSection(lines, k);
      }
    }
  }

  lemma ParseEnd(lines: seq<string>, path: seq<string>, all: seq<Section>, current: seq<string>)
    requires Parsing(lines, |lines|, path, all, current)
    ensures Closed(path, all, current) == SectionsOf(lines, Spans(Headings(lines)))
  {
    if |lines| > 0 {
      CloseSection(lines, |lines|);
    }
  }

  lemma SectionsAppend(lines: seq<string>, spans: seq<Span>, s: Span)
    ensures SectionsOf(lines, spans + [s]) == SectionsOf(lines, spans) + [SectionOf(lines, s)]
  {}

  /** Appending the section that ends before line k. */
  lemma CloseSection(lines: seq<string>, k: nat)
    requires 0 < k <= |lines|
    ensures var doc := Headings(lines);
      SectionsOf(lines, Finished(doc, k) + [Span(Start(doc, k), k)])
      == SectionsOf(lines, Finished(doc, k))
         + [Section(Titles(doc, Stack(doc, k)), Strip(Join(lines[Start(doc, k)..k], "\n")))]
  {
    var doc := Headings(lines);
    SectionsAppend(lines, Finished(doc, k), Span(Start(doc, k), k));
  }

  lemma PushTitle(doc: Doc, k: nat)
    requires k < |doc| && doc[k].Some?
    ensures Titles(doc, Stack(doc, k + 1))
         == Cut(Titles(doc, Stack(doc, k)), doc[k].value.level) + [doc[k].value.title]
  {
    assert Stack(doc, k + 1) == Kept(doc, k) + [k];
  }

  /** `[(p, b) for p, b in sections if b]` */
  method DropEmpty(all: seq<Section>) returns (sections: seq<Section>)
    ensures sections == NonEmpty(all)
  {
    sections := [];
    for k := 0 to |all|
      invariant sections == NonEmpty(all[..k])
    {
      assert all[..k + 1][..k] == all[..k];
      if all[k].body != "" {
        sections := sections + [all[k]];
      }
    }
    assert all[..|all|] == all;
  }

  /** Consecutive, non-empty spans from lo to hi. */
  predicate Tiles(spans: seq<Span>, lo: nat, hi: nat) {
    if spans == [] then lo == hi
    else
      var last := spans[|spans| - 1];
      last.hi == hi && last.lo < hi && Tiles(spans[..|spans| - 1], lo, last.lo)
  }

  /** Only the first line of a span may be a heading. */
  ghost predicate HeadedOnlyAtTop(doc: Doc, s: Span) {
    forall i: nat | s.lo < i < s.hi :: !IsHeading(doc, i)
  }

  lemma {:induction false} FinishedTiles(doc: Doc, k: nat)
    requires k <= |doc|
    ensures Tiles(Finished(doc, k), 0, Start(doc, k))
    ensures HeadedOnlyAtTop(doc, Span(Start(doc, k), k))
    ensures forall s | s in Finished(doc, k) :: HeadedOnlyAtTop(doc, s)
  {
    if k > 0 {
      FinishedTiles(doc, k - 1);
      if doc[k - 1].Some? && k > 1 {
        var spans := Finished(doc, k);
        assert spans[..|spans| - 1] == Finished(doc, k - 1);
      }
    }
  }

  /** Every line is in exactly one section, in order, and a heading line only
      ever opens one; a section is dropped only when its lines are blank. */
  lemma SectionsPartition(lines: seq<string>)
    ensures var doc := Headings(lines);
      && Tiles(Spans(doc), 0, |lines|)
      && (forall s | s in Spans(doc) :: HeadedOnlyAtTop(doc, s))
      && (forall s | s in Spans(doc) :: SectionOf(lines, s).body == "" <==> Blank(IsSpace, SpanText(lines, s)))
  {
    var doc := Headings(lines);
    FinishedTiles(doc, |doc|);
    var spans := Spans(doc);
    if |lines| > 0 {
      assert spans[..|spans| - 1] == Finished(doc, |doc|);
    }
    forall s | s in spans
      ensures SectionOf(lines, s).body == "" <==> Blank(IsSpace, SpanText(lines, s))
    {
      TrimEmpty(IsSpace, SpanText(lines, s));
    }
  }

  /** Which of the first k sections have a body. */
  ghost function Bodied(all: seq<Section>, k: nat): set<nat>
    requires k <= |all|
  {
    set i | 0 <= i < k && all[i].body != ""
  }

  ghost predicate Ranked(all: seq<Section>, out: seq<Section>, k: nat)
    requires k < |all|
  {
    |Bodied(all, k)| < |out| && out[|Bodied(all, k)|] == all[k]
  }

  lemma BodiedMore(all: seq<Section>, k: nat)
    requires k < |all|
    ensures Bodied(all, k + 1) == Bodied(all, k) + if all[k].body != "" then {k} else {}
    ensures Bodied(all[..k], k) == Bodied(all, k)
  {}

  /** The sections with a body, in order: one comes after as many others as have a
      body before it, and there are no more. */
  lemma {:induction false} NonEmptyExactly(all: seq<Section>, n: nat)
    requires n <= |all|
    ensures |NonEmpty(all[..n])| == |Bodied(all, n)|
    ensures forall k | k in Bodied(all, n) :: Ranked(all, NonEmpty(all[..n]), k)
  {
    if n > 0 {
      NonEmptyExactly(all, n - 1);
      BodiedMore(all, n - 1);
      assert all[..n][..n - 1] == all[..n - 1];
    }
  }

  /** The spans among the first k whose lines are not all blank. */
  ghost function WithText(lines: seq<string>, spans: seq<Span>, k: nat): set<nat>
    requires k <= |spans|
  {
    set i | 0 <= i < k && !Blank(IsSpace, SpanText(lines, spans[i]))
  }

  lemma HaveBodies(lines: seq<string>, spans: seq<Span>, k: nat)
    requires k <= |spans|
    ensures WithText(lines, spans, k) == Bodied(SectionsOf(lines, spans), k)
  {
    forall i | 0 <= i < k
      ensures SectionOf(lines, spans[i]).body == "" <==> Blank(IsSpace, SpanText(lines, spans[i]))
    {
      TrimEmpty(IsSpace, SpanText(lines, spans[i]));
    }
  }

  /** The sections are the spans with text, in order: such a span's section comes
      after as many others as there are such spans before it, and there are no more. */
  lemma SectionsExactly(lines: seq<string>, spans: seq<Span>)
    ensures var sections := NonEmpty(SectionsOf(lines, spans));
      && |sections| == |WithText(lines, spans, |spans|)|
      && forall k | k in WithText(lines, spans, |spans|) ::
           && |WithText(lines, spans, k)| < |sections|
           && sections[|WithText(lines, spans, k)|] == SectionOf(lines, spans[k])
  {
    var all := SectionsOf(lines, spans);
    NonEmptyExactly(all, |all|);
    assert all[..|all|] == all;
    HaveBodies(lines, spans, |spans|);
    forall k | k in WithText(lines, spans, |spans|)
      ensures Ranked(all, NonEmpty(all), k) && |WithText(lines, spans, k)| == |Bodied(all, k)|
    {
      HaveBodies(lines, spans, k);
    }
  }

  // ---- oversize sections ---------------------------------------------------------------

  /** The carried size of paragraphs lo to hi - 1: two characters each on top. */
  function Size(ps: seq<string>, lo: nat, hi: nat): nat
    requires lo <= hi <= |ps|
    decreases hi - lo
  {
    if lo == hi then 0 else |ps[lo]| + 2 + Size(ps, lo + 1, hi)
  }

  /** `len("\n\n".join(ps[lo:hi]))` */
  function JoinedLen(ps: seq<string>, lo: nat, hi: nat): nat
    requires lo <= hi <= |ps|
  {
    if lo == hi then 0 else Size(ps, lo, hi) - 2
  }

  /** The packing loop's state: chunks so far, where the buffer starts, and the
      running `buf_len`. */
  datatype Packing = Packing(windows: seq<Span>, lo: nat, len: nat)

  /** The start of the longest tail of lo..hi that fits in `overlap`. */
  function CarryStart(ps: seq<string>, lo: nat, hi: nat, overlap: int): (c: nat)
    requires lo <= hi <= |ps|
    ensures lo <= c <= hi
    decreases hi - lo
  {
    if lo == hi || Size(ps, lo, hi) <= overlap then lo else CarryStart(ps, lo + 1, hi, overlap)
  }

  /** The packing once the buffer lo..k has been emitted and its tail carried. */
  function Flushed(ps: seq<string>, p: Packing, k: nat, overlap: int): Packing
    requires p.lo <= k <= |ps|
  {
    var lo := CarryStart(ps, p.lo, k, overlap);
    Packing(p.windows + [Span(p.lo, k)], lo, JoinedLen(ps, lo, k))
  }

  function Grown(p: Packing, para: string): Packing {
    p.(len := p.len + |para| + if p.len != 0 then 2 else 0)
  }

  function Pack(ps: seq<string>, k: nat, target: int, overlap: int): (p: Packing)
    requires k <= |ps|
    ensures p.lo <= k && (k > 0 ==> p.lo < k)
  {
    if k == 0 then Packing([], 0, 0)
    else
      var p := Pack(ps, k - 1, target, overlap);
      var full := p.lo < k - 1 && p.len + |ps[k - 1]| + 2 > target;
      Grown(if full then Flushed(ps, p, k - 1, overlap) else p, ps[k - 1])
  }

  function Windows(ps: seq<string>, target: int, overlap: int): seq<Span> {
    var p := Pack(ps, |ps|, target, overlap);
    p.windows + if |ps| > 0 then [Span(p.lo, |ps|)] else []
  }

  function WindowText(ps: seq<string>, w: Span): string {
    if w.lo <= w.hi <= |ps| then Join(ps[w.lo..w.hi], "\n\n") else ""
  }

  function WindowTexts(ps: seq<string>, ws: seq<Span>): seq<string> {
    seq(|ws|, i requires 0 <= i < |ws| => WindowText(ps, ws[i]))
  }

  /** What the loop variables hold after k paragraphs. */
  predicate Packed(ps: seq<string>, p: Packing, k: nat, buf: seq<string>, bufLen: int, chunks: seq<string>) {
    p.lo <= k <= |ps| && buf == ps[p.lo..k] && bufLen == p.len && chunks == WindowTexts(ps, p.windows)
  }

  lemma PackNext(ps: seq<string>, k: nat, target: int, overlap: int)
    requires k < |ps|
    ensures var p := Pack(ps, k, target, overlap);
      Pack(ps, k + 1, target, overlap)
      == Grown(if p.lo < k && p.len + |ps[k]| + 2 > target then Flushed(ps, p, k, overlap) else p, ps[k])
  {}

  lemma AppendText(ps: seq<string>, ws: seq<Span>, w: Span)
    requires w.lo <= w.hi <= |ps|
    ensures WindowTexts(ps, ws + [w]) == WindowTexts(ps, ws) + [Join(ps[w.lo..w.hi], "\n\n")]
  {}

  method SplitParagraphs(ps: seq<string>, target: int, overlap: int) returns (chunks: seq<string>)
    ensures chunks == WindowTexts(ps, Windows(ps, target, overlap))
  {
    chunks := [];
    var buf, bufLen := [], 0;
    for k := 0 to |ps|
      invariant Packed(ps, Pack(ps, k, target, overlap), k, buf, bufLen, chunks)
    {
      ghost var p := Pack(ps, k, target, overlap);
      PackNext(ps, k, target, overlap);
      if buf != [] && bufLen + |ps[k]| + 2 > target {
        chunks, buf, bufLen := Flush(ps, p, k, buf, bufLen, chunks, overlap);
        p := Flushed(ps, p, k, overlap);
      }
      AddParagraph(ps, p, k, buf, bufLen, chunks);
      buf := buf + [ps[k]];
      bufLen := bufLen + |ps[k]| + if bufLen != 0 then 2 else 0;
    }
    if buf != [] {
      ghost var p := Pack(ps, |ps|, target, overlap);
      AppendText(ps, p.windows, Span(p.lo, |ps|));
      chunks := chunks + [Join(buf, "\n\n")];
    }
  }

  lemma AddParagraph(ps: seq<string>, p: Packing, k: nat, buf: seq<string>, bufLen: int, chunks: seq<string>)
    requires k < |ps| && Packed(ps, p, k, buf, bufLen, chunks)
    ensures Packed(ps, Grown(p, ps[k]), k + 1, buf + [ps[k]], bufLen + |ps[k]| + if bufLen != 0 then 2 else 0, chunks)
  {}

  /** Emit the buffer and start the next one with its carried tail. */
  method Flush(ghost ps: seq<string>, ghost p: Packing, ghost k: nat, buf: seq<string>, bufLen: int,
               chunks: seq<string>, overlap: int) returns (chunks': seq<string>, buf': seq<string>, bufLen': int)
    requires Packed(ps, p, k, buf, bufLen, chunks)
    ensures Packed(ps, Flushed(ps, p, k, overlap), k, buf', bufLen', chunks')
  {
    AppendText(ps, p.windows, Span(p.lo, k));
    chunks' := chunks + [Join(buf, "\n\n")];
    buf' := Carry(ps, p.lo, k, buf, overlap);
    bufLen' := LenOf(ps, CarryStart(ps, p.lo, k, overlap), k, buf');
  }

  /** The inner loop: paragraphs off the end of `buf`, while they fit. */
  method Carry(ghost ps: seq<string>, ghost lo: nat, ghost hi: nat, buf: seq<string>, overlap: int)
      returns (carry: seq<string>)
    requires lo <= hi <= |ps| && buf == ps[lo..hi]
    ensures carry == ps[CarryStart(ps, lo, hi, overlap)..hi]
  {
    carry := [];
    var carryLen, i := 0, |buf|;
    while i > 0
      invariant 0 <= i <= |buf| && carry == buf[i..] && carryLen == Size(ps, lo + i, hi)
      invariant i == |buf| || carryLen <= overlap
    {
      if carryLen + |buf[i - 1]| + 2 > overlap {
        CarryStops(ps, lo, hi, lo + i, overlap);
        return;
      }
      i := i - 1;
      carry := [buf[i]] + carry;
      carryLen := carryLen + |buf[i]| + 2;
    }
    CarryStops(ps, lo, hi, lo, overlap);
  }

  /** `sum(len(p) for p in buf) + 2 * max(0, len(buf) - 1)` */
  method LenOf(ghost ps: seq<string>, ghost lo: nat, ghost hi: nat, buf: seq<string>) returns (len: nat)
    requires lo <= hi <= |ps| && buf == ps[lo..hi]
    ensures len == JoinedLen(ps, lo, hi)
  {
    len := 0;
    for i := 0 to |buf|
      invariant len + 2 * i + Size(ps, lo + i, hi) == Size(ps, lo, hi)
    {
      len := len + |buf[i]|;
    }
    if |buf| > 0 {
      len := len + 2 * (|buf| - 1);
    }
  }

  lemma {:induction false} SizeShrinks(ps: seq<string>, a: nat, b: nat, hi: nat)
    requires a <= b <= hi <= |ps|
    ensures Size(ps, b, hi) + 2 * (b - a) <= Size(ps, a, hi)
    decreases b - a
  {
    if a < b {
      SizeShrinks(ps, a + 1, b, hi);
    }
  }

  /** Where the walk from the end stops is the start of the longest fitting tail. */
  lemma {:induction false} CarryStops(ps: seq<string>, lo: nat, hi: nat, c: nat, overlap: int)
    requires lo <= c <= hi <= |ps|
    requires c == hi || Size(ps, c, hi) <= overlap
    requires c == lo || Size(ps, c - 1, hi) > overlap
    ensures CarryStart(ps, lo, hi, overlap) == c
    decreases hi - lo
  {
    if lo < c {
      SizeShrinks(ps, lo, c - 1, hi);
      CarryStops(ps, lo + 1, hi, c, overlap);
    }
  }

  /** The carried tail fits, and one paragraph more would not. */
  lemma {:induction false} CarryIsLongest(ps: seq<string>, lo: nat, hi: nat, overlap: int)
    requires lo <= hi <= |ps|
    ensures var c := CarryStart(ps, lo, hi, overlap);
      && (c == hi || Size(ps, c, hi) <= overlap)
      && (forall b: nat | lo <= b < c :: Size(ps, b, hi) > overlap)
    decreases hi - lo
  {
    if lo < hi && Size(ps, lo, hi) > overlap {
      CarryIsLongest(ps, lo + 1, hi, overlap);
    }
  }

  /** What the emitted windows satisfy: the first starts the paragraphs, ends
      strictly increase, starts never decrease, no paragraph falls between two
      windows, and what two windows share is the longest tail that fits. */
  ghost predicate Windowed(ps: seq<string>, ws: seq<Span>, overlap: int) {
    && (forall i | 0 <= i < |ws| :: ws[i].lo < ws[i].hi <= |ps|)
    && (ws != [] ==> ws[0].lo == 0)
    && (forall i | 0 < i < |ws| ::
          ws[i - 1].hi < ws[i].hi
          && ws[i].lo == CarryStart(ps, ws[i - 1].lo, ws[i - 1].hi, overlap))
  }

  ghost predicate InSomeWindow(ws: seq<Span>, j: nat) {
    exists i | 0 <= i < |ws| :: ws[i].lo <= j < ws[i].hi
  }

  lemma {:induction false} PackWindows(ps: seq<string>, k: nat, target: int, overlap: int)
    requires k <= |ps|
    ensures var p := Pack(ps, k, target, overlap);
      Windowed(ps, p.windows + (if k > 0 then [Span(p.lo, k)] else []), overlap)
  {
    if k > 0 {
      PackWindows(ps, k - 1, target, overlap);
      var p, p' := Pack(ps, k - 1, target, overlap), Pack(ps, k, target, overlap);
      if k > 1 {
        if p'.windows == p.windows {
          GrowLast(ps, p.windows, Span(p.lo, k - 1), Span(p'.lo, k), overlap);
        } else {
          AddWindow(ps, p.windows, Span(p.lo, k - 1), Span(p'.lo, k), overlap);
        }
      }
    }
  }

  lemma GrowLast(ps: seq<string>, ws: seq<Span>, w: Span, w': Span, overlap: int)
    requires Windowed(ps, ws + [w], overlap) && w'.lo == w.lo && w.hi < w'.hi <= |ps|
    ensures Windowed(ps, ws + [w'], overlap)
  {
    var before, after := ws + [w], ws + [w'];
    assert before[|ws|] == w && after[|ws|] == w';
    forall i | 0 <= i < |after|
      ensures after[i].lo < after[i].hi <= |ps| && after[i].lo == before[i].lo && after[i].hi >= before[i].hi
    {
      assert i < |ws| ==> after[i] == before[i];
    }
    assert forall j | 0 <= j < |ws| :: after[j] == before[j];
  }

  lemma AddWindow(ps: seq<string>, ws: seq<Span>, w: Span, w': Span, overlap: int)
    requires Windowed(ps, ws + [w], overlap) && w.hi < w'.hi <= |ps| && w'.lo < w'.hi
    requires w.lo <= w.hi <= |ps| && w'.lo == CarryStart(ps, w.lo, w.hi, overlap)
    ensures Windowed(ps, ws + [w] + [w'], overlap)
  {
    var before, after := ws + [w], ws + [w] + [w'];
    assert before[|ws|] == w;
    assert forall i | 0 <= i < |before| :: after[i] == before[i];
  }

  /** Chunks are contiguous windows over the paragraphs: nothing is split,
      everything is covered in order, and the last window ends the list. */
  lemma WindowsCover(ps: seq<string>, target: int, overlap: int)
    ensures var ws := Windows(ps, target, overlap);
      && Windowed(ps, ws, overlap)
      && (ps != [] ==> ws != [] && ws[|ws| - 1].hi == |ps|)
      && (forall i | 0 < i < |ws| :: ws[i - 1].lo <= ws[i].lo <= ws[i - 1].hi < ws[i].hi)
      && (forall j: nat | j < |ps| :: InSomeWindow(ws, j))
  {
    PackWindows(ps, |ps|, target, overlap);
    CoverAll(ps, Windows(ps, target, overlap), overlap);
  }

  lemma CoverAll(ps: seq<string>, ws: seq<Span>, overlap: int)
    requires Windowed(ps, ws, overlap) && (ps != [] ==> ws != [] && ws[|ws| - 1].hi == |ps|)
    ensures forall j: nat | j < |ps| :: InSomeWindow(ws, j)
  {
    forall j: nat | j < |ps|
      ensures InSomeWindow(ws, j)
    {
      var i := FirstEndingAfter(ps, ws, overlap, j, 0);
    }
  }

  lemma {:induction false} FirstEndingAfter(ps: seq<string>, ws: seq<Span>, overlap: int, j: nat, from: nat)
      returns (i: nat)
    requires Windowed(ps, ws, overlap) && from < |ws| && ws[|ws| - 1].hi > j && ws[from].lo <= j
    ensures i < |ws| && ws[i].lo <= j < ws[i].hi
    decreases |ws| - from
  {
    if j < ws[from].hi {
      i := from;
    } else {
      i := FirstEndingAfter(ps, ws, overlap, j, from + 1);
    }
  }

  // ---- sizes ------------------------------------------------------------------------------

  function Longest(ps: seq<string>): nat {
    if ps == [] then 0
    else
      var rest := Longest(ps[..|ps| - 1]);
      if |ps[|ps| - 1]| > rest then |ps[|ps| - 1]| else rest
  }

  /** The promised size of a piece. */
  function Bound(ps: seq<string>, target: int, overlap: int): int {
    var tail := (if overlap > 0 then overlap else 0) + Longest(ps);
    if target > tail then target else tail
  }

  lemma {:induction false} LongestIs(ps: seq<string>, i: nat)
    requires i < |ps|
    ensures |ps[i]| <= Longest(ps)
  {
    if i < |ps| - 1 {
      LongestIs(ps[..|ps| - 1], i);
    }
  }

  lemma {:induction false} SizeAppend(ps: seq<string>, lo: nat, hi: nat)
    requires lo <= hi < |ps|
    ensures Size(ps, lo, hi + 1) == Size(ps, lo, hi) + |ps[hi]| + 2
    decreases hi - lo
  {
    if lo < hi {
      SizeAppend(ps, lo + 1, hi);
    }
  }

  /** The buffer length after one more paragraph, from a buffer lo..k. */
  lemma GrownBuffer(ps: seq<string>, lo: nat, k: nat, len: nat, target: int, overlap: int)
    requires lo <= k < |ps| && len == JoinedLen(ps, lo, k) && forall i | 0 <= i < |ps| :: ps[i] != ""
    requires lo == k || len + |ps[k]| + 2 <= target || Size(ps, lo, k) <= overlap
    ensures var grown := len + |ps[k]| + if len != 0 then 2 else 0;
      grown == JoinedLen(ps, lo, k + 1) <= Bound(ps, target, overlap)
  {
    LongestIs(ps, k);
    SizeAppend(ps, lo, k);
    if lo < k {
      SizeShrinks(ps, lo + 1, k, k);
      assert ps[lo] != "";
    }
  }

  /** A piece has its joined length within the bound. */
  predicate Fits(ps: seq<string>, w: Span, target: int, overlap: int) {
    w.lo < w.hi <= |ps| && JoinedLen(ps, w.lo, w.hi) <= Bound(ps, target, overlap)
  }

  /** For non-empty paragraphs the running length is the length of the joined
      buffer, and it stays within the bound. */
  lemma {:induction false} PackSizes(ps: seq<string>, k: nat, target: int, overlap: int)
    requires k <= |ps| && forall i | 0 <= i < |ps| :: ps[i] != ""
    ensures var p := Pack(ps, k, target, overlap);
      && p.len == JoinedLen(ps, p.lo, k) <= Bound(ps, target, overlap)
      && forall w | w in p.windows :: Fits(ps, w, target, overlap)
  {
    if k > 0 {
      PackSizes(ps, k - 1, target, overlap);
      PackNext(ps, k - 1, target, overlap);
      var p := Pack(ps, k - 1, target, overlap);
      var full := p.lo < k - 1 && p.len + |ps[k - 1]| + 2 > target;
      var lo := if full then CarryStart(ps, p.lo, k - 1, overlap) else p.lo;
      CarryIsLongest(ps, p.lo, k - 1, overlap);
      GrownBuffer(ps, lo, k - 1, JoinedLen(ps, lo, k - 1), target, overlap);
      assert full ==> Fits(ps, Span(p.lo, k - 1), target, overlap);
    }
  }

  /** The paragraph after the window would not have fitted. */
  predicate Overflows(ps: seq<string>, w: Span, target: int) {
    w.lo < w.hi < |ps| && JoinedLen(ps, w.lo, w.hi) + 2 + |ps[w.hi]| > target
  }

  lemma {:induction false} PackFull(ps: seq<string>, k: nat, target: int, overlap: int)
    requires k <= |ps| && forall i | 0 <= i < |ps| :: ps[i] != ""
    ensures forall w | w in Pack(ps, k, target, overlap).windows :: Overflows(ps, w, target)
  {
    if k > 0 {
      PackFull(ps, k - 1, target, overlap);
      PackSizes(ps, k - 1, target, overlap);
      PackNext(ps, k - 1, target, overlap);
    }
  }

  /** A window is closed only when the next paragraph would take it over the
      target. */
  lemma WindowsFull(ps: seq<string>, target: int, overlap: int, i: nat)
    requires forall j | 0 <= j < |ps| :: ps[j] != ""
    requires i + 1 < |Windows(ps, target, overlap)|
    ensures var w := Windows(ps, target, overlap)[i];
      && w.lo < w.hi < |ps|
      && |WindowTexts(ps, Windows(ps, target, overlap))[i]| + 2 + |ps[w.hi]| > target
  {
    PackFull(ps, |ps|, target, overlap);
    var p := Pack(ps, |ps|, target, overlap);
    var w := Windows(ps, target, overlap)[i];
    assert w in p.windows && Overflows(ps, w, target);
    JoinLength(ps, w.lo, w.hi);
  }

  lemma {:induction false} JoinLength(ps: seq<string>, lo: nat, hi: nat)
    requires lo <= hi <= |ps|
    ensures |Join(ps[lo..hi], "\n\n")| == JoinedLen(ps, lo, hi)
    decreases hi
  {
    if lo < hi {
      SizeAppend(ps, lo, hi - 1);
      if lo < hi - 1 {
        JoinLength(ps, lo, hi - 1);
        assert ps[lo..hi][..hi - lo - 1] == ps[lo..hi - 1];
      } else {
        assert ps[lo..hi] == [ps[lo]] && Size(ps, hi, hi) == 0;
      }
    }
  }

  /** Every piece of a section fits the target, or is a carried tail within the
      overlap followed by one paragraph. */
  lemma PieceBound(ps: seq<string>, target: int, overlap: int, i: nat)
    requires forall j | 0 <= j < |ps| :: ps[j] != ""
    requires i < |Windows(ps, target, overlap)|
    ensures |WindowTexts(ps, Windows(ps, target, overlap))[i]| <= Bound(ps, target, overlap)
  {
    PackSizes(ps, |ps|, target, overlap);
    var ws := Windows(ps, target, overlap);
    assert ws[i] in ws && Fits(ps, ws[i], target, overlap);
    JoinLength(ps, ws[i].lo, ws[i].hi);
  }
}
