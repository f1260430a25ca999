/** What the counters of one batch of py-processor/main.py mean: each reason is
    counted once for every entry that its page or document gives it to. */
module BatchCounts {
  import opened Wrappers
  import opened Dedupe
  import opened Delivery
  import opened DeliverySafety
  import opened BatchPlan

  /** How many of the entries f maps to x. */
  function Times<X(==)>(ids: seq<nat>, f: nat -> X, x: X): nat {
    if ids == [] then 0
    else Times(ids[..|ids| - 1], f, x) + if f(ids[|ids| - 1]) == x then 1 else 0
  }

  lemma {:induction false} TimesIs<X>(ids: seq<nat>, f: nat -> X, xs: seq<X>, x: X)
    requires |xs| == |ids| && forall i | 0 <= i < |ids| :: xs[i] == f(ids[i])
    ensures multiset(xs)[x] == Times(ids, f, x)
  {
    if ids != [] {
      var n := |ids| - 1;
      TimesIs(ids[..n], f, xs[..n], x);
      assert xs == xs[..n] + [xs[n]];
    }
  }

  lemma {:induction false} TimesAppend<X>(a: seq<nat>, b: seq<nat>, f: nat -> X, x: X)
    ensures Times(a + b, f, x) == Times(a, f, x) + Times(b, f, x)
  {
    if b == [] {
      assert a + b == a;
    } else {
      var n := |b| - 1;
      assert (a + b)[..|a + b| - 1] == a + b[..n];
      TimesAppend(a, b[..n], f, x);
    }
  }

  lemma TimesOne<X>(m: nat, f: nat -> X, x: X)
    ensures Times([m], f, x) == if f(m) == x then 1 else 0
  {
    assert [m][..0] == [];
  }

  lemma SelectTimes<X>(ids: seq<nat>, stream: seq<Payload>, inline: bool, f: nat -> X, x: X)
    requires ids != []
    ensures var front, m := ids[..|ids| - 1], ids[|ids| - 1];
      Times(Select(ids, stream, inline), f, x)
      == Times(Select(front, stream, inline), f, x)
         + if m < |stream| && stream[m].Article? && stream[m].inline == inline && f(m) == x then 1 else 0
  {
    var front, m := ids[..|ids| - 1], ids[|ids| - 1];
    if m < |stream| && stream[m].Article? && stream[m].inline == inline {
      TimesAppend(Select(front, stream, inline), [m], f, x);
      TimesOne(m, f, x);
    } else {
      assert Select(front, stream, inline) + [] == Select(front, stream, inline);
    }
  }

  /** Splitting a batch loses only entries that are no articles. */
  lemma {:induction false} TimesSplit<X>(ids: seq<nat>, stream: seq<Payload>, f: nat -> X, x: X)
    requires forall m | m in ids && (m >= |stream| || !stream[m].Article?) :: f(m) != x
    ensures Times(ids, f, x) == Times(Select(ids, stream, true), f, x) + Times(Select(ids, stream, false), f, x)
  {
    if ids != [] {
      assert ids[|ids| - 1] in ids;
      TimesSplit(ids[..|ids| - 1], stream, f, x);
      SelectTimes(ids, stream, true, f, x);
      SelectTimes(ids, stream, false, f, x);
    }
  }

  lemma {:induction false} TimesPages<X>(ids: seq<nat>, fetch: nat -> Reply, f: nat -> X, x: X)
    requires forall m | m in ids && f(m) == x :: fetch(m).Page?
    ensures Times(ids, f, x) == Times(Pages(ids, fetch), f, x)
  {
    if ids != [] {
      var front, m := ids[..|ids| - 1], ids[|ids| - 1];
      assert m in ids;
      TimesPages(front, fetch, f, x);
      TimesOne(m, f, x);
      TimesAppend(Pages(front, fetch), [m], f, x);
      assert Pages(front, fetch) + [] == Pages(front, fetch);
    }
  }

  // ---- phase 2 --------------------------------------------------------------------------

  function FateOfReply(reply: Reply): Fate {
    match reply
    case PageGone => Dead
    case NothingExtracted => Empty
    case Page(document) => AssessedAs(document.assessment)
  }

  lemma {:induction false} FetchStats(ids: seq<nat>, fetch: nat -> Reply, stream: seq<Payload>, f: nat -> Fate)
    requires forall m | m in ids :: f(m) == FateOfReply(fetch(m))
    ensures var stats := FetchTally(ids, fetch, stream).stats;
      && stats[NotFound] == Times(ids, f, Dead) && stats[ExtractFail] == Times(ids, f, Empty)
      && stats[Lang] == 0 && stats[Dup] == 0 && forall q :: stats[Quality(q)] == 0
  {
    if ids != [] {
      var front, m := ids[..|ids| - 1], ids[|ids| - 1];
      assert m in ids;
      FetchStats(front, fetch, stream, f);
    }
  }

  lemma {:induction false} FetchBlames(ids: seq<nat>, fetch: nat -> Reply, stream: seq<Payload>,
                                       f: nat -> Option<string>, s: string)
    requires forall m | m in ids && !fetch(m).Page? ::
      m < |stream| && stream[m].Article? && f(m) == Some(stream[m].source)
    ensures FetchTally(ids, fetch, stream).srcRej[s] + Times(Pages(ids, fetch), f, Some(s)) == Times(ids, f, Some(s))
  {
    if ids != [] {
      var front, m := ids[..|ids| - 1], ids[|ids| - 1];
      assert m in ids;
      FetchBlames(front, fetch, stream, f, s);
      TimesOne(m, f, Some(s));
      TimesAppend(Pages(front, fetch), [m], f, Some(s));
      assert Pages(front, fetch) + [] == Pages(front, fetch);
    }
  }

  // ---- phase 3 --------------------------------------------------------------------------

  /** What one document adds to the counters. */
  lemma GateOne(tally: Tally, doc: Document, row: bool, source: string, q: string)
    requires row ==> doc.assessment.Accepted?
    ensures var before, after := tally.stats, GateCount(tally, doc, row, source).stats;
      && after[NotFound] == before[NotFound] && after[ExtractFail] == before[ExtractFail]
      && after[Quality(q)] == before[Quality(q)] + (if doc.assessment == Refused(q) then 1 else 0)
      && after[Lang] == before[Lang] + (if doc.assessment.Foreign? then 1 else 0)
      && after[Dup] + (if row then 1 else 0) == before[Dup] + if doc.assessment.Accepted? then 1 else 0
  {}

  lemma {:induction false} GateStats(start: Tally, ids: seq<nat>, docs: seq<Document>, passed: seq<bool>,
                                     stream: seq<Payload>, digest: string -> nat, bits: nat, f: nat -> Fate, q: string)
    requires |ids| == |docs| == |passed| && PassedAccepted(docs, passed)
    requires forall i | 0 <= i < |ids| :: f(ids[i]) == AssessedAs(docs[i].assessment)
    ensures var before, after := start.stats, GateTally(start, ids, docs, passed, stream).stats;
      && after[NotFound] == before[NotFound] && after[ExtractFail] == before[ExtractFail]
      && after[Quality(q)] == before[Quality(q)] + Times(ids, f, AssessedAs(Refused(q)))
      && after[Lang] == before[Lang] + Times(ids, f, AssessedAs(Foreign))
      && after[Dup] + |RowsOf(ids, docs, passed, stream, digest, bits)|
         == before[Dup] + Times(ids, f, AssessedAs(Accepted))
  {
    if ids != [] {
      var n := |ids| - 1;
      GateStats(start, ids[..n], docs[..n], passed[..n], stream, digest, bits, f, q);
      GateOne(GateTally(start, ids[..n], docs[..n], passed[..n], stream), docs[n], passed[n],
              SourceOf(stream, ids[n]), q);
      assert f(ids[n]) == AssessedAs(docs[n].assessment);
    }
  }

  lemma {:induction false} GateBlames(start: Tally, ids: seq<nat>, docs: seq<Document>, passed: seq<bool>,
                                      stream: seq<Payload>, f: nat -> Option<string>, s: string)
    requires |ids| == |docs| == |passed|
    requires forall i | 0 <= i < |ids| ::
      && ids[i] < |stream| && stream[ids[i]].Article?
      && f(ids[i]) == if docs[i].assessment.Refused? then Some(stream[ids[i]].source) else None
    ensures GateTally(start, ids, docs, passed, stream).srcRej[s] == start.srcRej[s] + Times(ids, f, Some(s))
  {
    if ids != [] {
      var n := |ids| - 1;
      GateBlames(start, ids[..n], docs[..n], passed[..n], stream, f, s);
    }
  }

  // ---- the whole batch ---------------------------------------------------------------------

  /** A document's entry has that document's fate. */
  lemma DocFates(j: Job, ids: seq<nat>, docs: seq<Document>)
    requires DocsOf(j.stream, ids, docs, j.inline, j.fetch)
    ensures forall i | 0 <= i < |ids| ::
      && ids[i] < |j.stream| && j.stream[ids[i]].Article?
      && j.FateOf(ids[i]) == AssessedAs(docs[i].assessment)
  {
    forall i | 0 <= i < |ids|
      ensures ids[i] < |j.stream| && j.stream[ids[i]].Article?
      ensures j.FateOf(ids[i]) == AssessedAs(docs[i].assessment)
    {
      assert IsDocOf(j.stream, ids[i], docs[i], j.inline, j.fetch);
    }
  }

  /** Over the whole batch a fate occurs as often as among the gone or empty pages
      and the documents. */
  lemma FateTimes(j: Job, f: nat -> Fate, x: Fate)
    requires (forall m :: f(m) == j.FateOf(m)) && !x.NoArticle?
    ensures var toFetch := Select(j.ids, j.stream, false);
      multiset(j.Fates())[x]
      == if x.AssessedAs? then Times(j.Kept(), f, x) else Times(toFetch, f, x)
  {
    var direct, toFetch := Select(j.ids, j.stream, true), Select(j.ids, j.stream, false);
    SelectedFit(j.ids, j.stream);
    TimesIs(j.ids, f, j.Fates(), x);
    TimesSplit(j.ids, j.stream, f, x);
    if x.AssessedAs? {
      TimesPages(toFetch, j.fetch, f, x);
      TimesAppend(direct, Pages(toFetch, j.fetch), f, x);
    } else {
      TimesNone(direct, f, x);
    }
  }

  lemma {:induction false} TimesNone<X>(ids: seq<nat>, f: nat -> X, x: X)
    requires forall m | m in ids :: f(m) != x
    ensures Times(ids, f, x) == 0
  {
    if ids != [] {
      TimesNone(ids[..|ids| - 1], f, x);
      assert ids[|ids| - 1] in ids;
    }
  }

  /** Each counter of a sifted batch is the number of entries it stands for: pages
      that are gone, pages with nothing to extract, documents refused for each
      reason, documents in another language, and accepted documents that did not
      become rows. */
  lemma StatsExactly(j: Job, g: Sieve, rows: seq<Row>, tally: Tally, q: string)
    requires j.Sifted(g, rows, tally)
    ensures tally.stats[NotFound] == multiset(j.Fates())[Dead]
    ensures tally.stats[ExtractFail] == multiset(j.Fates())[Empty]
    ensures tally.stats[Quality(q)] == multiset(j.Fates())[AssessedAs(Refused(q))]
    ensures tally.stats[Lang] == multiset(j.Fates())[AssessedAs(Foreign)]
    ensures tally.stats[Dup] + |rows| == multiset(j.Fates())[AssessedAs(Accepted)]
  {
    var toFetch := Select(j.ids, j.stream, false);
    var f := (m: nat) => j.FateOf(m);
    SelectedFit(j.ids, j.stream);
    FetchStats(toFetch, j.fetch, j.stream, f);
    DocFates(j, g.extracted, g.docs);
    GateStats(FetchTally(toFetch, j.fetch, j.stream), g.extracted, g.docs, g.passed, j.stream, j.digest, j.bits, f, q);
    FateTimes(j, f, Dead);
    FateTimes(j, f, Empty);
    FateTimes(j, f, AssessedAs(Refused(q)));
    FateTimes(j, f, AssessedAs(Foreign));
    FateTimes(j, f, AssessedAs(Accepted));
  }

  /** And each source is charged with its pages that are gone or empty and its
      documents that were refused, not with duplicates or foreign languages. */
  lemma BlamesExactly(j: Job, g: Sieve, rows: seq<Row>, tally: Tally, s: string)
    requires j.Sifted(g, rows, tally)
    ensures tally.srcRej[s] == multiset(j.Blames())[Some(s)]
  {
    var direct, toFetch := Select(j.ids, j.stream, true), Select(j.ids, j.stream, false);
    var f := (m: nat) => j.BlameOf(m);
    FetchedBlames(j);
    FetchBlames(toFetch, j.fetch, j.stream, f, s);
    DocBlames(j, g.extracted, g.docs);
    GateBlames(FetchTally(toFetch, j.fetch, j.stream), g.extracted, g.docs, g.passed, j.stream, f, s);
    TimesIs(j.ids, f, j.Blames(), Some(s));
    TimesSplit(j.ids, j.stream, f, Some(s));
    TimesAppend(direct, Pages(toFetch, j.fetch), f, Some(s));
  }

  lemma FetchedBlames(j: Job)
    ensures forall m | m in Select(j.ids, j.stream, false) && !j.fetch(m).Page? ::
      m < |j.stream| && j.stream[m].Article? && j.BlameOf(m) == Some(j.stream[m].source)
  {
    SelectedFit(j.ids, j.stream);
  }

  lemma DocBlames(j: Job, ids: seq<nat>, docs: seq<Document>)
    requires DocsOf(j.stream, ids, docs, j.inline, j.fetch)
    ensures forall i | 0 <= i < |ids| ::
      && ids[i] < |j.stream| && j.stream[ids[i]].Article?
      && j.BlameOf(ids[i]) == if docs[i].assessment.Refused? then Some(j.stream[ids[i]].source) else None
  {
    DocFates(j, ids, docs);
  }

  // ---- the effects of a batch, one by one ------------------------------------------------

  /** The k-th fetch is what the k-th page says. */
  lemma {:induction false} FetchStepsAre(ids: seq<nat>, fetch: nat -> Reply, push: nat -> Parking)
    ensures |FetchSteps(ids, fetch, push)| == |ids|
    ensures forall k | 0 <= k < |ids| ::
      FetchSteps(ids, fetch, push)[k]
      == match fetch(ids[k])
         case PageGone => Fetch(Gone)
         case NothingExtracted => Fetch(NoContent(!push(ids[k]).NotRun?))
         case Page(_) => Fetch(Content)
  {
    if ids != [] {
      FetchStepsAre(ids[..|ids| - 1], fetch, push);
    }
  }

  /** The k-th gate decision is what the k-th document says. */
  lemma {:induction false} GateStepsAre(docs: seq<Document>, digest: string -> nat, bits: nat)
    ensures |GateSteps(docs, digest, bits)| == |docs|
    ensures forall k | 0 <= k < |docs| ::
      GateSteps(docs, digest, bits)[k]
      == match docs[k].assessment
         case Refused(_) => Gate(Rejected)
         case Foreign => Gate(WrongLanguage)
         case Accepted => Gate(Passed(Fingerprint(docs[k].tokens, digest, bits)))
  {
    if docs != [] {
      GateStepsAre(docs[..|docs| - 1], digest, bits);
    }
  }

  /** Nothing to store, or one INSERT and then one filing per row. */
  lemma {:induction false} StoreStepsAre(n: nat)
    ensures n == 0 ==> StoreSteps(n) == []
    ensures n > 0 ==> |StoreSteps(n)| == n + 1 && StoreSteps(n)[0] == Commit
    ensures forall k | 0 < k < |StoreSteps(n)| :: StoreSteps(n)[k] == IndexRow
  {
    IndexStepsAre(n);
  }

  lemma {:induction false} IndexStepsAre(n: nat)
    ensures |IndexSteps(n)| == n && forall k | 0 <= k < n :: IndexSteps(n)[k] == IndexRow
  {
    if n > 0 {
      IndexStepsAre(n - 1);
    }
  }

  /** Fetches, gate decisions, storage, and the XACK at the end. */
  lemma BatchStepsAre(j: Job, docs: seq<Document>, n: nat)
    ensures j.Steps(docs, n)
         == FetchSteps(Select(j.ids, j.stream, false), j.fetch, j.push) + GateSteps(docs, j.digest, j.bits)
            + StoreSteps(n) + [Ack]
  {
    Regroup(j.FirstSteps(docs), StoreSteps(n), [Ack]);
  }

  /** The rows are the documents that passed, in order, each with its URL, its
      fingerprint and its entry. */
  lemma {:induction false} RowsAre(ids: seq<nat>, docs: seq<Document>, passed: seq<bool>, stream: seq<Payload>,
                                   digest: string -> nat, bits: nat) returns (at: seq<nat>)
    requires |ids| == |docs| == |passed| && forall i | 0 <= i < |ids| :: ids[i] < |stream| && stream[ids[i]].Article?
    ensures forall a, b | 0 <= a < b < |at| :: at[a] < at[b]
    ensures forall i | 0 <= i < |ids| :: i in at <==> passed[i]
    ensures var rows := RowsOf(ids, docs, passed, stream, digest, bits);
      && |rows| == |at|
      && forall k | 0 <= k < |at| ::
           && at[k] < |ids|
           && rows[k] == Row(stream[ids[at[k]]].url, Fingerprint(docs[at[k]].tokens, digest, bits), Some(ids[at[k]]))
  {
    if ids == [] {
      at := [];
    } else {
      var n := |ids| - 1;
      var before := RowsAre(ids[..n], docs[..n], passed[..n], stream, digest, bits);
      at := before + if passed[n] then [n] else [];
    }
  }
}
