/** What one batch of py-processor/main.py comes to: the effects, rows and counts
    that its pages and documents determine, and the Redis and Postgres calls that
    it takes. */
module BatchPlan {
  import opened Wrappers
  import opened Dedupe
  import opened NearDup
  import opened Delivery
  import opened DeliverySafety

  /** What extraction, quality gate and language detection make of a page. */
  datatype Assessment = Refused(reason: string) | Foreign | Accepted

  datatype Document = Document(tokens: seq<string>, assessment: Assessment)

  datatype Reply = PageGone | NothingExtracted | Page(document: Document)

  datatype Reason = NotFound | ExtractFail | Quality(name: string) | Lang | Dup

  /** `stats` and `src_rej`: dictionaries of counts, so multisets. */
  datatype Tally = Tally(stats: multiset<Reason>, srcRej: multiset<string>) {
    /** A rejection that also counts against its source. */
    function Reject(reason: Reason, source: string): Tally {
      Tally(stats + multiset{reason}, srcRej + multiset{source})
    }

    /** A language or duplicate rejection, which does not. */
    function Skip(reason: Reason): Tally {
      Tally(stats + multiset{reason}, srcRej)
    }

    /** n rejections in all; per source, those that are not `lang` or `dup`. */
    predicate Accounts(n: nat) {
      |stats| == n && |srcRej| == n - stats[Lang] - stats[Dup]
    }
  }

  /** How a push to the dead letters goes: the script does not run; it runs and
      something fails before the push is counted; or all is well. */
  datatype Parking = NotRun | Uncounted | Counted

  // ---- the effects a batch is made of ------------------------------------------------

  function Answered(reply: Reply, push: Parking): Fetched {
    match reply
    case PageGone => Gone
    case NothingExtracted => NoContent(!push.NotRun?)
    case Page(_) => Content
  }

  function FetchSteps(ids: seq<nat>, fetch: nat -> Reply, push: nat -> Parking): seq<Step> {
    if ids == [] then []
    else
      var m := ids[|ids| - 1];
      FetchSteps(ids[..|ids| - 1], fetch, push) + [Fetch(Answered(fetch(m), push(m)))]
  }

  /** The fetched entries that have content. */
  function Pages(ids: seq<nat>, fetch: nat -> Reply): seq<nat> {
    if ids == [] then []
    else
      var m := ids[|ids| - 1];
      Pages(ids[..|ids| - 1], fetch) + if fetch(m).Page? then [m] else []
  }

  function SourceOf(stream: seq<Payload>, m: nat): string {
    if m < |stream| && stream[m].Article? then stream[m].source else "?"
  }

  function FetchCount(tally: Tally, reply: Reply, source: string): Tally {
    match reply
    case PageGone => tally.Reject(NotFound, source)
    case NothingExtracted => tally.Reject(ExtractFail, source)
    case Page(_) => tally
  }

  /** What phase 2b counts. */
  function FetchTally(ids: seq<nat>, fetch: nat -> Reply, stream: seq<Payload>): Tally {
    if ids == [] then Tally(multiset{}, multiset{})
    else
      var m := ids[|ids| - 1];
      FetchCount(FetchTally(ids[..|ids| - 1], fetch, stream), fetch(m), SourceOf(stream, m))
  }

  lemma {:induction false} FetchAccounts(ids: seq<nat>, fetch: nat -> Reply, stream: seq<Payload>)
    ensures |Pages(ids, fetch)| <= |ids|
    ensures FetchTally(ids, fetch, stream).Accounts(|ids| - |Pages(ids, fetch)|)
  {
    if ids != [] {
      FetchAccounts(ids[..|ids| - 1], fetch, stream);
    }
  }

  /** Entries of the batch without a parsable article. */
  function Unparsable(ids: seq<nat>, stream: seq<Payload>): nat {
    if ids == [] then 0
    else
      var m := ids[|ids| - 1];
      Unparsable(ids[..|ids| - 1], stream) + if m < |stream| && stream[m].Article? then 0 else 1
  }

  /** The batch splits into unparsable entries, counted rejections and rows;
      rejections count against their source unless they are `lang` or `dup`. */
  predicate Accounted(ids: seq<nat>, stream: seq<Payload>, tally: Tally, rows: seq<Row>) {
    && |ids| == Unparsable(ids, stream) + |tally.stats| + |rows|
    && |tally.srcRej| == |tally.stats| - tally.stats[Lang] - tally.stats[Dup]
  }

  function Judged(doc: Document, digest: string -> nat, bits: nat): Gated {
    match doc.assessment
    case Refused(_) => Rejected
    case Foreign => WrongLanguage
    case Accepted => Passed(Fingerprint(doc.tokens, digest, bits))
  }

  function GateSteps(docs: seq<Document>, digest: string -> nat, bits: nat): seq<Step> {
    if docs == [] then []
    else GateSteps(docs[..|docs| - 1], digest, bits) + [Gate(Judged(docs[|docs| - 1], digest, bits))]
  }

  /** What phase 3 counts for a document; `row` says whether it became one. */
  function GateCount(tally: Tally, doc: Document, row: bool, source: string): Tally {
    match doc.assessment
    case Refused(reason) => tally.Reject(Quality(reason), source)
    case Foreign => tally.Skip(Lang)
    case Accepted => if row then tally else tally.Skip(Dup)
  }

  /** What phase 3 adds to the counts, `passed` saying which documents became
      rows. */
  function GateTally(start: Tally, ids: seq<nat>, docs: seq<Document>, passed: seq<bool>, stream: seq<Payload>): Tally
    requires |ids| == |docs| == |passed|
  {
    if ids == [] then start
    else
      var n := |ids| - 1;
      GateCount(GateTally(start, ids[..n], docs[..n], passed[..n], stream), docs[n], passed[n],
                SourceOf(stream, ids[n]))
  }

  /** The rows of the documents that passed. */
  function RowsOf(ids: seq<nat>, docs: seq<Document>, passed: seq<bool>, stream: seq<Payload>,
                  digest: string -> nat, bits: nat): seq<Row>
    requires |ids| == |docs| == |passed|
  {
    if ids == [] then []
    else
      var n := |ids| - 1;
      RowsOf(ids[..n], docs[..n], passed[..n], stream, digest, bits)
      + if passed[n] then [RowOf(stream, ids[n], Fingerprint(docs[n].tokens, digest, bits))] else []
  }

  function RowOf(stream: seq<Payload>, m: nat, fp: nat): Row {
    Row(if m < |stream| && stream[m].Article? then stream[m].url else 0, fp, Some(m))
  }

  /** Only accepted documents pass. */
  ghost predicate PassedAccepted(docs: seq<Document>, passed: seq<bool>)
    requires |docs| == |passed|
  {
    forall i | 0 <= i < |docs| && passed[i] :: docs[i].assessment.Accepted?
  }

  lemma {:induction false} GateAccounts(start: Tally, ids: seq<nat>, docs: seq<Document>, passed: seq<bool>,
                                        stream: seq<Payload>, digest: string -> nat, bits: nat, n: nat)
    requires |ids| == |docs| == |passed| && start.Accounts(n) && PassedAccepted(docs, passed)
    ensures var rows := RowsOf(ids, docs, passed, stream, digest, bits);
      |rows| <= |ids| && GateTally(start, ids, docs, passed, stream).Accounts(n + |ids| - |rows|)
  {
    if ids != [] {
      var k := |ids| - 1;
      GateAccounts(start, ids[..k], docs[..k], passed[..k], stream, digest, bits, n);
    }
  }

  function SiftSteps(toFetch: seq<nat>, fetch: nat -> Reply, push: nat -> Parking, docs: seq<Document>,
                     digest: string -> nat, bits: nat): seq<Step> {
    FetchSteps(toFetch, fetch, push) + GateSteps(docs, digest, bits)
  }

  function IndexSteps(n: nat): seq<Step> {
    if n == 0 then [] else IndexSteps(n - 1) + [IndexRow]
  }

  function StoreSteps(n: nat): seq<Step> {
    if n == 0 then [] else [Commit] + IndexSteps(n)
  }

  /** What phases 2 and 3 let through: the entries with content, their documents,
      and which of those became rows. */
  datatype Sieve = Sieve(extracted: seq<nat>, docs: seq<Document>, passed: seq<bool>)

  /** The documents of entries that have content. */
  ghost predicate DocsOf(stream: seq<Payload>, ids: seq<nat>, docs: seq<Document>,
                         inline: nat -> Document, fetch: nat -> Reply) {
    |docs| == |ids| && forall i | 0 <= i < |ids| :: IsDocOf(stream, ids[i], docs[i], inline, fetch)
  }

  predicate IsDocOf(stream: seq<Payload>, m: nat, doc: Document, inline: nat -> Document, fetch: nat -> Reply) {
    && m < |stream| && stream[m].Article?
    && (stream[m].inline || fetch(m).Page?)
    && doc == if stream[m].inline then inline(m) else fetch(m).document
  }

  lemma DocsFit(stream: seq<Payload>, ids: seq<nat>, docs: seq<Document>, inline: nat -> Document, fetch: nat -> Reply)
    requires DocsOf(stream, ids, docs, inline, fetch)
    ensures forall m | m in ids :: m < |stream| && stream[m].Article?
  {
    forall m | m in ids
      ensures m < |stream| && stream[m].Article?
    {
      var i :| 0 <= i < |ids| && ids[i] == m;
      assert IsDocOf(stream, ids[i], docs[i], inline, fetch);
    }
  }

  lemma SelectedFit(ids: seq<nat>, stream: seq<Payload>)
    ensures forall m | m in Select(ids, stream, true) :: m < |stream| && stream[m].Article? && stream[m].inline
    ensures forall m | m in Select(ids, stream, false) :: m < |stream| && stream[m].Article? && !stream[m].inline
  {
    SelectSound(ids, stream, true);
    SelectSound(ids, stream, false);
  }

  lemma InlineDocs(stream: seq<Payload>, ids: seq<nat>, docs: seq<Document>, inline: nat -> Document,
                   fetch: nat -> Reply)
    requires forall m | m in ids :: m < |stream| && stream[m].Article? && stream[m].inline
    requires |docs| == |ids| && forall i | 0 <= i < |ids| :: docs[i] == inline(ids[i])
    ensures DocsOf(stream, ids, docs, inline, fetch)
  {
    forall i | 0 <= i < |ids|
      ensures IsDocOf(stream, ids[i], docs[i], inline, fetch)
    {
      assert ids[i] in ids;
    }
  }

  lemma DocsMore(stream: seq<Payload>, ids: seq<nat>, docs: seq<Document>, inline: nat -> Document, fetch: nat -> Reply,
                 m: nat)
    requires DocsOf(stream, ids, docs, inline, fetch)
    requires m < |stream| && stream[m].Article? && !stream[m].inline && fetch(m).Page?
    ensures DocsOf(stream, ids + [m], docs + [fetch(m).document], inline, fetch)
  {
    assert IsDocOf(stream, m, fetch(m).document, inline, fetch);
  }

  /** Phase 2b after some of the pages: what is kept, counted and done. */
  ghost predicate Fetching(ids: seq<nat>, direct: seq<nat>, fetch: nat -> Reply, push: nat -> Parking,
                           stream: seq<Payload>, kept: seq<nat>, tally: Tally, steps: seq<Step>) {
    && kept == direct + Pages(ids, fetch) && tally == FetchTally(ids, fetch, stream)
    && steps == FetchSteps(ids, fetch, push)
  }

  lemma FetchMore(ids: seq<nat>, m: nat, direct: seq<nat>, fetch: nat -> Reply, push: nat -> Parking,
                  stream: seq<Payload>, kept: seq<nat>, tally: Tally, steps: seq<Step>)
    requires Fetching(ids, direct, fetch, push, stream, kept, tally, steps)
    ensures Fetching(ids + [m], direct, fetch, push, stream,
                     if fetch(m).Page? then kept + [m] else kept, FetchCount(tally, fetch(m), SourceOf(stream, m)),
                     steps + [Fetch(Answered(fetch(m), push(m)))])
  {
    assert (ids + [m])[..|ids|] == ids;
  }

  /** Phase 3 after some of the documents. */
  ghost predicate Gating(start: Tally, ids: seq<nat>, docs: seq<Document>, passed: seq<bool>, stream: seq<Payload>,
                         digest: string -> nat, bits: nat, rows: seq<Row>, tally: Tally, steps: seq<Step>) {
    && |ids| == |docs| == |passed| && PassedAccepted(docs, passed)
    && rows == RowsOf(ids, docs, passed, stream, digest, bits)
    && tally == GateTally(start, ids, docs, passed, stream)
    && steps == GateSteps(docs, digest, bits)
  }

  lemma GateMore(start: Tally, ids: seq<nat>, docs: seq<Document>, passed: seq<bool>, stream: seq<Payload>,
                 digest: string -> nat, bits: nat, rows: seq<Row>, tally: Tally, steps: seq<Step>,
                 m: nat, doc: Document, row: bool)
    requires Gating(start, ids, docs, passed, stream, digest, bits, rows, tally, steps)
    requires row ==> doc.assessment.Accepted?
    ensures Gating(start, ids + [m], docs + [doc], passed + [row], stream, digest, bits,
                   rows + (if row then [RowOf(stream, m, Fingerprint(doc.tokens, digest, bits))] else []),
                   GateCount(tally, doc, row, SourceOf(stream, m)), steps + [Gate(Judged(doc, digest, bits))])
  {
    assert (ids + [m])[..|ids|] == ids && (docs + [doc])[..|docs|] == docs && (passed + [row])[..|passed|] == passed;
  }

  lemma NextOf<T>(s: seq<T>, k: nat)
    requires k < |s|
    ensures s[..k] + [s[k]] == s[..k + 1] && s[k..][1..] == s[k + 1..] && s[k..][0] == s[k]
  {}

  lemma Regroup(a: seq<Step>, b: seq<Step>, c: seq<Step>)
    ensures a + b + c == a + (b + c)
  {}

  /** Rows and counts of phases 2 and 3 are exactly those of the sifted documents. */
  ghost predicate Sifts(g: Sieve, ids: seq<nat>, stream: seq<Payload>, inline: nat -> Document, fetch: nat -> Reply,
                        digest: string -> nat, bits: nat, rows: seq<Row>, tally: Tally) {
    var toFetch := Select(ids, stream, false);
    && g.extracted == Select(ids, stream, true) + Pages(toFetch, fetch)
    && DocsOf(stream, g.extracted, g.docs, inline, fetch)
    && Gating(FetchTally(toFetch, fetch, stream), g.extracted, g.docs, g.passed, stream, digest, bits, rows, tally,
              GateSteps(g.docs, digest, bits))
  }

  /** The effects of a whole batch in which n documents became rows. */
  function BatchSteps(ids: seq<nat>, stream: seq<Payload>, fetch: nat -> Reply, push: nat -> Parking,
                      docs: seq<Document>, digest: string -> nat, bits: nat, n: nat): seq<Step> {
    SiftSteps(Select(ids, stream, false), fetch, push, docs, digest, bits) + (StoreSteps(n) + [Ack])
  }

  // ---- calls ---------------------------------------------------------------------------

  /** What making `calls` calls does to the number of calls that still succeed: an
      exception comes exactly when they do not suffice, and then none is left. */
  predicate Paid(before: nat, after: nat, calls: nat, raised: bool) {
    if raised then before < calls && after == 0 else after + calls == before
  }

  /** The same for at most `calls` calls. */
  predicate PaidAtMost(before: nat, after: nat, calls: nat, raised: bool) {
    if raised then before < calls && after == 0 else after <= before <= after + calls
  }

  /** One near-duplicate search for each accepted document. */
  function GateCalls(docs: seq<Document>): (n: nat)
    ensures n <= |docs|
  {
    if docs == [] then 0
    else GateCalls(docs[..|docs| - 1]) + if docs[|docs| - 1].assessment.Accepted? then 1 else 0
  }

  lemma {:induction false} GatePrefix(docs: seq<Document>, k: nat, digest: string -> nat, bits: nat)
    requires k <= |docs|
    ensures GateCalls(docs[..k]) <= GateCalls(docs)
    ensures k < |docs| && docs[k].assessment.Accepted? ==> GateCalls(docs[..k]) < GateCalls(docs)
    ensures GateSteps(docs[..k], digest, bits) <= GateSteps(docs, digest, bits)
    decreases |docs|
  {
    var n := |docs| - 1;
    if k == |docs| {
      assert docs[..k] == docs;
    } else if k < n {
      GatePrefix(docs[..n], k, digest, bits);
      assert docs[..n][..k] == docs[..k];
    }
  }

  lemma GateOneMore(docs: seq<Document>, k: nat, digest: string -> nat, bits: nat)
    requires k < |docs|
    ensures GateSteps(docs[..k + 1], digest, bits)
         == GateSteps(docs[..k], digest, bits) + [Gate(Judged(docs[k], digest, bits))]
    ensures GateCalls(docs[..k + 1]) == GateCalls(docs[..k]) + if docs[k].assessment.Accepted? then 1 else 0
  {
    assert docs[..k + 1][..k] == docs[..k];
  }

  /** The INSERT, the stored metrics if a row was new, one call per row to index. */
  function StoreCalls(articles: map<nat, Option<nat>>, rows: seq<Row>): nat {
    if rows == [] then 0 else 1 + CountCalls(|InsertRows(articles, rows)| - |articles|) + |rows|
  }

  function CountCalls(stored: int): nat {
    if stored > 0 then 2 else 0
  }

  /** The rejection metrics if anything was rejected, and the XACK. */
  function FinishCalls(tally: Tally): nat {
    if tally.stats != multiset{} then 2 else 1
  }

  function BatchCalls(n: nat): nat {
    2 * n + 5
  }

  lemma CallsFit(docs: seq<Document>, articles: map<nat, Option<nat>>, rows: seq<Row>, tally: Tally, n: nat)
    requires |docs| <= n && |rows| <= n
    ensures GateCalls(docs) + StoreCalls(articles, rows) + FinishCalls(tally) <= BatchCalls(n)
  {}

  /** Enough for a drain of n pending entries: two reads a turn, and the look that
      finds nothing left. */
  function DrainCalls(n: nat): nat {
    9 * n + 1
  }

  lemma {:induction false} IndexPrefix(k: nat, n: nat)
    requires k <= n
    ensures IndexSteps(k) <= IndexSteps(n)
  {
    if k < n {
      IndexPrefix(k, n - 1);
    }
  }

  lemma PrefixLift(a: seq<Step>, b: seq<Step>, c: seq<Step>)
    requires b <= c
    ensures a + b <= a + c
  {}

  lemma ResumeTrace(a: seq<Step>, b: seq<Step>, c: seq<Step>, t: seq<Step>)
    ensures t == a + b + c ==> t == a + (b + c)
    ensures t <= a + b + c ==> t <= a + (b + c)
  {
    assert a + b + c == a + (b + c);
  }

  lemma PrefixMore(t: seq<Step>, a: seq<Step>, b: seq<Step>, c: seq<Step>)
    requires t <= a + b
    ensures t <= a + (b + c)
  {}

  // ---- before and after ----------------------------------------------------------------

  /** What pages and documents say of an entry. */
  datatype Fate = NoArticle | Dead | Empty | AssessedAs(assessment: Assessment)

  /** What a batch is given. */
  datatype Job = Job(ids: seq<nat>, stream: seq<Payload>, inline: nat -> Document, fetch: nat -> Reply,
                     push: nat -> Parking, digest: string -> nat, bits: nat) {
    /** The entries with content. */
    function Kept(): seq<nat> {
      Select(ids, stream, true) + Pages(Select(ids, stream, false), fetch)
    }

    function Steps(docs: seq<Document>, rows: nat): seq<Step> {
      BatchSteps(ids, stream, fetch, push, docs, digest, bits, rows)
    }

    function FirstSteps(docs: seq<Document>): seq<Step> {
      SiftSteps(Select(ids, stream, false), fetch, push, docs, digest, bits)
    }

    ghost predicate Sifted(g: Sieve, rows: seq<Row>, tally: Tally) {
      Sifts(g, ids, stream, inline, fetch, digest, bits, rows, tally)
    }

    /** What comes of entry m, up to the near-duplicate search. */
    function FateOf(m: nat): Fate {
      if m >= |stream| || !stream[m].Article? then NoArticle
      else if stream[m].inline then AssessedAs(inline(m).assessment)
      else
        match fetch(m)
        case PageGone => Dead
        case NothingExtracted => Empty
        case Page(document) => AssessedAs(document.assessment)
    }

    function Fates(): seq<Fate> {
      seq(|ids|, i requires 0 <= i < |ids| => FateOf(ids[i]))
    }

    /** The source that the rejection of entry m counts against. */
    function BlameOf(m: nat): Option<string> {
      var fate := FateOf(m);
      if fate.Dead? || fate.Empty? || (fate.AssessedAs? && fate.assessment.Refused?) then Some(stream[m].source)
      else None
    }

    function Blames(): seq<Option<string>> {
      seq(|ids|, i requires 0 <= i < |ids| => BlameOf(ids[i]))
    }
  }

  /** What it changes outside of itself. */
  datatype Books = Books(healthy: nat, trace: seq<Step>, pending: set<nat>, articles: map<nat, Option<nat>>,
                         stored: int, rejected: int)

  /** Phases 1 and 2, between the runs t and t'. */
  ghost predicate Loaded(j: Job, extracted: seq<nat>, docs: seq<Document>, tally: Tally, t: seq<Step>, t': seq<Step>) {
    var toFetch := Select(j.ids, j.stream, false);
    && extracted == j.Kept() && DocsOf(j.stream, extracted, docs, j.inline, j.fetch)
    && tally == FetchTally(toFetch, j.fetch, j.stream) && t' == t + FetchSteps(toFetch, j.fetch, j.push)
  }

  /** Phases 1 to 3: the effects up to the gates, and the exception if the calls do
      not suffice for them or an entry is not an object. */
  ghost predicate SiftDone(j: Job, g: Sieve, tally: Tally, rows: seq<Row>, raised: bool, a: Books, b: Books) {
    if !Parses(j.ids, j.stream) then raised && b == a else
    && b == a.(healthy := b.healthy, trace := b.trace)
    && DocsOf(j.stream, j.Kept(), g.docs, j.inline, j.fetch) && |g.docs| <= |j.ids| && |rows| <= |j.ids|
    && Paid(a.healthy, b.healthy, GateCalls(g.docs), raised)
    && (if raised then a.trace <= b.trace <= a.trace + j.Steps(g.docs, |rows|)
        else b.trace == a.trace + j.FirstSteps(g.docs) && j.Sifted(g, rows, tally))
  }

  /** Phase 4 and the acknowledgement. */
  ghost predicate StoreDone(ids: seq<nat>, tally: Tally, rows: seq<Row>, raised: bool, a: Books, b: Books) {
    && Paid(a.healthy, b.healthy, StoreCalls(a.articles, rows) + FinishCalls(tally), raised)
    && (if raised then
          && a.trace <= b.trace <= a.trace + (StoreSteps(|rows|) + [Ack]) && b.pending == a.pending
          && b.articles == if a.healthy == 0 then a.articles else InsertRows(a.articles, rows)
        else
          && b.trace == a.trace + (StoreSteps(|rows|) + [Ack]) && b.pending == a.pending - ToSet(ids)
          && b.articles == InsertRows(a.articles, rows) && b.stored - a.stored == |b.articles| - |a.articles|
          && b.rejected == a.rejected + |tally.stats|)
  }

  /** The whole batch. With an entry that is not an object it raises before any
      effect. Otherwise it raises exactly when the calls do not suffice, and never
      with 2n + 5 of them. With an exception its effects are cut off, PENDING is
      untouched and the table holds all the rows or none. Without one its effects
      are all there, and it splits into unparsable entries, counted rejections and
      rows. */
  ghost predicate BatchDone(j: Job, g: Sieve, tally: Tally, rows: seq<Row>, raised: bool, a: Books, b: Books) {
    if !Parses(j.ids, j.stream) then raised && b == a else
    && DocsOf(j.stream, j.Kept(), g.docs, j.inline, j.fetch)
    && Paid(a.healthy, b.healthy, GateCalls(g.docs) + StoreCalls(a.articles, rows) + FinishCalls(tally), raised)
    && PaidAtMost(a.healthy, b.healthy, BatchCalls(|j.ids|), raised)
    && (j.Sifted(g, rows, tally) || (raised && a.healthy < GateCalls(g.docs)))
    && (if raised then
          && a.trace <= b.trace <= a.trace + j.Steps(g.docs, |rows|) && b.pending == a.pending
          && (b.articles == a.articles || b.articles == InsertRows(a.articles, rows))
        else
          && b.trace == a.trace + j.Steps(g.docs, |rows|) && b.pending == a.pending - ToSet(j.ids)
          && b.articles == InsertRows(a.articles, rows) && b.stored - a.stored == |b.articles| - |a.articles|
          && b.rejected == a.rejected + |tally.stats| && Accounted(j.ids, j.stream, tally, rows))
  }

  /** Loading, then the gates, is phases 1 to 3. */
  lemma LoadThenGate(j: Job, g: Sieve, counted: Tally, tally: Tally, rows: seq<Row>, raised: bool,
                     a: Books, between: seq<Step>, b: Books)
    requires Parses(j.ids, j.stream) && b == a.(healthy := b.healthy, trace := b.trace)
    requires Loaded(j, g.extracted, g.docs, counted, a.trace, between)
    requires Paid(a.healthy, b.healthy, GateCalls(g.docs), raised)
    requires if raised then rows == [] && between <= b.trace <= between + GateSteps(g.docs, j.digest, j.bits)
             else
               && b.trace == between + GateSteps(g.docs, j.digest, j.bits)
               && Gating(counted, g.extracted, g.docs, g.passed, j.stream, j.digest, j.bits, rows, tally,
                         GateSteps(g.docs, j.digest, j.bits))
    ensures SiftDone(j, g, tally, rows, raised, a, b)
  {
    Regroup(a.trace, FetchSteps(Select(j.ids, j.stream, false), j.fetch, j.push), GateSteps(g.docs, j.digest, j.bits));
    DocsBound(j, g.docs);
    if raised {
      PrefixMore(b.trace, a.trace, j.FirstSteps(g.docs), StoreSteps(0) + [Ack]);
    } else {
      RowsBound(j, g, tally, rows);
    }
  }

  /** An exception in phases 1 to 3 ends the batch. */
  lemma SiftRaised(j: Job, g: Sieve, tally: Tally, rows: seq<Row>, a: Books, b: Books)
    requires SiftDone(j, g, tally, rows, true, a, b)
    ensures BatchDone(j, g, tally, rows, true, a, b)
  {}

  /** Otherwise phase 4 completes it. */
  lemma SiftThenStore(j: Job, g: Sieve, tally: Tally, rows: seq<Row>, raised: bool, a: Books, b: Books, c: Books)
    requires SiftDone(j, g, tally, rows, false, a, b) && StoreDone(j.ids, tally, rows, raised, b, c)
    ensures BatchDone(j, g, tally, rows, raised, a, c)
  {
    CallsFit(g.docs, a.articles, rows, tally, |j.ids|);
    ResumeTrace(a.trace, j.FirstSteps(g.docs), StoreSteps(|rows|) + [Ack], c.trace);
    SiftAccounts(j, g, tally, rows);
  }

  /** Every entry is unparsable, rejected and counted, or a row; rejections count
      against their source unless they are `lang` or `dup`. */
  lemma SiftAccounts(j: Job, g: Sieve, tally: Tally, rows: seq<Row>)
    requires j.Sifted(g, rows, tally)
    ensures Accounted(j.ids, j.stream, tally, rows)
  {
    var toFetch := Select(j.ids, j.stream, false);
    SplitAccounts(j.ids, j.stream);
    FetchAccounts(toFetch, j.fetch, j.stream);
    GateAccounts(FetchTally(toFetch, j.fetch, j.stream), g.extracted, g.docs, g.passed, j.stream, j.digest, j.bits,
                 |toFetch| - |Pages(toFetch, j.fetch)|);
  }

  lemma {:induction false} SplitAccounts(ids: seq<nat>, stream: seq<Payload>)
    ensures |Select(ids, stream, true)| + |Select(ids, stream, false)| + Unparsable(ids, stream) == |ids|
  {
    if ids != [] {
      SplitAccounts(ids[..|ids| - 1], stream);
    }
  }

  /** At most one document, and one row, per entry. */
  lemma DocsBound(j: Job, docs: seq<Document>)
    requires DocsOf(j.stream, j.Kept(), docs, j.inline, j.fetch)
    ensures |docs| <= |j.ids|
  {
    SplitAccounts(j.ids, j.stream);
    FetchAccounts(Select(j.ids, j.stream, false), j.fetch, j.stream);
  }

  lemma RowsBound(j: Job, g: Sieve, tally: Tally, rows: seq<Row>)
    requires j.Sifted(g, rows, tally)
    ensures |rows| <= |j.ids|
  {
    SiftAccounts(j, g, tally, rows);
  }
}
