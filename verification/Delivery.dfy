/** The delivery protocol of py-processor/main.py as a state machine: Redis
    (stream, PENDING, dead letters, fingerprint index), the articles table and
    the consumer process. Every step is one external effect or one message's
    decision, so a crash can fall between any two of them. Fetch, extraction,
    quality and language results arrive as parameters of the steps. */
module Delivery {
  import opened Wrappers
  import opened Bits
  import opened NearDup

  /** A stream entry: no JSON at all, JSON that is not an object (on which
      process_batch raises), or an article. `url` stands for the SHA-256 of the
      article's URL, and `inline` says that the payload carries its own content. */
  datatype Payload = Malformed | NotObject | Article(url: nat, inline: bool, source: string)

  datatype Fetched =
    | Gone                    // 404/410
    | NoContent(script: bool) // nothing to extract; `script`: the DLQ script ran
    | Content

  datatype Gated = Rejected | WrongLanguage | Passed(fp: nat)

  /** Why a message was acknowledged. */
  datatype Verdict =
    | WasMalformed | WasGone | WasParked | WasUnparked | WasRejected | WasForeign
    | WasDuplicate(fp: nat)
    | WasRow(fp: nat)

  /** A row handed to INSERT, and the stream entry it came from. */
  datatype Row = Row(url: nat, fp: nat, owner: Option<nat>)

  datatype Stage = Sifting | Indexing(done: nat)

  datatype Batch = Batch(
    ids: seq<nat>, toFetch: seq<nat>, toGate: seq<nat>,
    rows: seq<Row>, verdicts: map<nat, Verdict>, stage: Stage, drain: bool)

  datatype Work =
    | Warming(todo: set<nat>)
    | Draining               // head of the loop in recover_pending
    | Reading                // head of the loop in main
    | Working(batch: Batch)

  /** `boot`: an exception ends the process; otherwise main catches it. */
  datatype Process = Down | Up(boot: bool, seen: seq<nat>, work: Work)

  datatype State = State(
    stream: seq<Payload>, next: nat, pending: set<nat>, acked: map<nat, Verdict>,
    dlq: seq<nat>, dlqSeen: set<nat>,
    index: set<nat>, warmed: bool,
    articles: map<nat, Option<nat>>, // url hash -> content_hash (NULL is None)
    committed: set<Row>,             // every row of a committed INSERT so far
    process: Process)

  datatype Config = Config(threshold: nat, seenCap: nat)

  datatype Step =
    | XAdd(payload: Payload) // a producer or a replay
    | Boot
    | WarmRow(fp: nat)
    | WarmDone
    | ReadPending(ids: seq<nat>)
    | DrainDone
    | ReadNew(count: nat)
    | Fetch(fetched: Fetched)
    | Gate(gated: Gated)
    | Commit
    | IndexRow
    | Ack
    | Crash
    | Raise // an exception that main catches

  // ---- pieces of the steps -----------------------------------------------

  function ToSet<T(==)>(s: seq<T>): set<T> {
    set x | x in s
  }

  /** `deque(maxlen=cap).append(x)` */
  function Push(seen: seq<nat>, x: nat, cap: nat): seq<nat> {
    if cap == 0 then []
    else if |seen| < cap then seen + [x]
    else seen[|seen| - cap + 1..] + [x]
  }

  /** The last `cap` fingerprints appended, the newest at the end. */
  lemma PushIsLast(seen: seq<nat>, x: nat, cap: nat)
    ensures var all := seen + [x];
      Push(seen, x, cap) == if |all| <= cap then all else all[|all| - cap..]
  {}

  /** `INSERT ... ON CONFLICT (url_hash) DO NOTHING` */
  function InsertRows(articles: map<nat, Option<nat>>, rows: seq<Row>): map<nat, Option<nat>> {
    if rows == [] then articles
    else
      var before := InsertRows(articles, rows[..|rows| - 1]);
      var row := rows[|rows| - 1];
      if row.url in before then before else before[row.url := Some(row.fp)]
  }

  /** The oldest entries of PENDING, in stream order. */
  ghost predicate OldestPending(ids: seq<nat>, pending: set<nat>) {
    && ids != []
    && (forall i, j | 0 <= i < j < |ids| :: ids[i] < ids[j])
    && (forall m | m in ids :: m in pending)
    && (forall m, k | m in pending && m !in ids && k in ids :: k < m)
  }

  function Range(lo: nat, count: nat): seq<nat> {
    seq(count, i requires 0 <= i < count => lo + i)
  }

  function Select(ids: seq<nat>, stream: seq<Payload>, inline: bool): seq<nat> {
    if ids == [] then []
    else
      var m := ids[|ids| - 1];
      Select(ids[..|ids| - 1], stream, inline)
      + if m < |stream| && stream[m].Article? && stream[m].inline == inline then [m] else []
  }

  function BadEntries(ids: seq<nat>, stream: seq<Payload>): map<nat, Verdict> {
    map m | m in ids && (m >= |stream| || stream[m].Malformed?) :: WasMalformed
  }

  /** Phases 1 and 2a: unparsable entries are done, the rest is split into
      inline content and pages to fetch. */
  function StartBatch(ids: seq<nat>, stream: seq<Payload>, drain: bool): Batch {
    Batch(ids, Select(ids, stream, false), Select(ids, stream, true), [],
          BadEntries(ids, stream), Sifting, drain)
  }

  function StoredHashes(articles: map<nat, Option<nat>>): set<nat> {
    set u | u in articles && articles[u].Some? :: articles[u].value
  }

  // ---- the steps -----------------------------------------------------------

  predicate InBatch(s: State) {
    s.process.Up? && s.process.work.Working?
  }

  predicate Poison(stream: seq<Payload>, m: nat) {
    m < |stream| && stream[m].NotObject?
  }

  /** Phases 1 and 2a get through these entries. */
  predicate Parses(ids: seq<nat>, stream: seq<Payload>) {
    forall m | m in ids :: !Poison(stream, m)
  }

  /** Nothing pending stops a drain. */
  predicate Clear(pending: set<nat>, stream: seq<Payload>) {
    forall m | m in pending :: !Poison(stream, m)
  }

  /** In a batch that phases 1 and 2a got through. */
  predicate AtWork(s: State) {
    InBatch(s) && Parses(s.process.work.batch.ids, s.stream)
  }

  ghost predicate Enabled(s: State, step: Step) {
    var p := s.process;
    match step
    case XAdd(_) => true
    case Boot => p.Down?
    case WarmRow(fp) => p.Up? && p.work.Warming? && fp in p.work.todo
    case WarmDone => p.Up? && p.work == Warming({})
    case ReadPending(ids) => p.Up? && p.work.Draining? && OldestPending(ids, s.pending)
    case DrainDone => p.Up? && p.work.Draining? && s.pending == {}
    case ReadNew(count) => p.Up? && p.work.Reading? && 0 < count && s.next + count <= |s.stream|
    case Fetch(_) => AtWork(s) && p.work.batch.stage.Sifting? && p.work.batch.toFetch != []
    case Gate(_) =>
      && AtWork(s) && p.work.batch.stage.Sifting?
      && p.work.batch.toFetch == [] && p.work.batch.toGate != []
      && p.work.batch.toGate[0] < |s.stream| && s.stream[p.work.batch.toGate[0]].Article?
    case Commit => AtWork(s) && Sifted(p.work.batch) && p.work.batch.rows != []
    case IndexRow =>
      AtWork(s) && p.work.batch.stage.Indexing? && p.work.batch.stage.done < |p.work.batch.rows|
    case Ack => AtWork(s) && ReadyToAck(p.work.batch)
    case Crash => true
    case Raise => p.Up? && !p.boot
  }

  predicate Sifted(b: Batch) {
    b.stage.Sifting? && b.toFetch == [] && b.toGate == []
  }

  predicate ReadyToAck(b: Batch) {
    if b.stage.Sifting? then Sifted(b) && b.rows == [] else b.stage.done == |b.rows|
  }

  function WithBatch(s: State, b: Batch): State
    requires s.process.Up?
  {
    s.(process := s.process.(work := Working(b)))
  }

  function ApplyFetch(s: State, fetched: Fetched): State
    requires InBatch(s) && s.process.work.batch.toFetch != []
  {
    var b := s.process.work.batch;
    var m, rest := b.toFetch[0], b.toFetch[1..];
    match fetched
    case Gone => WithBatch(s, b.(toFetch := rest, verdicts := b.verdicts[m := WasGone]))
    case Content => WithBatch(s, b.(toFetch := rest, toGate := b.toGate + [m]))
    case NoContent(script) =>
      var verdict := if script then WasParked else WasUnparked;
      var parked := if script && m !in s.dlqSeen
                    then s.(dlq := s.dlq + [m], dlqSeen := s.dlqSeen + {m}) else s;
      WithBatch(parked, b.(toFetch := rest, verdicts := b.verdicts[m := verdict]))
  }

  ghost function ApplyGate(c: Config, s: State, gated: Gated): State
    requires Enabled(s, Gate(gated))
  {
    var b := s.process.work.batch;
    var m := b.toGate[0];
    var b' := b.(toGate := b.toGate[1..]);
    match gated
    case Rejected => WithBatch(s, b'.(verdicts := b.verdicts[m := WasRejected]))
    case WrongLanguage => WithBatch(s, b'.(verdicts := b.verdicts[m := WasForeign]))
    case Passed(fp) =>
      if Near(s.index, fp, c.threshold) || fp in s.process.seen then
        WithBatch(s, b'.(verdicts := b.verdicts[m := WasDuplicate(fp)]))
      else
        var s' := s.(process := s.process.(seen := Push(s.process.seen, fp, c.seenCap)));
        WithBatch(s', b'.(verdicts := b.verdicts[m := WasRow(fp)],
                          rows := b.rows + [Row(s.stream[m].url, fp, Some(m))]))
  }

  ghost function Apply(c: Config, s: State, step: Step): State
    requires Enabled(s, step)
  {
    var p := s.process;
    match step
    case XAdd(payload) => s.(stream := s.stream + [payload])
    case Boot =>
      s.(process := Up(true, [], if s.warmed then Draining else Warming(StoredHashes(s.articles))))
    case WarmRow(fp) =>
      s.(index := s.index + {fp}, process := p.(work := Warming(p.work.todo - {fp})))
    case WarmDone => s.(warmed := true, process := p.(work := Draining))
    case ReadPending(ids) =>
      s.(process := p.(work := Working(StartBatch(ids, s.stream, true))))
    case DrainDone => s.(process := p.(boot := false, work := Reading))
    case ReadNew(count) =>
      var ids := Range(s.next, count);
      s.(next := s.next + count, pending := s.pending + ToSet(ids),
         process := p.(work := Working(StartBatch(ids, s.stream, false))))
    case Fetch(fetched) => ApplyFetch(s, fetched)
    case Gate(gated) => ApplyGate(c, s, gated)
    case Commit =>
      var b := p.work.batch;
      WithBatch(s.(articles := InsertRows(s.articles, b.rows), committed := s.committed + ToSet(b.rows)),
                b.(stage := Indexing(0)))
    case IndexRow =>
      var b := p.work.batch;
      WithBatch(s.(index := s.index + {b.rows[b.stage.done].fp}), b.(stage := Indexing(b.stage.done + 1)))
    case Ack =>
      var b := p.work.batch;
      s.(pending := s.pending - ToSet(b.ids), acked := s.acked + b.verdicts,
         process := p.(work := if b.drain then Draining else Reading))
    case Crash => s.(process := Down)
    case Raise => s.(process := Up(false, p.seen, Draining))
  }

  // ---- runs ------------------------------------------------------------------

  /** Before anything ran: any stream and any articles table. */
  ghost predicate Init(s: State) {
    && s.next == 0 && s.pending == {} && s.acked == map[] && s.dlq == [] && s.dlqSeen == {}
    && s.index == {} && !s.warmed && s.process.Down?
    && s.committed == set u | u in s.articles && s.articles[u].Some? :: Row(u, s.articles[u].value, None)
  }

  ghost predicate CanRun(c: Config, s: State, steps: seq<Step>)
    decreases |steps|
  {
    steps == [] || (Enabled(s, steps[0]) && CanRun(c, Apply(c, s, steps[0]), steps[1..]))
  }

  ghost function RunTo(c: Config, s: State, steps: seq<Step>): State
    requires CanRun(c, s, steps)
    decreases |steps|
  {
    if steps == [] then s else RunTo(c, Apply(c, s, steps[0]), steps[1..])
  }

  lemma {:induction false} RunAppend(c: Config, s: State, steps: seq<Step>, step: Step)
    requires CanRun(c, s, steps) && Enabled(RunTo(c, s, steps), step)
    ensures CanRun(c, s, steps + [step])
    ensures RunTo(c, s, steps + [step]) == Apply(c, RunTo(c, s, steps), step)
    decreases |steps|
  {
    if steps == [] {
      assert [step][1..] == [];
    } else {
      assert (steps + [step])[1..] == steps[1..] + [step];
      RunAppend(c, Apply(c, s, steps[0]), steps[1..], step);
    }
  }

  lemma {:induction false} RunConcat(c: Config, s: State, steps: seq<Step>, more: seq<Step>)
    requires CanRun(c, s, steps) && CanRun(c, RunTo(c, s, steps), more)
    ensures CanRun(c, s, steps + more)
    ensures RunTo(c, s, steps + more) == RunTo(c, RunTo(c, s, steps), more)
    decreases |steps|
  {
    if steps == [] {
      assert steps + more == more;
    } else {
      assert (steps + more)[1..] == steps[1..] + more;
      RunConcat(c, Apply(c, s, steps[0]), steps[1..], more);
    }
  }

  // ---- runs with their states ----------------------------------------------------

  /** Step i leads from state i to the next one. */
  ghost predicate Linked(c: Config, states: seq<State>, steps: seq<Step>, i: nat) {
    && i < |steps| && i + 1 < |states|
    && Enabled(states[i], steps[i]) && states[i + 1] == Apply(c, states[i], steps[i])
  }

  /** The states that a run passes through. */
  ghost predicate Chain(c: Config, states: seq<State>, steps: seq<Step>) {
    |states| == |steps| + 1 && forall i: nat | i < |steps| :: Linked(c, states, steps, i)
  }

  lemma ChainAppend(c: Config, states: seq<State>, steps: seq<Step>, step: Step)
    requires Chain(c, states, steps) && Enabled(states[|steps|], step)
    ensures Chain(c, states + [Apply(c, states[|steps|], step)], steps + [step])
  {
    var s' := Apply(c, states[|steps|], step);
    forall i: nat | i < |steps| + 1
      ensures Linked(c, states + [s'], steps + [step], i)
    {
      assert i < |steps| ==> Linked(c, states, steps, i);
    }
  }

  lemma ChainSuffix(c: Config, states: seq<State>, steps: seq<Step>, n: nat)
    requires Chain(c, states, steps) && n <= |steps|
    ensures Chain(c, states[n..], steps[n..])
  {
    forall i: nat | i < |steps| - n
      ensures Linked(c, states[n..], steps[n..], i)
    {
      assert Linked(c, states, steps, n + i);
    }
  }

  lemma {:induction false} ChainRuns(c: Config, states: seq<State>, steps: seq<Step>)
    requires Chain(c, states, steps)
    ensures CanRun(c, states[0], steps) && RunTo(c, states[0], steps) == states[|steps|]
    decreases |steps|
  {
    if steps != [] {
      assert Linked(c, states, steps, 0);
      ChainSuffix(c, states, steps, 1);
      ChainRuns(c, states[1..], steps[1..]);
    }
  }

  /** A run that can be taken from the last state extends the chain. */
  lemma {:induction false} ChainExtend(c: Config, states: seq<State>, steps: seq<Step>, more: seq<Step>)
      returns (longer: seq<State>)
    requires Chain(c, states, steps) && CanRun(c, states[|steps|], more)
    ensures Chain(c, longer, steps + more) && longer[..|states|] == states
    ensures longer[|steps + more|] == RunTo(c, states[|steps|], more)
    decreases |more|
  {
    if more == [] {
      longer := states;
      assert steps + more == steps;
    } else {
      ChainAppend(c, states, steps, more[0]);
      var s' := Apply(c, states[|steps|], more[0]);
      longer := ChainExtend(c, states + [s'], steps + [more[0]], more[1..]);
      assert steps + [more[0]] + more[1..] == steps + more;
      assert longer[..|states|] == longer[..|states| + 1][..|states|];
    }
  }

  /** The steps determine the states. */
  lemma {:induction false} ChainDetermined(c: Config, ss: seq<State>, t: seq<Step>, us: seq<State>, u: seq<Step>,
                                           i: nat)
    requires Chain(c, ss, t) && Chain(c, us, u) && ss[0] == us[0] && t <= u && i <= |t|
    ensures ss[i] == us[i]
  {
    if i > 0 {
      ChainDetermined(c, ss, t, us, u, i - 1);
      assert Linked(c, ss, t, i - 1) && Linked(c, us, u, i - 1);
    }
  }

  /** If step i is an exception that main caught, it was caught in one of these
      states. */
  ghost predicate CaughtAt(states: seq<State>, steps: seq<Step>, i: nat, retries: set<State>) {
    i < |steps| && i < |states| && (steps[i].Raise? ==> states[i] in retries)
  }

  ghost predicate Caught(states: seq<State>, steps: seq<Step>, retries: set<State>) {
    forall i: nat | i < |steps| :: CaughtAt(states, steps, i, retries)
  }

  lemma CaughtMore(states: seq<State>, steps: seq<Step>, retries: set<State>, longer: seq<State>, more: seq<Step>)
    requires Caught(states, steps, retries) && |states| == |steps| + 1
    requires states <= longer && |longer| > |steps + more|
    requires forall k | 0 <= k < |more| && more[k].Raise? :: longer[|steps| + k] in retries
    ensures Caught(longer, steps + more, retries)
  {
    forall i: nat | i < |steps + more|
      ensures CaughtAt(longer, steps + more, i, retries)
    {
      if i < |steps| {
        assert CaughtAt(states, steps, i, retries);
      } else {
        assert (steps + more)[i] == more[i - |steps|];
      }
    }
  }

  lemma CaughtWider(states: seq<State>, steps: seq<Step>, retries: set<State>, wider: set<State>)
    requires Caught(states, steps, retries) && retries <= wider
    ensures Caught(states, steps, wider)
  {
    forall i: nat | i < |steps|
      ensures CaughtAt(states, steps, i, wider)
    {
      assert CaughtAt(states, steps, i, retries);
    }
  }

  /** Steps that decide no document. */
  ghost predicate Undecisive(steps: seq<Step>) {
    forall i | 0 <= i < |steps| :: !steps[i].Fetch? && !steps[i].Gate?
  }

  ghost predicate NoRaise(steps: seq<Step>) {
    forall i | 0 <= i < |steps| :: !steps[i].Raise?
  }

  lemma WithoutOne(index: set<nat>, fps: set<nat>, todo: set<nat>, fp: nat)
    requires fp in fps && fps <= todo
    ensures fps - {fp} <= todo - {fp}
    ensures (index + {fp}) + (fps - {fp}) == index + fps
    ensures (todo - {fp}) - (fps - {fp}) == todo - fps
  {}

  /** Warm a set of stored fingerprints, one SADD group at a time. */
  lemma {:induction false} WarmSteps(c: Config, s: State, fps: set<nat>) returns (steps: seq<Step>)
    requires s.process.Up? && s.process.work.Warming? && fps <= s.process.work.todo
    ensures CanRun(c, s, steps) && Undecisive(steps) && NoRaise(steps)
    ensures RunTo(c, s, steps)
      == s.(index := s.index + fps, process := s.process.(work := Warming(s.process.work.todo - fps)))
    decreases |fps|
  {
    if fps == {} {
      steps := [];
      assert s.index + fps == s.index && s.process.work.todo - fps == s.process.work.todo;
    } else {
      var fp :| fp in fps;
      var s' := Apply(c, s, WarmRow(fp));
      WithoutOne(s.index, fps, s.process.work.todo, fp);
      var rest := WarmSteps(c, s', fps - {fp});
      steps := [WarmRow(fp)] + rest;
      assert steps[1..] == rest;
    }
  }

  lemma Extend(c: Config, s: State, steps: seq<Step>, cur: State, step: Step)
      returns (longer: seq<Step>, after: State)
    requires CanRun(c, s, steps) && RunTo(c, s, steps) == cur && Enabled(cur, step)
    ensures longer == steps + [step] && CanRun(c, s, longer)
    ensures RunTo(c, s, longer) == after == Apply(c, cur, step)
  {
    RunAppend(c, s, steps, step);
    longer, after := steps + [step], Apply(c, cur, step);
  }

  ghost predicate GatesPass(steps: seq<Step>, fp: nat) {
    forall i | 0 <= i < |steps| && steps[i].Gate? :: steps[i].gated == Passed(fp)
  }

  // ---- a system with one document ------------------------------------------

  lemma SoleEntry(stream: seq<Payload>, drain: bool)
    requires |stream| == 1 && stream[0].Article? && stream[0].inline
    ensures Range(0, 1) == [0]
    ensures StartBatch([0], stream, drain) == Batch([0], [], [0], [], map[], Sifting, drain)
  {
    assert [0][..0] == [];
    assert Select([], stream, true) == [] && Select([], stream, false) == [];
    assert BadEntries([0], stream) == map[];
  }

  /** A fresh system boots and reads its one document. */
  lemma RunToRead(c: Config, s: State) returns (steps: seq<Step>, e: State)
    requires Init(s) && |s.stream| == 1 && s.stream[0].Article? && s.stream[0].inline && s.articles == map[]
    ensures CanRun(c, s, steps) && RunTo(c, s, steps) == e && forall i | 0 <= i < |steps| :: !steps[i].Gate?
    ensures e.process == Up(false, [], Working(Batch([0], [], [0], [], map[], Sifting, false)))
    ensures e.stream == s.stream && e.pending == {0} && e.index == {} && e.warmed
    ensures e.articles == map[] && e.acked == map[]
  {
    var cur := s;
    steps, cur := Extend(c, s, [], s, Boot);
    assert StoredHashes(s.articles) == {};
    steps, cur := Extend(c, s, steps, cur, WarmDone);
    steps, cur := Extend(c, s, steps, cur, DrainDone);
    steps, e := Extend(c, s, steps, cur, ReadNew(1));
    SoleEntry(s.stream, false);
  }

  /** main catches an exception while the document's fingerprint is in the
      deque only; the redelivered document is acknowledged as a duplicate. */
  lemma RunRetry(c: Config, s: State, steps: seq<Step>, cur: State, fp: nat)
      returns (longer: seq<Step>, e: State)
    requires CanRun(c, s, steps) && RunTo(c, s, steps) == cur && GatesPass(steps, fp)
    requires InBatch(cur) && !cur.process.boot && cur.process.seen == [fp]
    requires |cur.stream| == 1 && cur.stream[0].Article? && cur.stream[0].inline
    requires cur.pending == {0} && cur.index == {}
    ensures CanRun(c, s, longer) && RunTo(c, s, longer) == e && GatesPass(longer, fp)
    ensures e.pending == {} && e.acked == cur.acked[0 := WasDuplicate(fp)]
    ensures e.index == {} && e.warmed == cur.warmed && e.articles == cur.articles
  {
    var mid := cur;
    longer, mid := RunRedeliver(c, s, steps, cur, fp);
    longer, e := RunDuplicate(c, s, longer, mid, fp);
  }

  lemma RunRedeliver(c: Config, s: State, steps: seq<Step>, cur: State, fp: nat)
      returns (longer: seq<Step>, e: State)
    requires CanRun(c, s, steps) && RunTo(c, s, steps) == cur
    requires InBatch(cur) && !cur.process.boot && cur.process.seen == [fp]
    requires |cur.stream| == 1 && cur.stream[0].Article? && cur.stream[0].inline && cur.pending == {0}
    ensures CanRun(c, s, longer) && RunTo(c, s, longer) == e
    ensures longer == steps + [Raise] + [ReadPending([0])]
    ensures e == cur.(process := Up(false, [fp], Working(Batch([0], [], [0], [], map[], Sifting, true))))
  {
    longer, e := Extend(c, s, steps, cur, Raise);
    longer, e := Extend(c, s, longer, e, ReadPending([0]));
    SoleEntry(cur.stream, true);
  }

  lemma RunDuplicate(c: Config, s: State, steps: seq<Step>, cur: State, fp: nat)
      returns (longer: seq<Step>, e: State)
    requires CanRun(c, s, steps) && RunTo(c, s, steps) == cur && GatesPass(steps, fp)
    requires cur.process == Up(false, [fp], Working(Batch([0], [], [0], [], map[], Sifting, true)))
    requires |cur.stream| == 1 && cur.stream[0].Article? && cur.pending == {0} && cur.index == {}
    ensures CanRun(c, s, longer) && RunTo(c, s, longer) == e && GatesPass(longer, fp)
    ensures e.pending == {} && e.acked == cur.acked[0 := WasDuplicate(fp)]
    ensures e.index == {} && e.warmed == cur.warmed && e.articles == cur.articles
  {
    var mid: State;
    longer, mid := Extend(c, s, steps, cur, Gate(Passed(fp)));
    assert mid.process.work.batch.verdicts == map[0 := WasDuplicate(fp)];
    longer, e := Extend(c, s, longer, mid, Ack);
    assert ToSet([0]) == {0};
  }
}
