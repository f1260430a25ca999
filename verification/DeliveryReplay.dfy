/** Redelivery when nothing new comes of it: if every pending document either
    fails the gates or meets its own fingerprint in the index or the deque, a
    drain of PENDING acknowledges it and stores and indexes nothing. */
module DeliveryReplay {
  import opened Wrappers
  import opened Bits
  import opened NearDup
  import opened Delivery
  import opened DeliverySafety

  // ---- outcomes that do not change between deliveries --------------------------

  /** What fetching and the gates say of an entry, at every delivery. */
  datatype Oracle = Oracle(hasContent: nat -> bool, gate: nat -> Gated)

  predicate Conforms(o: Oracle, s: State, step: Step) {
    && (step.Fetch? && InBatch(s) && s.process.work.batch.toFetch != [] ==>
          (step.fetched.Content? <==> o.hasContent(s.process.work.batch.toFetch[0])))
    && (step.Gate? && InBatch(s) && s.process.work.batch.toGate != [] ==>
          step.gated == o.gate(s.process.work.batch.toGate[0]))
  }

  /** Every outcome of the run is the oracle's. */
  ghost predicate Obeys(c: Config, o: Oracle, s: State, steps: seq<Step>)
    requires CanRun(c, s, steps)
    decreases |steps|
  {
    steps == [] || (Conforms(o, s, steps[0]) && Obeys(c, o, Apply(c, s, steps[0]), steps[1..]))
  }

  ghost predicate ConformsAt(o: Oracle, states: seq<State>, steps: seq<Step>, i: nat) {
    i < |steps| && i < |states| && Conforms(o, states[i], steps[i])
  }

  /** Every outcome from step n on is the oracle's. */
  ghost predicate ObeysFrom(o: Oracle, states: seq<State>, steps: seq<Step>, n: nat) {
    forall i: nat | n <= i < |steps| :: ConformsAt(o, states, steps, i)
  }

  /** No batch is larger than the limit. */
  ghost predicate Within(steps: seq<Step>, limit: nat) {
    forall i | 0 <= i < |steps| ::
      && (steps[i].ReadPending? ==> |steps[i].ids| <= limit)
      && (steps[i].ReadNew? ==> steps[i].count <= limit)
  }

  /** Entry m has content, and it passes the gates with fingerprint fp. */
  predicate Passes(o: Oracle, stream: seq<Payload>, m: nat, fp: nat) {
    HasContent(o, stream, m) && o.gate(m) == Passed(fp)
  }

  predicate HasContent(o: Oracle, stream: seq<Payload>, m: nat) {
    m < |stream| && stream[m].Article? && (stream[m].inline || o.hasContent(m))
  }

  // ---- pieces of runs -------------------------------------------------------------

  lemma {:induction false} CanSplit(c: Config, s: State, a: seq<Step>, b: seq<Step>)
    requires CanRun(c, s, a + b)
    ensures CanRun(c, s, a) && CanRun(c, RunTo(c, s, a), b)
    ensures RunTo(c, s, a + b) == RunTo(c, RunTo(c, s, a), b)
    decreases |a|
  {
    if a == [] {
      assert a + b == b;
    } else {
      assert (a + b)[1..] == a[1..] + b;
      CanSplit(c, Apply(c, s, a[0]), a[1..], b);
    }
  }

  /** Over a whole chain this is obeying. */
  lemma {:induction false} FromStart(c: Config, o: Oracle, states: seq<State>, steps: seq<Step>)
    requires Chain(c, states, steps)
    ensures CanRun(c, states[0], steps)
    ensures ObeysFrom(o, states, steps, 0) <==> Obeys(c, o, states[0], steps)
    decreases |steps|
  {
    ChainRuns(c, states, steps);
    if steps != [] {
      assert Linked(c, states, steps, 0);
      ChainSuffix(c, states, steps, 1);
      FromStart(c, o, states[1..], steps[1..]);
      HeadAndTail(o, states, steps);
    }
  }

  lemma HeadAndTail(o: Oracle, states: seq<State>, steps: seq<Step>)
    requires steps != [] && |states| > |steps|
    ensures ObeysFrom(o, states, steps, 0)
       <==> Conforms(o, states[0], steps[0]) && ObeysFrom(o, states[1..], steps[1..], 0)
  {
    if ObeysFrom(o, states, steps, 0) {
      assert ConformsAt(o, states, steps, 0);
      forall i: nat | i < |steps| - 1
        ensures ConformsAt(o, states[1..], steps[1..], i)
      {
        assert ConformsAt(o, states, steps, i + 1);
      }
    }
    if Conforms(o, states[0], steps[0]) && ObeysFrom(o, states[1..], steps[1..], 0) {
      forall i: nat | i < |steps|
        ensures ConformsAt(o, states, steps, i)
      {
        assert i > 0 ==> ConformsAt(o, states[1..], steps[1..], i - 1);
      }
    }
  }

  /** What is added to a chain obeys the oracle from there on. */
  lemma FromAdded(c: Config, o: Oracle, states: seq<State>, t: seq<Step>, added: seq<Step>)
    requires Chain(c, states, t + added) && CanRun(c, states[|t|], added) && Obeys(c, o, states[|t|], added)
    ensures ObeysFrom(o, states, t + added, |t|)
  {
    var n := |t|;
    ChainSuffix(c, states, t + added, n);
    assert (t + added)[n..] == added;
    FromStart(c, o, states[n..], added);
    forall i: nat | n <= i < |t + added|
      ensures ConformsAt(o, states, t + added, i)
    {
      assert ConformsAt(o, states[n..], added, i - n);
    }
  }

  /** Obeying up to t and from t on is obeying. */
  lemma FromJoin(c: Config, o: Oracle, ss: seq<State>, t: seq<Step>, us: seq<State>, u: seq<Step>, n: nat)
    requires Chain(c, ss, t) && Chain(c, us, u) && ss[0] == us[0] && t <= u
    requires ObeysFrom(o, ss, t, n) && ObeysFrom(o, us, u, |t|)
    ensures ObeysFrom(o, us, u, n)
  {
    forall i: nat | n <= i < |u|
      ensures ConformsAt(o, us, u, i)
    {
      if i < |t| {
        ChainDetermined(c, ss, t, us, u, i);
        assert ConformsAt(o, ss, t, i);
      }
    }
  }

  lemma {:induction false} UndecisiveObeys(c: Config, o: Oracle, s: State, steps: seq<Step>)
    requires CanRun(c, s, steps) && Undecisive(steps)
    ensures Obeys(c, o, s, steps)
    decreases |steps|
  {
    if steps != [] {
      UndecisiveObeys(c, o, Apply(c, s, steps[0]), steps[1..]);
    }
  }

  lemma FromUndecisive(o: Oracle, states: seq<State>, t: seq<Step>, added: seq<Step>)
    requires |states| > |t + added| && Undecisive(added)
    ensures ObeysFrom(o, states, t + added, |t|)
  {
    forall i: nat | |t| <= i < |t + added|
      ensures ConformsAt(o, states, t + added, i)
    {
      assert (t + added)[i] == added[i - |t|];
    }
  }

  // ---- one batch -----------------------------------------------------------------

  ghost predicate Known(c: Config, s: State, fp: nat) {
    Near(s.index, fp, c.threshold) || (s.process.Up? && fp in s.process.seen)
  }

  /** Redelivering entry k brings no row and no exception. */
  ghost predicate Barren(c: Config, o: Oracle, s: State, k: nat) {
    !Poison(s.stream, k) && forall fp | Passes(o, s.stream, k, fp) :: Known(c, s, fp)
  }

  /** A redelivered entry that passes the gates is a duplicate. */
  ghost predicate DuplicateIfPassing(o: Oracle, stream: seq<Payload>, k: nat, v: Verdict) {
    forall fp | Passes(o, stream, k, fp) :: v == WasDuplicate(fp)
  }

  ghost predicate Replaying(c: Config, o: Oracle, s: State) {
    && Conserved(s) && InBatch(s)
    && var b := s.process.work.batch;
       && b.drain && b.stage.Sifting? && b.rows == []
       && (forall k | k in b.ids :: Barren(c, o, s, k))
       && (forall k | k in b.toGate :: HasContent(o, s.stream, k))
       && (forall k | k in b.verdicts :: DuplicateIfPassing(o, s.stream, k, b.verdicts[k]))
  }

  /** Only the bookkeeping of PENDING differs. */
  ghost predicate SameStores(s: State, e: State) {
    && e.stream == s.stream && e.next == s.next && e.index == s.index && e.warmed == s.warmed
    && e.articles == s.articles && e.committed == s.committed
    && s.process.Up? && e.process.Up? && e.process.seen == s.process.seen && e.process.boot == s.process.boot
  }

  lemma BarrenFrame(c: Config, o: Oracle, s: State, e: State, k: nat)
    requires Barren(c, o, s, k) && SameStores(s, e)
    ensures Barren(c, o, e, k)
  {
    forall fp | Passes(o, e.stream, k, fp)
      ensures Known(c, e, fp)
    {
      assert Known(c, s, fp);
    }
  }

  function Left(s: State): nat {
    if InBatch(s) then 2 * |s.process.work.batch.toFetch| + |s.process.work.batch.toGate| else 0
  }

  /** The step with which the oracle decides the head of the queue. */
  function NextStep(o: Oracle, b: Batch): Step
    requires b.toFetch != [] || b.toGate != []
  {
    if b.toFetch != [] then Fetch(if o.hasContent(b.toFetch[0]) then Content else Gone)
    else Gate(o.gate(b.toGate[0]))
  }

  /** The head of the fetch queue moves on or gets its verdict. */
  lemma FetchMoves(c: Config, o: Oracle, s: State)
    requires Replaying(c, o, s) && s.process.work.batch.toFetch != []
    ensures var b := s.process.work.batch;
      var step := NextStep(o, b);
      && Enabled(s, step) && Conforms(o, s, step)
      && var s' := Apply(c, s, step);
         && SameStores(s, s') && s'.pending == s.pending && s'.acked == s.acked
         && InBatch(s')
         && var b' := s'.process.work.batch;
            && b'.ids == b.ids && b'.drain && b'.stage == b.stage && b'.rows == b.rows && Left(s') < Left(s)
            && (forall k | k in b'.toGate :: k in b.toGate || (k == b.toFetch[0] && o.hasContent(k)))
            && (forall k | k in b'.verdicts ::
                  (k in b.verdicts && b'.verdicts[k] == b.verdicts[k]) || (k == b.toFetch[0] && !o.hasContent(k)))
  {}

  lemma FetchReplay(c: Config, o: Oracle, s: State)
    requires Replaying(c, o, s) && s.process.work.batch.toFetch != []
    ensures var b := s.process.work.batch;
      var step := NextStep(o, b);
      && Enabled(s, step) && Conforms(o, s, step)
      && var s' := Apply(c, s, step);
         && SameStores(s, s') && s'.pending == s.pending && s'.acked == s.acked
         && InBatch(s') && s'.process.work.batch.ids == b.ids && Left(s') < Left(s)
         && Replaying(c, o, s')
  {
    var b := s.process.work.batch;
    var step := NextStep(o, b);
    FetchMoves(c, o, s);
    var s' := Apply(c, s, step);
    StepConserves(c, s, step);
    assert b.toFetch[0] in b.toFetch;
    forall k | k in b.ids
      ensures Barren(c, o, s', k)
    {
      BarrenFrame(c, o, s, s', k);
    }
  }

  lemma GateReplay(c: Config, o: Oracle, s: State)
    requires Replaying(c, o, s) && s.process.work.batch.toFetch == [] && s.process.work.batch.toGate != []
    ensures var b := s.process.work.batch;
      var step := NextStep(o, b);
      && Enabled(s, step) && Conforms(o, s, step)
      && var s' := Apply(c, s, step);
         && SameStores(s, s') && s'.pending == s.pending && s'.acked == s.acked
         && InBatch(s') && s'.process.work.batch.ids == b.ids && Left(s') < Left(s)
         && Replaying(c, o, s')
  {
    var b := s.process.work.batch;
    var m := b.toGate[0];
    assert m in b.toGate;
    GateIsBarren(c, o, s);
    var s' := Apply(c, s, Gate(o.gate(m)));
    StepConserves(c, s, Gate(o.gate(m)));
    forall k | k in b.ids
      ensures Barren(c, o, s', k)
    {
      BarrenFrame(c, o, s, s', k);
    }
  }

  /** The head of the queue gets a verdict and nothing else happens. */
  lemma GateIsBarren(c: Config, o: Oracle, s: State)
    requires Replaying(c, o, s) && s.process.work.batch.toFetch == [] && s.process.work.batch.toGate != []
    ensures var b := s.process.work.batch;
      var m := b.toGate[0];
      && Enabled(s, Gate(o.gate(m)))
      && var s' := Apply(c, s, Gate(o.gate(m)));
         && InBatch(s')
         && var v := s'.process.work.batch.verdicts;
            && m in v && DuplicateIfPassing(o, s.stream, m, v[m])
            && s' == s.(process := s.process.(work := Working(
                 b.(toGate := b.toGate[1..], verdicts := b.verdicts[m := v[m]]))))
  {
    var m := s.process.work.batch.toGate[0];
    assert m in s.process.work.batch.toGate;
    if o.gate(m).Passed? {
      assert Passes(o, s.stream, m, o.gate(m).fp);
      assert Barren(c, o, s, m);
    }
  }

  /** The batch ends with its XACK. */
  ghost predicate Replayed(o: Oracle, s: State, e: State, ids: seq<nat>) {
    && SameStores(s, e) && e.process.work.Draining? && e.pending == s.pending - ToSet(ids)
    && (forall k | k in s.acked && k !in ids :: k in e.acked && e.acked[k] == s.acked[k])
    && (forall k | k in ids :: k in e.acked && DuplicateIfPassing(o, e.stream, k, e.acked[k]))
  }

  lemma AckReplay(c: Config, o: Oracle, s: State)
    requires Replaying(c, o, s) && s.process.work.batch.toFetch == [] && s.process.work.batch.toGate == []
    ensures Enabled(s, Ack) && Replayed(o, s, Apply(c, s, Ack), s.process.work.batch.ids)
  {}

  /** Steps of the batch itself: they read nothing and never raise. */
  ghost predicate Plain(steps: seq<Step>) {
    forall i | 0 <= i < |steps| :: !steps[i].Raise? && !steps[i].ReadPending? && !steps[i].ReadNew?
  }

  lemma {:induction false} FinishReplay(c: Config, o: Oracle, s: State) returns (steps: seq<Step>)
    requires Replaying(c, o, s)
    ensures CanRun(c, s, steps) && Obeys(c, o, s, steps) && Plain(steps)
    ensures Replayed(o, s, RunTo(c, s, steps), s.process.work.batch.ids)
    decreases Left(s)
  {
    var b := s.process.work.batch;
    if b.toFetch == [] && b.toGate == [] {
      AckReplay(c, o, s);
      steps := [Ack];
      assert steps[1..] == [];
    } else {
      var step := NextStep(o, b);
      if b.toFetch != [] {
        FetchReplay(c, o, s);
      } else {
        GateReplay(c, o, s);
      }
      var rest := FinishReplay(c, o, Apply(c, s, step));
      steps := [step] + rest;
      assert steps[1..] == rest;
    }
  }

  // ---- from the head of the recovery loop ---------------------------------------------

  lemma ReadReplay(c: Config, o: Oracle, s: State, ids: seq<nat>)
    requires Conserved(s) && s.process.Up? && s.process.work.Draining?
    requires OldestPending(ids, s.pending) && forall k | k in ids :: Barren(c, o, s, k)
    ensures Enabled(s, ReadPending(ids)) && Replaying(c, o, Apply(c, s, ReadPending(ids)))
    ensures SameStores(s, Apply(c, s, ReadPending(ids)))
  {
    var s' := Apply(c, s, ReadPending(ids));
    StepConserves(c, s, ReadPending(ids));
    SelectSound(ids, s.stream, true);
    forall k | k in ids
      ensures Barren(c, o, s', k)
    {
      BarrenFrame(c, o, s, s', k);
    }
  }

  /** One turn of the recovery loop over a barren batch. */
  lemma ReplayBatch(c: Config, o: Oracle, s: State, ids: seq<nat>) returns (steps: seq<Step>)
    requires Conserved(s) && s.process.Up? && s.process.work.Draining?
    requires OldestPending(ids, s.pending) && forall k | k in ids :: Barren(c, o, s, k)
    ensures CanRun(c, s, steps) && Obeys(c, o, s, steps) && NoRaise(steps) && Within(steps, |ids|)
    ensures Conserved(RunTo(c, s, steps)) && Replayed(o, s, RunTo(c, s, steps), ids)
  {
    ReadReplay(c, o, s, ids);
    var s' := Apply(c, s, ReadPending(ids));
    var rest := FinishReplay(c, o, s');
    steps := [ReadPending(ids)] + rest;
    assert steps[1..] == rest;
    RunConserves(c, s, steps);
  }

  /** The oldest entries of a set, at most `limit` of them. */
  lemma {:induction false} Oldest(p: set<nat>, limit: nat) returns (ids: seq<nat>)
    requires p != {} && limit > 0
    ensures OldestPending(ids, p) && |ids| <= limit
    decreases limit
  {
    var least := Least(p);
    ids := [least];
    if limit > 1 && p != {least} {
      var rest := Oldest(p - {least}, limit - 1);
      ids := [least] + rest;
      forall i, j | 0 <= i < j < |ids|
        ensures ids[i] < ids[j]
      {
        assert ids[j] in rest;
      }
    }
  }

  lemma {:induction false} Least(p: set<nat>) returns (least: nat)
    requires p != {}
    ensures least in p && forall m | m in p :: least <= m
    decreases |p|
  {
    var x :| x in p;
    if p == {x} {
      least := x;
    } else {
      var y := Least(p - {x});
      assert p == (p - {x}) + {x};
      least := if x < y then x else y;
    }
  }

  lemma {:induction false} RunOn(c: Config, o: Oracle, s: State, steps: seq<Step>, more: seq<Step>)
    requires CanRun(c, s, steps) && CanRun(c, RunTo(c, s, steps), more)
    requires Obeys(c, o, s, steps) && Obeys(c, o, RunTo(c, s, steps), more)
    ensures CanRun(c, s, steps + more) && Obeys(c, o, s, steps + more)
    ensures RunTo(c, s, steps + more) == RunTo(c, RunTo(c, s, steps), more)
    decreases |steps|
  {
    RunConcat(c, s, steps, more);
    if steps == [] {
      assert steps + more == more;
    } else {
      assert (steps + more)[1..] == steps[1..] + more;
      RunOn(c, o, Apply(c, s, steps[0]), steps[1..], more);
    }
  }

  /** Whatever the batch size, a drain reaches entry m. */
  lemma {:induction false} ReplayUpTo(c: Config, o: Oracle, s: State, m: nat, limit: nat) returns (steps: seq<Step>)
    requires Conserved(s) && s.process.Up? && s.process.work.Draining? && limit > 0
    requires m in s.pending && forall k | k in s.pending :: Barren(c, o, s, k)
    ensures CanRun(c, s, steps) && Obeys(c, o, s, steps) && NoRaise(steps) && Within(steps, limit)
    ensures var e := RunTo(c, s, steps);
      SameStores(s, e) && m !in e.pending && m in e.acked && DuplicateIfPassing(o, e.stream, m, e.acked[m])
    decreases |s.pending|
  {
    var ids := Oldest(s.pending, limit);
    steps := ReplayBatch(c, o, s, ids);
    var e := RunTo(c, s, steps);
    if m !in ids {
      assert ids[0] in s.pending && ids[0] !in e.pending;
      assert e.pending < s.pending;
      SmallerSet(e.pending, s.pending);
      forall k | k in e.pending
        ensures Barren(c, o, e, k)
      {
        BarrenFrame(c, o, s, e, k);
      }
      var rest := ReplayUpTo(c, o, e, m, limit);
      RunOn(c, o, s, steps, rest);
      steps := steps + rest;
    }
  }

  lemma SmallerSet(a: set<nat>, b: set<nat>)
    requires a < b
    ensures |a| < |b|
  {
    assert b == a + (b - a);
    assert b - a != {};
  }
}
