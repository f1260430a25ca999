/** The index repairs itself by redelivery. When a message's content and gate
    results do not change between deliveries, every stored row's fingerprint is
    near an indexed one or its message is still PENDING, even across a crash
    between the commit and the indexing. */
module DeliveryRepair {
  import opened Wrappers
  import opened Bits
  import opened NearDup
  import opened Delivery
  import opened DeliverySafety
  import opened DeliveryReplay

  /** Indexed, or sure to be looked at again. */
  ghost predicate RowRepairable(c: Config, o: Oracle, s: State, r: Row) {
    match r.owner
    case Some(m) =>
      && Passes(o, s.stream, m, r.fp)
      && (Near(s.index, r.fp, c.threshold) || m in s.pending)
    case None =>
      && r.url in s.articles && s.articles[r.url] == Some(r.fp)
      && (Near(s.index, r.fp, c.threshold) || !s.warmed)
  }

  ghost predicate RowsRepairable(c: Config, o: Oracle, s: State) {
    forall r | r in s.committed :: RowRepairable(c, o, s, r)
  }

  /** Rejecting fp as a duplicate leaves no stored row unindexed: it is near the
      index, about to be indexed with the batch, or not stored at all. */
  ghost predicate Harmless(c: Config, s: State, fp: nat) {
    Near(s.index, fp, c.threshold) || HasFp(BatchRows(s), fp) || !HasFp(s.committed, fp)
  }

  ghost predicate SeenHarmless(c: Config, s: State) {
    s.process.Up? ==> forall fp | fp in s.process.seen :: Harmless(c, s, fp)
  }

  /** While warming, what is stored is indexed or still to do; a process that is
      past warming has set the sentinel. */
  ghost predicate WarmOk(s: State) {
    s.process.Up? ==>
      if s.process.work.Warming? then
        !s.warmed && s.process.boot
        && StoredHashes(s.articles) <= s.index + s.process.work.todo
      else s.warmed
  }

  ghost predicate VerdictIndexed(c: Config, o: Oracle, s: State, m: nat, v: Verdict) {
    forall fp | Passes(o, s.stream, m, fp) ::
      (v == WasRow(fp) || v == WasDuplicate(fp)) && Harmless(c, s, fp)
  }

  ghost predicate BatchIndexed(c: Config, o: Oracle, s: State) {
    InBatch(s) ==>
      var b := s.process.work.batch;
      && (forall m | m in b.verdicts :: VerdictIndexed(c, o, s, m, b.verdicts[m]))
      && (forall m | m in b.toGate :: HasContent(o, s.stream, m))
      && (forall r | r in b.rows :: r.owner.Some? && Passes(o, s.stream, r.owner.value, r.fp))
      && (b.stage.Indexing? ==>
            b.stage.done <= |b.rows| && forall i | 0 <= i < b.stage.done :: b.rows[i].fp in s.index)
  }

  ghost predicate Repairable(c: Config, o: Oracle, s: State) {
    RowsRepairable(c, o, s) && SeenHarmless(c, s) && WarmOk(s) && BatchIndexed(c, o, s)
  }

  /** Every stored fingerprint in the deque is already near the index. */
  ghost predicate SafeToReindex(c: Config, s: State) {
    s.process.Up? ==>
      forall fp | fp in s.process.seen :: Near(s.index, fp, c.threshold) || !HasFp(s.committed, fp)
  }

  lemma InitRepairable(c: Config, o: Oracle, s: State)
    requires Init(s)
    ensures Repairable(c, o, s)
  {}

  lemma NearGrows(index: set<nat>, more: set<nat>, threshold: nat)
    requires index <= more
    ensures forall fp :: Near(index, fp, threshold) ==> Near(more, fp, threshold)
  {
    forall fp | Near(index, fp, threshold)
      ensures Near(more, fp, threshold)
    {
      var x :| x in index && Hamming(fp, x) <= threshold;
      assert x in more;
    }
  }

  lemma NearSelf(index: set<nat>, fp: nat, threshold: nat)
    requires fp in index
    ensures Near(index, fp, threshold)
  {
    HammingZero(fp, fp);
  }

  lemma HarmlessFrame(c: Config, s: State, s': State, fp: nat)
    requires Harmless(c, s, fp) && s.index <= s'.index
    requires HasFp(BatchRows(s), fp) ==> HasFp(BatchRows(s'), fp)
    requires HasFp(s'.committed, fp) ==> HasFp(s.committed, fp) || HasFp(BatchRows(s'), fp)
    ensures Harmless(c, s', fp)
  {
    NearGrows(s.index, s'.index, c.threshold);
  }

  // ---- one step, component by component --------------------------------------

  lemma RowsFrame(c: Config, o: Oracle, s: State, s': State)
    requires RowsRepairable(c, o, s)
    requires s.stream <= s'.stream && s'.committed == s.committed && s'.articles == s.articles
    requires s.index <= s'.index && s.pending <= s'.pending && s'.warmed == s.warmed
    ensures RowsRepairable(c, o, s')
  {
    NearGrows(s.index, s'.index, c.threshold);
    forall r | r in s'.committed
      ensures RowRepairable(c, o, s', r)
    {
      assert RowRepairable(c, o, s, r);
    }
  }

  lemma CommitRows(c: Config, o: Oracle, s: State)
    requires Conserved(s) && Repairable(c, o, s) && Enabled(s, Commit)
    ensures RowsRepairable(c, o, Apply(c, s, Commit))
  {
    var s' := Apply(c, s, Commit);
    InsertSound(s.articles, s.process.work.batch.rows);
    forall r | r in s'.committed
      ensures RowRepairable(c, o, s', r)
    {
      if r in s.committed {
        assert RowRepairable(c, o, s, r);
      } else {
        assert r in s.process.work.batch.rows;
      }
    }
  }

  /** At the XACK every row of the batch is indexed, so each of its messages
      that passed is near the index. */
  lemma AckRows(c: Config, o: Oracle, s: State)
    requires Conserved(s) && Repairable(c, o, s) && Enabled(s, Ack)
    ensures RowsRepairable(c, o, Apply(c, s, Ack)) && SafeToReindex(c, s)
  {
    var b, s' := s.process.work.batch, Apply(c, s, Ack);
    RowsIndexed(c, o, s);
    forall r | r in s'.committed
      ensures RowRepairable(c, o, s', r)
    {
      assert RowRepairable(c, o, s, r);
      if r.owner.Some? && r.owner.value in b.ids {
        var m := r.owner.value;
        assert b.toFetch == [] && b.toGate == [];
        assert VerdictIndexed(c, o, s, m, b.verdicts[m]);
      }
    }
  }

  lemma RowsIndexed(c: Config, o: Oracle, s: State)
    requires Repairable(c, o, s) && Enabled(s, Ack)
    ensures forall fp | HasFp(BatchRows(s), fp) :: Near(s.index, fp, c.threshold)
  {
    forall fp | HasFp(BatchRows(s), fp)
      ensures Near(s.index, fp, c.threshold)
    {
      var b := s.process.work.batch;
      var i :| 0 <= i < |b.rows| && b.rows[i].fp == fp;
      NearSelf(s.index, fp, c.threshold);
    }
  }

  lemma WarmDoneRows(c: Config, o: Oracle, s: State)
    requires Conserved(s) && Repairable(c, o, s) && Enabled(s, WarmDone)
    ensures RowsRepairable(c, o, Apply(c, s, WarmDone))
  {
    var s' := Apply(c, s, WarmDone);
    forall r | r in s'.committed
      ensures RowRepairable(c, o, s', r)
    {
      assert RowRepairable(c, o, s, r);
      if r.owner.None? {
        assert r.fp in StoredHashes(s.articles);
        NearSelf(s.index, r.fp, c.threshold);
      }
    }
  }

  lemma StepRows(c: Config, o: Oracle, s: State, step: Step)
    requires Conserved(s) && Repairable(c, o, s) && Enabled(s, step)
    ensures RowsRepairable(c, o, Apply(c, s, step))
  {
    if step.Commit? {
      CommitRows(c, o, s);
    } else if step.Ack? {
      AckRows(c, o, s);
    } else if step.WarmDone? {
      WarmDoneRows(c, o, s);
    } else {
      RowsFrame(c, o, s, Apply(c, s, step));
    }
  }

  lemma SeenFrame(c: Config, s: State, s': State)
    requires SeenHarmless(c, s) && s.index <= s'.index
    requires s'.process.Up? ==> s'.process.seen == [] || (s.process.Up? && s'.process.seen == s.process.seen)
    requires s'.process.Up? && s'.process.seen != [] ==> BatchRows(s) == BatchRows(s') || SafeToReindex(c, s)
    requires forall fp | HasFp(s'.committed, fp) :: HasFp(s.committed, fp) || HasFp(BatchRows(s'), fp)
    ensures SeenHarmless(c, s')
  {
    NearGrows(s.index, s'.index, c.threshold);
  }

  lemma CommitMembers(c: Config, s: State)
    requires Enabled(s, Commit)
    ensures BatchRows(Apply(c, s, Commit)) == BatchRows(s)
    ensures forall fp | HasFp(Apply(c, s, Commit).committed, fp) :: HasFp(s.committed, fp) || HasFp(BatchRows(s), fp)
  {
    var s' := Apply(c, s, Commit);
    forall fp | HasFp(s'.committed, fp)
      ensures HasFp(s.committed, fp) || HasFp(BatchRows(s), fp)
    {
      var r :| r in s'.committed && r.fp == fp;
      assert r in s.committed || r in BatchRows(s);
    }
  }

  lemma GateSeen(c: Config, s: State, gated: Gated)
    requires SeenHarmless(c, s) && Enabled(s, Gate(gated))
    ensures SeenHarmless(c, Apply(c, s, Gate(gated)))
  {
    var s' := Apply(c, s, Gate(gated));
    GateShape(c, s, gated);
    RowsGrow(s.process.work.batch.rows, s'.process.work.batch.rows);
    if gated.Passed? {
      PushMembers(s.process.seen, gated.fp, c.seenCap);
    }
  }

  lemma StepSeen(c: Config, o: Oracle, s: State, step: Step)
    requires Conserved(s) && Repairable(c, o, s) && Enabled(s, step)
    requires step.Raise? ==> SafeToReindex(c, s)
    ensures SeenHarmless(c, Apply(c, s, step))
  {
    if step.Gate? {
      GateSeen(c, s, step.gated);
    } else {
      if step.Ack? {
        AckRows(c, o, s);
      } else if step.Commit? {
        CommitMembers(c, s);
      }
      SeenFrame(c, s, Apply(c, s, step));
    }
  }

  lemma StepWarm(c: Config, o: Oracle, s: State, step: Step)
    requires Repairable(c, o, s) && Enabled(s, step)
    ensures WarmOk(Apply(c, s, step))
  {
    if step.Gate? {
      GateShape(c, s, step.gated);
    }
  }

  lemma VerdictFrame(c: Config, o: Oracle, s: State, s': State, m: nat, v: Verdict)
    requires VerdictIndexed(c, o, s, m, v) && m < |s.stream| && s.stream <= s'.stream
    requires s.index <= s'.index
    requires forall fp :: HasFp(BatchRows(s), fp) ==> HasFp(BatchRows(s'), fp)
    requires forall fp | HasFp(s'.committed, fp) :: HasFp(s.committed, fp) || HasFp(BatchRows(s'), fp)
    ensures VerdictIndexed(c, o, s', m, v)
  {
    forall fp | Passes(o, s'.stream, m, fp)
      ensures (v == WasRow(fp) || v == WasDuplicate(fp)) && Harmless(c, s', fp)
    {
      assert Passes(o, s.stream, m, fp);
      HarmlessFrame(c, s, s', fp);
    }
  }

  /** Steps that touch no verdict, queue or row of the batch. */
  lemma BatchFrame(c: Config, o: Oracle, s: State, s': State)
    requires Conserved(s) && BatchIndexed(c, o, s) && InBatch(s) && InBatch(s')
    requires s.stream <= s'.stream && s.index <= s'.index
    requires s'.process.work.batch == s.process.work.batch.(stage := s'.process.work.batch.stage)
    requires forall fp | HasFp(s'.committed, fp) :: HasFp(s.committed, fp) || HasFp(BatchRows(s'), fp)
    requires s'.process.work.batch.stage.Indexing? ==>
      var b := s'.process.work.batch;
      b.stage.done <= |b.rows| && forall i | 0 <= i < b.stage.done :: b.rows[i].fp in s'.index
    ensures BatchIndexed(c, o, s')
  {
    var b := s.process.work.batch;
    forall m | m in b.verdicts
      ensures VerdictIndexed(c, o, s', m, b.verdicts[m])
    {
      assert Fits(s, m, b.verdicts[m]);
      VerdictFrame(c, o, s, s', m, b.verdicts[m]);
    }
  }

  lemma StartIndexed(c: Config, o: Oracle, s: State, ids: seq<nat>, drain: bool)
    requires InBatch(s) && s.process.work.batch == StartBatch(ids, s.stream, drain)
    ensures BatchIndexed(c, o, s)
  {
    SelectSound(ids, s.stream, true);
  }

  lemma FetchIndexed(c: Config, o: Oracle, s: State, fetched: Fetched)
    requires Conserved(s) && Repairable(c, o, s) && Enabled(s, Fetch(fetched))
    requires Conforms(o, s, Fetch(fetched))
    ensures BatchIndexed(c, o, Apply(c, s, Fetch(fetched)))
  {
    var s' := Apply(c, s, Fetch(fetched));
    var b, b' := s.process.work.batch, s'.process.work.batch;
    var m := b.toFetch[0];
    assert m in b.toFetch;
    forall k | k in b'.verdicts
      ensures VerdictIndexed(c, o, s', k, b'.verdicts[k])
    {
      if k != m {
        assert Fits(s, k, b.verdicts[k]);
        VerdictFrame(c, o, s, s', k, b.verdicts[k]);
      } else if !fetched.Content? {
        assert !HasContent(o, s'.stream, m);
      } else {
        assert Fits(s, k, b.verdicts[k]);
        VerdictFrame(c, o, s, s', k, b.verdicts[k]);
      }
    }
  }

  lemma GateVerdict(c: Config, s: State, gated: Gated)
    requires Enabled(s, Gate(gated))
    ensures InBatch(Apply(c, s, Gate(gated)))
    ensures
      var s' := Apply(c, s, Gate(gated));
      var m := s.process.work.batch.toGate[0];
      && m in s'.process.work.batch.verdicts
      && (gated.Passed? ==>
            var v := s'.process.work.batch.verdicts[m];
            || (v == WasRow(gated.fp) && s'.process.work.batch.rows
                  == s.process.work.batch.rows + [Row(s.stream[m].url, gated.fp, Some(m))])
            || (v == WasDuplicate(gated.fp)
                && (Near(s.index, gated.fp, c.threshold) || gated.fp in s.process.seen)))
  {}

  lemma GateIndexed(c: Config, o: Oracle, s: State, gated: Gated)
    requires Conserved(s) && Repairable(c, o, s) && Enabled(s, Gate(gated))
    requires Conforms(o, s, Gate(gated))
    ensures BatchIndexed(c, o, Apply(c, s, Gate(gated)))
  {
    var s' := Apply(c, s, Gate(gated));
    var b, b' := s.process.work.batch, s'.process.work.batch;
    var m := b.toGate[0];
    GateShape(c, s, gated);
    GateVerdict(c, s, gated);
    RowsGrow(b.rows, b'.rows);
    assert m in b.toGate;
    forall k | k in b'.verdicts
      ensures VerdictIndexed(c, o, s', k, b'.verdicts[k])
    {
      if k != m {
        assert Fits(s, k, b.verdicts[k]);
        VerdictFrame(c, o, s, s', k, b.verdicts[k]);
      }
    }
  }

  lemma ReadIndexed(c: Config, o: Oracle, s: State, step: Step)
    requires Enabled(s, step) && (step.ReadPending? || step.ReadNew?)
    ensures BatchIndexed(c, o, Apply(c, s, step))
  {
    if step.ReadPending? {
      StartIndexed(c, o, Apply(c, s, step), step.ids, true);
    } else {
      StartIndexed(c, o, Apply(c, s, step), Range(s.next, step.count), false);
    }
  }

  lemma XAddIndexed(c: Config, o: Oracle, s: State, payload: Payload)
    requires Conserved(s) && BatchIndexed(c, o, s) && InBatch(s)
    ensures BatchIndexed(c, o, Apply(c, s, XAdd(payload)))
  {
    BatchFrame(c, o, s, Apply(c, s, XAdd(payload)));
  }

  lemma CommitIndexed(c: Config, o: Oracle, s: State)
    requires Conserved(s) && BatchIndexed(c, o, s) && Enabled(s, Commit)
    ensures BatchIndexed(c, o, Apply(c, s, Commit))
  {
    CommitMembers(c, s);
    BatchFrame(c, o, s, Apply(c, s, Commit));
  }

  lemma IndexRowIndexed(c: Config, o: Oracle, s: State)
    requires Conserved(s) && BatchIndexed(c, o, s) && Enabled(s, IndexRow)
    ensures BatchIndexed(c, o, Apply(c, s, IndexRow))
  {
    var b, s' := s.process.work.batch, Apply(c, s, IndexRow);
    forall i | 0 <= i < b.stage.done + 1
      ensures b.rows[i].fp in s'.index
    {
      assert i < b.stage.done ==> b.rows[i].fp in s.index;
    }
    BatchFrame(c, o, s, s');
  }

  lemma StepBatchIndexed(c: Config, o: Oracle, s: State, step: Step)
    requires Conserved(s) && Repairable(c, o, s) && Enabled(s, step) && Conforms(o, s, step)
    ensures BatchIndexed(c, o, Apply(c, s, step))
  {
    if step.ReadPending? || step.ReadNew? {
      ReadIndexed(c, o, s, step);
    } else if step.Fetch? {
      FetchIndexed(c, o, s, step.fetched);
    } else if step.Gate? {
      GateIndexed(c, o, s, step.gated);
    } else if step.XAdd? && InBatch(s) {
      XAddIndexed(c, o, s, step.payload);
    } else if step.Commit? {
      CommitIndexed(c, o, s);
    } else if step.IndexRow? {
      IndexRowIndexed(c, o, s);
    }
  }

  lemma StepRepairable(c: Config, o: Oracle, s: State, step: Step)
    requires Conserved(s) && Repairable(c, o, s) && Enabled(s, step) && Conforms(o, s, step)
    requires step.Raise? ==> SafeToReindex(c, s)
    ensures Repairable(c, o, Apply(c, s, step))
  {
    StepRows(c, o, s, step);
    StepSeen(c, o, s, step);
    StepWarm(c, o, s, step);
    StepBatchIndexed(c, o, s, step);
  }

  // ---- every run -----------------------------------------------------------------

  /** Outcomes follow the oracle, and the process retries in place only when
      its deque is indexed; restarts are free. */
  ghost predicate RestartRun(c: Config, o: Oracle, s: State, steps: seq<Step>)
    requires CanRun(c, s, steps)
    decreases |steps|
  {
    steps == [] ||
    (&& Conforms(o, s, steps[0])
     && (steps[0].Raise? ==> SafeToReindex(c, s))
     && RestartRun(c, o, Apply(c, s, steps[0]), steps[1..]))
  }

  /** Each retry in the process is safe for the index. */
  ghost predicate RaisesSafe(c: Config, s: State, steps: seq<Step>)
    requires CanRun(c, s, steps)
    decreases |steps|
  {
    steps == [] ||
    ((steps[0].Raise? ==> SafeToReindex(c, s)) && RaisesSafe(c, Apply(c, s, steps[0]), steps[1..]))
  }

  lemma {:induction false} RestartExactly(c: Config, o: Oracle, s: State, steps: seq<Step>)
    requires CanRun(c, s, steps)
    ensures RestartRun(c, o, s, steps) <==> Obeys(c, o, s, steps) && RaisesSafe(c, s, steps)
    decreases |steps|
  {
    if steps != [] {
      RestartExactly(c, o, Apply(c, s, steps[0]), steps[1..]);
    }
  }

  lemma {:induction false} RunRepairs(c: Config, o: Oracle, s: State, steps: seq<Step>)
    requires Conserved(s) && Repairable(c, o, s)
    requires CanRun(c, s, steps) && RestartRun(c, o, s, steps)
    ensures Conserved(RunTo(c, s, steps)) && Repairable(c, o, RunTo(c, s, steps))
    decreases |steps|
  {
    if steps != [] {
      StepConserves(c, s, steps[0]);
      StepRepairable(c, o, s, steps[0]);
      RunRepairs(c, o, Apply(c, s, steps[0]), steps[1..]);
    }
  }

  /** Index repair: each committed row is near the index, its message is still
      PENDING, or it predates the first run and warming has not finished. */
  lemma StoredRowsAreRepaired(c: Config, o: Oracle, s: State, steps: seq<Step>)
    requires Init(s) && CanRun(c, s, steps) && RestartRun(c, o, s, steps)
    ensures var e := RunTo(c, s, steps);
      forall r | r in e.committed ::
        || Near(e.index, r.fp, c.threshold)
        || (r.owner.Some? && r.owner.value in e.pending)
        || (r.owner.None? && !e.warmed)
  {
    InitConserved(s);
    InitRepairable(c, o, s);
    RunRepairs(c, o, s, steps);
    var e := RunTo(c, s, steps);
    forall r | r in e.committed
      ensures RowRepairable(c, o, e, r)
    {
    }
  }

  /** Whenever the process is about to read new entries, is_duplicate catches
      every stored document. */
  lemma IdleIndexIsComplete(c: Config, o: Oracle, s: State, steps: seq<Step>)
    requires Init(s) && CanRun(c, s, steps) && RestartRun(c, o, s, steps)
    requires RunTo(c, s, steps).process.Up? && RunTo(c, s, steps).process.work.Reading?
    ensures var e := RunTo(c, s, steps);
      forall u | u in e.articles && e.articles[u].Some? :: Near(e.index, e.articles[u].value, c.threshold)
  {
    InitConserved(s);
    InitOrderly(s);
    RunOrderly(c, s, steps);
    InitRepairable(c, o, s);
    RunRepairs(c, o, s, steps);
    var e := RunTo(c, s, steps);
    forall u | u in e.articles && e.articles[u].Some?
      ensures Near(e.index, e.articles[u].value, c.threshold)
    {
      var r :| r in e.committed && r.fp == e.articles[u].value;
      assert RowRepairable(c, o, e, r);
    }
  }

  // ---- when a retry in the process is safe for the index ------------------------------

  /** The deque still holds, or the index is near, every fingerprint that the
      batch has decided on. */
  ghost predicate Remembered(c: Config, s: State) {
    InBatch(s) ==>
      forall m | m in s.process.work.batch.verdicts :: VerdictKnown(c, s, s.process.work.batch.verdicts[m])
  }

  ghost predicate VerdictKnown(c: Config, s: State, v: Verdict) {
    v.WasRow? || v.WasDuplicate? ==> Known(c, s, v.fp)
  }

  /** A deque that has not filled up has forgotten nothing. */
  ghost predicate Remembers(c: Config, s: State) {
    s.process.Up? && |s.process.seen| < c.seenCap ==> Remembered(c, s)
  }

  lemma KnownFrame(c: Config, s: State, s': State)
    requires s.index <= s'.index && s.process.Up? && s'.process.Up?
    requires forall fp | fp in s.process.seen :: fp in s'.process.seen
    ensures forall v: Verdict | VerdictKnown(c, s, v) :: VerdictKnown(c, s', v)
  {
    NearGrows(s.index, s'.index, c.threshold);
  }

  lemma GateRemembers(c: Config, s: State, gated: Gated)
    requires Remembers(c, s) && Enabled(s, Gate(gated))
    ensures Remembers(c, Apply(c, s, Gate(gated)))
  {
    var s' := Apply(c, s, Gate(gated));
    if |s'.process.seen| < c.seenCap {
      PushKeeps(s.process.seen, if gated.Passed? then gated.fp else 0, c.seenCap);
      KnownFrame(c, s, s');
    }
  }

  lemma PushKeeps(seen: seq<nat>, x: nat, cap: nat)
    ensures |Push(seen, x, cap)| < cap ==> |seen| < cap && Push(seen, x, cap) == seen + [x]
  {}

  lemma StepRemembers(c: Config, s: State, step: Step)
    requires Remembers(c, s) && Enabled(s, step)
    ensures Remembers(c, Apply(c, s, step))
  {
    if step.Gate? {
      GateRemembers(c, s, step.gated);
    } else if InBatch(s) && Apply(c, s, step).process.Up? {
      KnownFrame(c, s, Apply(c, s, step));
    }
  }

  /** As long as the deque has room, it remembers the batch. */
  lemma {:induction false} RunRemembers(c: Config, s: State, steps: seq<Step>)
    requires Remembers(c, s) && CanRun(c, s, steps)
    ensures Remembers(c, RunTo(c, s, steps))
    decreases |steps|
  {
    if steps != [] {
      StepRemembers(c, s, steps[0]);
      RunRemembers(c, Apply(c, s, steps[0]), steps[1..]);
    }
  }

  /** Every document of the batch is decided: the process is at the INSERT, past
      it, or at the XACK. */
  ghost predicate Decided(s: State) {
    AtWork(s) && s.process.work.batch.toFetch == [] && s.process.work.batch.toGate == []
  }

  /** The rows that a retry can still lose belong to the batch: it is committed,
      or there is nothing else pending. */
  ghost predicate OwnsPending(s: State) {
    InBatch(s) && (s.process.work.batch.stage.Indexing? || s.pending <= ToSet(s.process.work.batch.ids))
  }

  lemma {:induction false} ObeyingRestarts(c: Config, o: Oracle, s: State, steps: seq<Step>)
    requires CanRun(c, s, steps) && NoRaise(steps) && Obeys(c, o, s, steps)
    ensures RestartRun(c, o, s, steps)
    decreases |steps|
  {
    if steps != [] {
      ObeyingRestarts(c, o, Apply(c, s, steps[0]), steps[1..]);
    }
  }

  lemma ReindexKeeps(c: Config, o: Oracle, s: State)
    requires Conserved(s) && Repairable(c, o, s) && Enabled(s, Raise) && SafeToReindex(c, s)
    ensures forall steps | CanRun(c, Apply(c, s, Raise), steps) && NoRaise(steps)
                        && Obeys(c, o, Apply(c, s, Raise), steps) ::
      RowsRepairable(c, o, RunTo(c, Apply(c, s, Raise), steps))
  {
    var s1 := Apply(c, s, Raise);
    StepConserves(c, s, Raise);
    StepRepairable(c, o, s, Raise);
    forall steps | CanRun(c, s1, steps) && NoRaise(steps) && Obeys(c, o, s1, steps)
      ensures RowsRepairable(c, o, RunTo(c, s1, steps))
    {
      ObeyingRestarts(c, o, s1, steps);
      RunRepairs(c, o, s1, steps);
    }
  }

  /** A committed row of the batch that the deque would reject unindexed. */
  lemma StrandedRow(c: Config, o: Oracle, s: State) returns (r: Row)
    requires Conserved(s) && Repairable(c, o, s) && Enabled(s, Raise) && OwnsPending(s)
    requires !SafeToReindex(c, s)
    ensures r in s.committed && r.owner.Some? && r.owner.value in s.process.work.batch.ids
    ensures !Near(s.index, r.fp, c.threshold)
  {
    var b := s.process.work.batch;
    var fp :| fp in s.process.seen && !Near(s.index, fp, c.threshold) && HasFp(s.committed, fp);
    if b.stage.Indexing? {
      assert Harmless(c, s, fp);
      r :| r in BatchRows(s) && r.fp == fp;
      assert r in b.rows;
    } else {
      r :| r in s.committed && r.fp == fp;
      assert RowRepairable(c, o, s, r);
    }
  }

  /** The batch, delivered again, brings no row. */
  lemma RedeliveryIsBarren(c: Config, o: Oracle, s: State)
    requires Conserved(s) && Repairable(c, o, s) && Decided(s) && Remembered(c, s) && Enabled(s, Raise)
    ensures forall k | k in s.process.work.batch.ids :: Barren(c, o, Apply(c, s, Raise), k)
  {
    var b := s.process.work.batch;
    forall k | k in b.ids
      ensures Barren(c, o, Apply(c, s, Raise), k)
    {
      assert VerdictIndexed(c, o, s, k, b.verdicts[k]);
      assert VerdictKnown(c, s, b.verdicts[k]);
    }
  }

  /** The retry delivers the same batch again; every document that passed is a
      duplicate now, and the stranded row is acknowledged without being indexed. */
  lemma ReindexLoses(c: Config, o: Oracle, s: State) returns (steps: seq<Step>, r: Row)
    requires Conserved(s) && Orderly(s) && Repairable(c, o, s) && Enabled(s, Raise)
    requires Decided(s) && OwnsPending(s) && Remembered(c, s) && !SafeToReindex(c, s)
    ensures var s1 := Apply(c, s, Raise);
      CanRun(c, s1, steps) && NoRaise(steps) && Obeys(c, o, s1, steps) && Within(steps, |s.process.work.batch.ids|)
    ensures var e := RunTo(c, Apply(c, s, Raise), steps);
      && r in e.committed && r.owner.Some? && r.owner.value !in e.pending && !Near(e.index, r.fp, c.threshold)
  {
    r := StrandedRow(c, o, s);
    RedeliveryIsBarren(c, o, s);
    StepConserves(c, s, Raise);
    steps := ReplayBatch(c, o, Apply(c, s, Raise), s.process.work.batch.ids);
  }

  /** Once the batch is decided and remembered, main may retry in the process
      without harm to the index if and only if no stored fingerprint in the deque
      is missing from it. */
  lemma ReindexSafeExactly(c: Config, o: Oracle, s: State)
    requires Conserved(s) && Orderly(s) && Repairable(c, o, s) && Enabled(s, Raise)
    requires Decided(s) && OwnsPending(s) && Remembered(c, s)
    ensures SafeToReindex(c, s) <==>
      forall steps | CanRun(c, Apply(c, s, Raise), steps) && NoRaise(steps) && Obeys(c, o, Apply(c, s, Raise), steps) ::
        RowsRepairable(c, o, RunTo(c, Apply(c, s, Raise), steps))
  {
    if SafeToReindex(c, s) {
      ReindexKeeps(c, o, s);
    } else {
      var steps, r := ReindexLoses(c, o, s);
      assert !RowRepairable(c, o, RunTo(c, Apply(c, s, Raise), steps), r);
    }
  }

  /** The same for every reachable state whose deque still has room. */
  lemma ReachableReindex(c: Config, o: Oracle, start: State, before: seq<Step>)
    requires Init(start) && CanRun(c, start, before) && RestartRun(c, o, start, before)
    requires var s := RunTo(c, start, before);
      Enabled(s, Raise) && Decided(s) && OwnsPending(s) && |s.process.seen| < c.seenCap
    ensures var s := RunTo(c, start, before);
      SafeToReindex(c, s) <==>
        forall steps | CanRun(c, Apply(c, s, Raise), steps) && NoRaise(steps)
                     && Obeys(c, o, Apply(c, s, Raise), steps) ::
          RowsRepairable(c, o, RunTo(c, Apply(c, s, Raise), steps))
  {
    InitConserved(start);
    InitOrderly(start);
    InitRepairable(c, o, start);
    RunRepairs(c, o, start, before);
    RunOrderly(c, start, before);
    RunRemembers(c, start, before);
    ReindexSafeExactly(c, o, RunTo(c, start, before));
  }

  /** An exception between batches, or before the commit when every stored row is
      indexed, is safe: in particular one failed INSERT. */
  lemma SafeBeforeCommit(c: Config, o: Oracle, s: State)
    requires Conserved(s) && Repairable(c, o, s)
    requires InBatch(s) ==> forall r | r in s.committed :: Near(s.index, r.fp, c.threshold)
    ensures SafeToReindex(c, s)
  {
    if s.process.Up? {
      forall fp | fp in s.process.seen && HasFp(s.committed, fp)
        ensures Near(s.index, fp, c.threshold)
      {
        assert Harmless(c, s, fp);
        if InBatch(s) {
          var r :| r in s.committed && r.fp == fp;
        }
      }
    }
  }

  // ---- a retry in the process can leave a stored row unindexed for good -----------

  /** Its document passes the gates and is committed. */
  lemma RunToCommit(c: Config, s: State, url: nat, fp: nat, source: string)
      returns (steps: seq<Step>, e: State)
    requires Init(s) && s.stream == [Article(url, true, source)] && s.articles == map[] && c.seenCap > 0
    ensures CanRun(c, s, steps) && RunTo(c, s, steps) == e && GatesPass(steps, fp)
    ensures InBatch(e) && !e.process.boot && e.process.seen == [fp]
    ensures e.stream == s.stream && e.pending == {0} && e.index == {} && e.warmed
    ensures e.articles == map[url := Some(fp)]
  {
    var cur: State;
    steps, cur := RunToRead(c, s);
    steps, cur := Extend(c, s, steps, cur, Gate(Passed(fp)));
    assert cur.process.work.batch.rows == [Row(url, fp, Some(0))];
    steps, e := Extend(c, s, steps, cur, Commit);
    InsertOne(url, fp);
  }

  lemma InsertOne(url: nat, fp: nat)
    ensures InsertRows(map[], [Row(url, fp, Some(0))]) == map[url := Some(fp)]
  {
    assert [Row(url, fp, Some(0))][..0] == [];
  }

  /** Commit one document, then let main catch an exception before the
      fingerprint is indexed: the retry finds the fingerprint in the deque and
      acknowledges the message, and the row stays out of the index for good. */
  lemma UnindexedRowAfterRetry(c: Config, s: State, url: nat, fp: nat, source: string)
    requires Init(s) && s.stream == [Article(url, true, source)] && s.articles == map[] && c.seenCap > 0
    ensures exists steps | CanRun(c, s, steps) ::
      && GatesPass(steps, fp)
      && var e := RunTo(c, s, steps);
         e.pending == {} && e.warmed && e.articles == map[url := Some(fp)] && e.index == {}
  {
    var steps, cur := RunToCommit(c, s, url, fp, source);
    steps, cur := RunRetry(c, s, steps, cur, fp);
  }
}
