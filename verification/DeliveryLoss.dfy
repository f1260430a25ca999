/** No document is lost: every acknowledged message that passed the gates has
    its fingerprint within the threshold of a committed row. That holds over
    every run whose in-process retries start with nothing uncommitted in the
    deque, and exactly then. */
module DeliveryLoss {
  import opened Wrappers
  import opened Bits
  import opened NearDup
  import opened Delivery
  import opened DeliverySafety
  import opened DeliveryReplay

  /** The acknowledged verdict is backed by committed rows. */
  ghost predicate Backed(c: Config, stream: seq<Payload>, committed: set<Row>, m: nat, v: Verdict) {
    match v
    case WasDuplicate(fp) => Covered(committed, fp, c.threshold)
    case WasRow(fp) => m < |stream| && stream[m].Article? && Row(stream[m].url, fp, Some(m)) in committed
    case _ => true
  }

  ghost predicate AckedBacked(c: Config, s: State) {
    forall m | m in s.acked :: Backed(c, s.stream, s.committed, m, s.acked[m])
  }

  ghost predicate SeenBacked(c: Config, s: State) {
    s.process.Up? ==>
      forall fp | fp in s.process.seen ::
        Covered(s.committed, fp, c.threshold) || HasFp(BatchRows(s), fp)
  }

  ghost predicate BatchBacked(c: Config, s: State) {
    InBatch(s) ==>
      forall m | m in s.process.work.batch.verdicts ::
        Backed(c, s.stream, s.committed + BatchRows(s), m, s.process.work.batch.verdicts[m])
  }

  ghost predicate NoLoss(c: Config, s: State) {
    AckedBacked(c, s) && SeenBacked(c, s) && BatchBacked(c, s)
  }

  /** The deque holds nothing that exists only in rows about to be dropped. */
  ghost predicate SafeToRetry(c: Config, s: State) {
    s.process.Up? ==> forall fp | fp in s.process.seen :: Covered(s.committed, fp, c.threshold)
  }

  ghost predicate SafeRetries(c: Config, s: State, steps: seq<Step>)
    requires CanRun(c, s, steps)
    decreases |steps|
  {
    steps == [] ||
    ((steps[0].Raise? ==> SafeToRetry(c, s)) && SafeRetries(c, Apply(c, s, steps[0]), steps[1..]))
  }

  lemma CoveredSelf(rows: set<Row>, fp: nat, threshold: nat)
    requires HasFp(rows, fp)
    ensures Covered(rows, fp, threshold)
  {
    HammingZero(fp, fp);
  }

  lemma CoveredGrows(rows: set<Row>, more: set<Row>)
    requires rows <= more
    ensures forall fp, threshold :: Covered(rows, fp, threshold) ==> Covered(more, fp, threshold)
  {
    forall fp, threshold | Covered(rows, fp, threshold)
      ensures Covered(more, fp, threshold)
    {
      var r :| r in rows && Hamming(fp, r.fp) <= threshold;
      assert r in more;
    }
  }

  lemma BackedGrows(c: Config, s: State, s': State, rows: set<Row>, more: set<Row>, m: nat, v: Verdict)
    requires Backed(c, s.stream, rows, m, v) && s.stream <= s'.stream && rows <= more
    ensures Backed(c, s'.stream, more, m, v)
  {
    CoveredGrows(rows, more);
  }

  lemma InitNoLoss(c: Config, s: State)
    requires Init(s)
    ensures NoLoss(c, s)
  {}

  // ---- one step ----------------------------------------------------------------

  lemma StepAcked(c: Config, s: State, step: Step)
    requires Conserved(s) && NoLoss(c, s) && Enabled(s, step)
    ensures AckedBacked(c, Apply(c, s, step))
  {
    if step.Ack? {
      AckAcked(c, s);
    } else {
      OtherKeeps(c, s, step);
      AckedFrame(c, s, Apply(c, s, step));
    }
  }

  lemma AckAcked(c: Config, s: State)
    requires Conserved(s) && NoLoss(c, s) && Enabled(s, Ack)
    ensures AckedBacked(c, Apply(c, s, Ack))
  {
    var s' := Apply(c, s, Ack);
    AckRowsCommitted(s);
    forall m | m in s'.acked
      ensures Backed(c, s'.stream, s'.committed, m, s'.acked[m])
    {
      assert m in s.process.work.batch.verdicts || (m in s.acked && s'.acked[m] == s.acked[m]);
    }
  }

  lemma AckedFrame(c: Config, s: State, s': State)
    requires AckedBacked(c, s)
    requires s'.acked == s.acked && s.stream <= s'.stream && s.committed <= s'.committed
    ensures AckedBacked(c, s')
  {
    forall m | m in s'.acked
      ensures Backed(c, s'.stream, s'.committed, m, s'.acked[m])
    {
      BackedGrows(c, s, s', s.committed, s'.committed, m, s.acked[m]);
    }
  }

  lemma OtherKeeps(c: Config, s: State, step: Step)
    requires Enabled(s, step) && !step.Ack?
    ensures var s' := Apply(c, s, step);
      s'.acked == s.acked && s.stream <= s'.stream && s.committed <= s'.committed
  {
    if !step.ReadNew? {
      OtherFrame(c, s, step);
    }
  }

  lemma AckRowsCommitted(s: State)
    requires Conserved(s) && Enabled(s, Ack)
    ensures s.committed + BatchRows(s) == s.committed
  {
    if s.process.work.batch.stage.Sifting? {
      assert BatchRows(s) == {};
    }
  }

  lemma SeenFrame(c: Config, s: State, s': State)
    requires SeenBacked(c, s) && s.committed <= s'.committed
    requires s'.process.Up? ==> s'.process.seen == [] || (s.process.Up? && s'.process.seen == s.process.seen)
    requires s'.process.Up? && s'.process.seen != [] ==> BatchRows(s) == BatchRows(s') || SafeToRetry(c, s)
    ensures SeenBacked(c, s')
  {
    CoveredGrows(s.committed, s'.committed);
  }

  lemma GateSeen(c: Config, s: State, gated: Gated)
    requires Conserved(s) && NoLoss(c, s) && Enabled(s, Gate(gated))
    ensures SeenBacked(c, Apply(c, s, Gate(gated)))
  {
    var s' := Apply(c, s, Gate(gated));
    GateShape(c, s, gated);
    RowsGrow(s.process.work.batch.rows, s'.process.work.batch.rows);
    if gated.Passed? {
      PushMembers(s.process.seen, gated.fp, c.seenCap);
    }
  }

  lemma StepSeen(c: Config, s: State, step: Step)
    requires Conserved(s) && NoLoss(c, s) && Enabled(s, step)
    requires step.Raise? ==> SafeToRetry(c, s)
    ensures SeenBacked(c, Apply(c, s, step))
  {
    if step.Gate? {
      GateSeen(c, s, step.gated);
    } else {
      if step.Ack? {
        AckSafe(c, s);
      }
      SeenFrame(c, s, Apply(c, s, step));
    }
  }

  lemma AckSafe(c: Config, s: State)
    requires Conserved(s) && NoLoss(c, s) && Enabled(s, Ack)
    ensures SafeToRetry(c, s)
  {
    SafeOutsideWindow(c, s);
  }

  lemma GateBacked(c: Config, s: State, gated: Gated)
    requires Conserved(s) && NoLoss(c, s) && Enabled(s, Gate(gated))
    ensures BatchBacked(c, Apply(c, s, Gate(gated)))
  {
    var s' := Apply(c, s, Gate(gated));
    var b, b' := s.process.work.batch, s'.process.work.batch;
    GateShape(c, s, gated);
    RowsGrow(b.rows, b'.rows);
    var m := b.toGate[0];
    var known, known' := s.committed + BatchRows(s), s'.committed + BatchRows(s');
    forall k | k in b'.verdicts
      ensures Backed(c, s'.stream, known', k, b'.verdicts[k])
    {
      if k != m {
        BackedGrows(c, s, s', known, known', k, b.verdicts[k]);
      } else if gated.Passed? && b'.verdicts[m].WasDuplicate? {
        DuplicateCovered(c, s, gated.fp);
        CoveredGrows(known, known');
      } else if gated.Passed? {
        assert b'.rows[|b.rows|] == Row(s.stream[m].url, gated.fp, Some(m));
        assert Row(s.stream[m].url, gated.fp, Some(m)) in b'.rows;
      }
    }
  }

  /** What is_duplicate or the deque rejects is near a row. */
  lemma DuplicateCovered(c: Config, s: State, fp: nat)
    requires Conserved(s) && NoLoss(c, s) && InBatch(s)
    requires Near(s.index, fp, c.threshold) || fp in s.process.seen
    ensures Covered(s.committed + BatchRows(s), fp, c.threshold)
  {
    if Near(s.index, fp, c.threshold) {
      NearIndexCovered(c, s, fp);
      CoveredGrows(s.committed, s.committed + BatchRows(s));
    } else if HasFp(BatchRows(s), fp) {
      CoveredSelf(BatchRows(s), fp, c.threshold);
      CoveredGrows(BatchRows(s), s.committed + BatchRows(s));
    } else {
      CoveredGrows(s.committed, s.committed + BatchRows(s));
    }
  }

  lemma NearIndexCovered(c: Config, s: State, fp: nat)
    requires Conserved(s) && Near(s.index, fp, c.threshold)
    ensures Covered(s.committed, fp, c.threshold)
  {
    var x :| x in s.index && Hamming(fp, x) <= c.threshold;
    assert HasFp(s.committed, x);
    var r :| r in s.committed && r.fp == x;
  }

  lemma BatchBackedFrame(c: Config, s: State, s': State)
    requires BatchBacked(c, s) && InBatch(s) && InBatch(s')
    requires s.stream <= s'.stream
    requires s.committed + BatchRows(s) <= s'.committed + BatchRows(s')
    requires forall m | m in s'.process.work.batch.verdicts ::
      KeptOrHarmless(s.process.work.batch.verdicts, m, s'.process.work.batch.verdicts[m])
    ensures BatchBacked(c, s')
  {
    var known, known' := s.committed + BatchRows(s), s'.committed + BatchRows(s');
    forall m | m in s'.process.work.batch.verdicts
      ensures Backed(c, s'.stream, known', m, s'.process.work.batch.verdicts[m])
    {
      var v := s'.process.work.batch.verdicts[m];
      assert KeptOrHarmless(s.process.work.batch.verdicts, m, v);
      if m in s.process.work.batch.verdicts && v == s.process.work.batch.verdicts[m] {
        BackedGrows(c, s, s', known, known', m, v);
      }
    }
  }

  predicate KeptOrHarmless(verdicts: map<nat, Verdict>, m: nat, v: Verdict) {
    (m in verdicts && v == verdicts[m]) || !(v.WasDuplicate? || v.WasRow?)
  }

  lemma FetchBacked(c: Config, s: State, fetched: Fetched)
    requires Conserved(s) && NoLoss(c, s) && Enabled(s, Fetch(fetched))
    ensures BatchBacked(c, Apply(c, s, Fetch(fetched)))
  {
    BatchBackedFrame(c, s, Apply(c, s, Fetch(fetched)));
  }

  lemma StepBatchBacked(c: Config, s: State, step: Step)
    requires Conserved(s) && NoLoss(c, s) && Enabled(s, step)
    ensures BatchBacked(c, Apply(c, s, step))
  {
    if step.Gate? {
      GateBacked(c, s, step.gated);
    } else if step.Fetch? {
      FetchBacked(c, s, step.fetched);
    } else if (step.XAdd? && InBatch(s)) || step.Commit? || step.IndexRow? {
      BatchBackedFrame(c, s, Apply(c, s, step));
    }
  }

  lemma StepNoLoss(c: Config, s: State, step: Step)
    requires Conserved(s) && NoLoss(c, s) && Enabled(s, step)
    requires step.Raise? ==> SafeToRetry(c, s)
    ensures NoLoss(c, Apply(c, s, step))
  {
    StepAcked(c, s, step);
    StepSeen(c, s, step);
    StepBatchBacked(c, s, step);
  }

  // ---- every run ---------------------------------------------------------------

  /** The main safety theorem, over every run and any crashes: each
      acknowledged message was malformed, gone, gate- or language-rejected,
      parked, reported unparked, or is covered by a committed row whose URL is
      in the articles table. */
  lemma {:induction false} RunNoLoss(c: Config, s: State, steps: seq<Step>)
    requires Conserved(s) && NoLoss(c, s)
    requires CanRun(c, s, steps) && SafeRetries(c, s, steps)
    ensures Conserved(RunTo(c, s, steps)) && NoLoss(c, RunTo(c, s, steps))
    decreases |steps|
  {
    if steps != [] {
      StepConserves(c, s, steps[0]);
      StepNoLoss(c, s, steps[0]);
      RunNoLoss(c, Apply(c, s, steps[0]), steps[1..]);
    }
  }

  lemma AcknowledgedIsJustified(c: Config, s: State, steps: seq<Step>, m: nat)
    requires Init(s) && CanRun(c, s, steps) && SafeRetries(c, s, steps)
    requires m in RunTo(c, s, steps).acked
    ensures var e := RunTo(c, s, steps);
      && m < |e.stream| && m !in e.pending
      && match e.acked[m] {
           case WasMalformed => e.stream[m].Malformed?
           case WasGone => e.stream[m].Article? && !e.stream[m].inline
           case WasUnparked => e.stream[m].Article? && !e.stream[m].inline
           case WasParked => e.stream[m].Article? && !e.stream[m].inline && m in e.dlq
           case WasRejected => e.stream[m].Article?
           case WasForeign => e.stream[m].Article?
           case WasDuplicate(fp) =>
             exists r | r in e.committed :: Hamming(fp, r.fp) <= c.threshold && r.url in e.articles
           case WasRow(fp) =>
             && e.stream[m].Article? && Row(e.stream[m].url, fp, Some(m)) in e.committed
             && e.stream[m].url in e.articles
         }
  {
    InitConserved(s);
    InitNoLoss(c, s);
    RunNoLoss(c, s, steps);
    var e := RunTo(c, s, steps);
    assert Backed(c, e.stream, e.committed, m, e.acked[m]);
    if e.acked[m].WasDuplicate? {
      var r :| r in e.committed && Hamming(e.acked[m].fp, r.fp) <= c.threshold;
      assert r.url in e.articles;
    }
  }

  /** A failure outside the window between a batch's first appended
      fingerprint and its commit is safe to retry in the process. */
  lemma SafeOutsideWindow(c: Config, s: State)
    requires Conserved(s) && NoLoss(c, s) && s.process.Up?
    requires InBatch(s) ==> s.process.work.batch.rows == [] || s.process.work.batch.stage.Indexing?
    ensures SafeToRetry(c, s)
  {
    forall fp | fp in s.process.seen
      ensures Covered(s.committed, fp, c.threshold)
    {
      if HasFp(BatchRows(s), fp) {
        var r :| r in BatchRows(s) && r.fp == fp;
        assert r in s.committed;
        CoveredSelf(s.committed, fp, c.threshold);
      }
    }
  }

  // ---- the in-process retry loses what it should not -----------------------------

  /** After main catches an exception while fp sits in the deque and not in the
      index, a redelivered message with that fingerprint is acknowledged as a
      duplicate and nothing new is committed or indexed, whatever the batch size. */
  lemma RetryDrops(c: Config, s: State, m: nat, fp: nat, limit: nat) returns (steps: seq<Step>)
    requires Conserved(s) && Enabled(s, Raise) && Clear(s.pending, s.stream) && limit > 0
    requires m in s.pending && m < |s.stream| && s.stream[m].Article?
    requires fp in s.process.seen && !Near(s.index, fp, c.threshold)
    ensures CanRun(c, Apply(c, s, Raise), steps) && NoRaise(steps) && Within(steps, limit)
    ensures var e := RunTo(c, Apply(c, s, Raise), steps);
      && m in e.acked && e.acked[m] == WasDuplicate(fp)
      && e.stream == s.stream && e.committed == s.committed && e.index == s.index
  {
    var s1 := Apply(c, s, Raise);
    StepConserves(c, s, Raise);
    var o := Oracle(_ => true, k => if k == m then Passed(fp) else Rejected);
    assert Passes(o, s1.stream, m, fp);
    steps := ReplayUpTo(c, o, s1, m, limit);
  }

  /** The same when the retry reads the batch that failed again; what else is
      pending does not matter. */
  lemma RereadDrops(c: Config, s: State, m: nat, fp: nat) returns (steps: seq<Step>)
    requires Conserved(s) && Orderly(s) && Enabled(s, Raise) && AtWork(s)
    requires m in s.process.work.batch.ids && m < |s.stream| && s.stream[m].Article?
    requires fp in s.process.seen && !Near(s.index, fp, c.threshold)
    ensures CanRun(c, Apply(c, s, Raise), steps) && NoRaise(steps) && Within(steps, |s.process.work.batch.ids|)
    ensures var e := RunTo(c, Apply(c, s, Raise), steps);
      && m in e.acked && e.acked[m] == WasDuplicate(fp)
      && e.stream == s.stream && e.committed == s.committed && e.index == s.index
  {
    var s1 := Apply(c, s, Raise);
    StepConserves(c, s, Raise);
    var o := Oracle(_ => true, k => if k == m then Passed(fp) else Rejected);
    assert Passes(o, s1.stream, m, fp);
    steps := ReplayBatch(c, o, s1, s.process.work.batch.ids);
  }

  /** The batch that failed was read with this limit, or nothing pending stops the
      drain. */
  ghost predicate Rereads(s: State, limit: nat) {
    (InBatch(s) ==> |s.process.work.batch.ids| <= limit) || Clear(s.pending, s.stream)
  }

  /** Retrying in the process is safe exactly when the deque holds no uncommitted
      fingerprint, for every batch size. */
  lemma RetrySafeExactly(c: Config, s: State, limit: nat)
    requires Conserved(s) && Orderly(s) && NoLoss(c, s) && Enabled(s, Raise) && limit > 0 && Rereads(s, limit)
    ensures SafeToRetry(c, s) <==>
      forall steps | CanRun(c, Apply(c, s, Raise), steps) && NoRaise(steps) && Within(steps, limit) ::
        AckedBacked(c, RunTo(c, Apply(c, s, Raise), steps))
  {
    if SafeToRetry(c, s) {
      RetryKeeps(c, s);
    } else {
      var steps := RetryLoses(c, s, limit);
    }
  }

  lemma RetryKeeps(c: Config, s: State)
    requires Conserved(s) && NoLoss(c, s) && Enabled(s, Raise) && SafeToRetry(c, s)
    ensures forall steps | CanRun(c, Apply(c, s, Raise), steps) && NoRaise(steps) ::
      AckedBacked(c, RunTo(c, Apply(c, s, Raise), steps))
  {
    var s1 := Apply(c, s, Raise);
    StepConserves(c, s, Raise);
    StepNoLoss(c, s, Raise);
    forall steps | CanRun(c, s1, steps) && NoRaise(steps)
      ensures AckedBacked(c, RunTo(c, s1, steps))
    {
      NoRaiseIsSafe(c, s1, steps);
      RunNoLoss(c, s1, steps);
    }
  }

  lemma RetryLoses(c: Config, s: State, limit: nat) returns (steps: seq<Step>)
    requires Conserved(s) && Orderly(s) && NoLoss(c, s) && Enabled(s, Raise) && limit > 0 && Rereads(s, limit)
    requires !SafeToRetry(c, s)
    ensures CanRun(c, Apply(c, s, Raise), steps) && NoRaise(steps) && Within(steps, limit)
    ensures !AckedBacked(c, RunTo(c, Apply(c, s, Raise), steps))
  {
    var fp, r := UncoveredRow(c, s);
    if Clear(s.pending, s.stream) {
      steps := RetryDrops(c, s, r.owner.value, fp, limit);
    } else {
      steps := RereadDrops(c, s, r.owner.value, fp);
    }
    assert !Backed(c, s.stream, s.committed, r.owner.value, WasDuplicate(fp));
  }

  /** An uncommitted fingerprint in the deque belongs to a row of the batch. */
  lemma UncoveredRow(c: Config, s: State) returns (fp: nat, r: Row)
    requires Conserved(s) && NoLoss(c, s) && s.process.Up? && !SafeToRetry(c, s)
    ensures fp in s.process.seen && !Covered(s.committed, fp, c.threshold) && !Near(s.index, fp, c.threshold)
    ensures AtWork(s) && r in s.process.work.batch.rows && r.fp == fp
  {
    fp :| fp in s.process.seen && !Covered(s.committed, fp, c.threshold);
    r :| r in BatchRows(s) && r.fp == fp;
    if Near(s.index, fp, c.threshold) {
      NearIndexCovered(c, s, fp);
    }
  }

  lemma {:induction false} NoRaiseIsSafe(c: Config, s: State, steps: seq<Step>)
    requires CanRun(c, s, steps) && NoRaise(steps)
    ensures SafeRetries(c, s, steps)
    decreases |steps|
  {
    if steps != [] {
      NoRaiseIsSafe(c, Apply(c, s, steps[0]), steps[1..]);
    }
  }

  /** The loss itself: one document, one failed INSERT, a retry in the process,
      and the message is acknowledged with nothing stored. */
  lemma LosingRun(c: Config, s: State, url: nat, fp: nat, source: string)
    requires Init(s) && s.stream == [Article(url, true, source)] && s.articles == map[] && c.seenCap > 0
    ensures exists steps | CanRun(c, s, steps) ::
      && GatesPass(steps, fp)
      && var e := RunTo(c, s, steps);
         e.pending == {} && e.acked == map[0 := WasDuplicate(fp)] && e.articles == map[]
  {
    var steps, cur := RunToRead(c, s);
    steps, cur := Extend(c, s, steps, cur, Gate(Passed(fp)));
    assert cur.process.seen == [fp];
    steps, cur := RunRetry(c, s, steps, cur, fp);
  }
}
