/** What every run of the delivery protocol conserves, crashes and retries
    included: the ledger of delivered entries, the dead letters, the link between
    committed rows, table and index, and the order in which PENDING is read. */
module DeliverySafety {
  import opened Wrappers
  import opened Bits
  import opened NearDup
  import opened Delivery

  /** Some committed row has a fingerprint within the threshold. */
  ghost predicate Covered(committed: set<Row>, fp: nat, threshold: nat) {
    exists r | r in committed :: Hamming(fp, r.fp) <= threshold
  }

  ghost predicate HasFp(rows: set<Row>, fp: nat) {
    exists r | r in rows :: r.fp == fp
  }

  function BatchRows(s: State): set<Row> {
    if InBatch(s) then ToSet(s.process.work.batch.rows) else {}
  }

  // ---- conserved in every run ---------------------------------------------

  /** A verdict agrees with the entry it was given to. */
  ghost predicate Fits(s: State, m: nat, v: Verdict) {
    && m < |s.stream| && !s.stream[m].NotObject?
    && (v.WasMalformed? <==> s.stream[m].Malformed?)
    && (v.WasGone? || v.WasParked? || v.WasUnparked? ==> !s.stream[m].inline)
    && (v.WasParked? ==> m in s.dlqSeen)
  }

  ghost predicate BatchFits(s: State, b: Batch) {
    && b.ids != []
    && (forall m | m in b.ids :: m in s.pending)
    && (forall m | m in b.ids :: m in b.verdicts || m in b.toFetch || m in b.toGate || Poison(s.stream, m))
    && (forall m | m in b.verdicts :: m in b.ids && Fits(s, m, b.verdicts[m]))
    && (forall m | m in b.toFetch :: m in b.ids && m < |s.stream| && s.stream[m].Article? && !s.stream[m].inline)
    && (forall m | m in b.toGate :: m in b.ids && m < |s.stream| && s.stream[m].Article?)
    && (forall r | r in b.rows ::
          && r.owner.Some? && r.owner.value in b.ids && r.owner.value < |s.stream|
          && s.stream[r.owner.value].Article? && s.stream[r.owner.value].url == r.url)
    && (b.rows != [] ==> Parses(b.ids, s.stream))
    && (b.stage.Indexing? ==>
          b.stage.done <= |b.rows| && b.toFetch == [] && b.toGate == [] && ToSet(b.rows) <= s.committed)
  }

  /** Every delivered entry is pending or acknowledged with a fitting verdict,
      never both. */
  ghost predicate Ledger(s: State) {
    && s.next <= |s.stream|
    && (forall m: nat :: m < s.next <==> m in s.pending || m in s.acked)
    && s.pending !! s.acked.Keys
    && (forall m | m in s.acked :: Fits(s, m, s.acked[m]))
  }

  /** An entry is dead-lettered at most once. */
  ghost predicate DeadLetters(s: State) {
    && (forall i, j | 0 <= i < j < |s.dlq| :: s.dlq[i] != s.dlq[j])
    && ToSet(s.dlq) == s.dlqSeen
  }

  /** Committed rows have their URL in the table, and only committed
      fingerprints are indexed or about to be warmed. */
  ghost predicate Storage(s: State) {
    && (forall r | r in s.committed :: r.url in s.articles)
    && (forall u | u in s.articles && s.articles[u].Some? :: HasFp(s.committed, s.articles[u].value))
    && (forall fp | fp in s.index :: HasFp(s.committed, fp))
    && (s.process.Up? && s.process.work.Warming? ==>
          forall fp | fp in s.process.work.todo :: HasFp(s.committed, fp))
  }

  ghost predicate Conserved(s: State) {
    && Ledger(s) && DeadLetters(s) && Storage(s)
    && (InBatch(s) ==> BatchFits(s, s.process.work.batch))
  }

  lemma {:induction false} SelectSound(ids: seq<nat>, stream: seq<Payload>, inline: bool)
    ensures forall m :: m in Select(ids, stream, inline) <==>
      m in ids && m < |stream| && stream[m].Article? && stream[m].inline == inline
  {
    if ids != [] {
      SelectSound(ids[..|ids| - 1], stream, inline);
      assert ids == ids[..|ids| - 1] + [ids[|ids| - 1]];
    }
  }

  lemma {:induction false} InsertSound(articles: map<nat, Option<nat>>, rows: seq<Row>)
    ensures var after := InsertRows(articles, rows);
      && (forall u | u in articles :: u in after && after[u] == articles[u])
      && (forall r | r in rows :: r.url in after)
      && (forall u | u in after && u !in articles :: exists r | r in rows :: r.url == u && after[u] == Some(r.fp))
  {
    if rows != [] {
      var n := |rows| - 1;
      InsertSound(articles, rows[..n]);
      assert rows == rows[..n] + [rows[n]];
    }
  }

  lemma PushMembers(seen: seq<nat>, x: nat, cap: nat)
    ensures forall fp :: fp in Push(seen, x, cap) ==> fp in seen || fp == x
  {}

  lemma RowsGrow(rows: seq<Row>, more: seq<Row>)
    requires rows <= more
    ensures ToSet(rows) <= ToSet(more)
    ensures forall fp :: HasFp(ToSet(rows), fp) ==> HasFp(ToSet(more), fp)
    ensures rows < more ==> HasFp(ToSet(more), more[|rows|].fp)
  {
    forall r | r in rows
      ensures r in more
    {
      var k :| 0 <= k < |rows| && rows[k] == r;
      assert more[k] == r;
    }
    if rows < more {
      assert more[|rows|] in ToSet(more);
    }
  }

  lemma InitConserved(s: State)
    requires Init(s)
    ensures Conserved(s)
  {
    forall u | u in s.articles && s.articles[u].Some?
      ensures HasFp(s.committed, s.articles[u].value)
    {
      assert Row(u, s.articles[u].value, None) in s.committed;
    }
  }

  lemma StartFits(s: State, ids: seq<nat>, drain: bool)
    requires ids != [] && forall m | m in ids :: m in s.pending && m < |s.stream|
    ensures BatchFits(s, StartBatch(ids, s.stream, drain))
  {
    SelectSound(ids, s.stream, true);
    SelectSound(ids, s.stream, false);
  }

  /** Nothing the ledger depends on has changed for the worse. */
  predicate SameLedger(s: State, s': State) {
    && s'.next == s.next && s'.pending == s.pending && s'.acked == s.acked
    && s.stream <= s'.stream && s.dlqSeen <= s'.dlqSeen
  }

  lemma LedgerFrame(s: State, s': State)
    requires Ledger(s) && SameLedger(s, s')
    ensures Ledger(s')
  {}

  lemma ReadNewLedger(c: Config, s: State, count: nat)
    requires Conserved(s) && Enabled(s, ReadNew(count))
    ensures Ledger(Apply(c, s, ReadNew(count)))
  {
    RangeMembers(s.next, count);
  }

  lemma AckLedger(c: Config, s: State)
    requires Conserved(s) && Enabled(s, Ack)
    ensures Ledger(Apply(c, s, Ack))
  {
    var b := s.process.work.batch;
    assert b.toFetch == [] && b.toGate == [];
    assert forall m :: m in b.ids <==> m in b.verdicts;
  }

  lemma StepLedger(c: Config, s: State, step: Step)
    requires Conserved(s) && Enabled(s, step)
    ensures Ledger(Apply(c, s, step))
  {
    if step.ReadNew? {
      ReadNewLedger(c, s, step.count);
    } else if step.Ack? {
      AckLedger(c, s);
    } else {
      OtherLedger(c, s, step);
    }
  }

  lemma OtherLedger(c: Config, s: State, step: Step)
    requires Ledger(s) && Enabled(s, step) && !step.ReadNew? && !step.Ack?
    ensures Ledger(Apply(c, s, step))
  {
    OtherFrame(c, s, step);
    LedgerFrame(s, Apply(c, s, step));
  }

  lemma OtherFrame(c: Config, s: State, step: Step)
    requires Enabled(s, step) && !step.ReadNew? && !step.Ack?
    ensures SameLedger(s, Apply(c, s, step))
  {
    if step.Fetch? {
      FetchFrame(c, s, step.fetched);
    } else if step.Gate? {
      GateFrame(c, s, step.gated);
    } else if step.Commit? || step.IndexRow? {
      StoreFrame(c, s, step);
    }
  }

  lemma FetchFrame(c: Config, s: State, fetched: Fetched)
    requires Enabled(s, Fetch(fetched))
    ensures SameLedger(s, Apply(c, s, Fetch(fetched)))
  {}

  lemma GateFrame(c: Config, s: State, gated: Gated)
    requires Enabled(s, Gate(gated))
    ensures SameLedger(s, Apply(c, s, Gate(gated)))
  {}

  lemma StoreFrame(c: Config, s: State, step: Step)
    requires Enabled(s, step) && (step.Commit? || step.IndexRow?)
    ensures SameLedger(s, Apply(c, s, step))
  {}

  lemma RangeMembers(lo: nat, count: nat)
    ensures forall m: nat :: m in Range(lo, count) <==> lo <= m < lo + count
  {
    forall m: nat | lo <= m < lo + count
      ensures m in Range(lo, count)
    {
      assert Range(lo, count)[m - lo] == m;
    }
  }

  lemma StepDeadLetters(c: Config, s: State, step: Step)
    requires DeadLetters(s) && Enabled(s, step)
    ensures DeadLetters(Apply(c, s, step))
  {
    if step.Fetch? {
      var m := s.process.work.batch.toFetch[0];
      assert ToSet(s.dlq + [m]) == ToSet(s.dlq) + {m};
    }
  }

  lemma StorageFrame(s: State, s': State)
    requires Storage(s)
    requires s'.articles == s.articles && s'.committed == s.committed
    requires forall fp | fp in s'.index :: fp in s.index || HasFp(s.committed, fp)
    requires s'.process.Up? && s'.process.work.Warming? ==>
      forall fp | fp in s'.process.work.todo :: HasFp(s.committed, fp)
    ensures Storage(s')
  {}

  lemma CommitStorage(c: Config, s: State)
    requires Conserved(s) && Enabled(s, Commit)
    ensures Storage(Apply(c, s, Commit))
  {
    var s' := Apply(c, s, Commit);
    var rows := s.process.work.batch.rows;
    InsertSound(s.articles, rows);
    forall fp | HasFp(s.committed, fp)
      ensures HasFp(s'.committed, fp)
    {
      var r :| r in s.committed && r.fp == fp;
      assert r in s'.committed;
    }
    forall u | u in s'.articles && s'.articles[u].Some?
      ensures HasFp(s'.committed, s'.articles[u].value)
    {
      if u !in s.articles {
        var r :| r in rows && s'.articles[u] == Some(r.fp);
        assert r in s'.committed;
      }
    }
  }

  lemma IndexStorage(c: Config, s: State)
    requires Conserved(s) && Enabled(s, IndexRow)
    ensures Storage(Apply(c, s, IndexRow))
  {
    var b := s.process.work.batch;
    assert b.rows[b.stage.done] in b.rows;
    assert b.rows[b.stage.done] in s.committed;
    StorageFrame(s, Apply(c, s, IndexRow));
  }

  lemma StepStorage(c: Config, s: State, step: Step)
    requires Conserved(s) && Enabled(s, step)
    ensures Storage(Apply(c, s, step))
  {
    if step.Commit? {
      CommitStorage(c, s);
    } else if step.IndexRow? {
      IndexStorage(c, s);
    } else {
      OtherStorage(c, s, step);
    }
  }

  lemma OtherStorage(c: Config, s: State, step: Step)
    requires Storage(s) && Enabled(s, step) && !step.Commit? && !step.IndexRow?
    ensures Storage(Apply(c, s, step))
  {
    StorageFrame(s, Apply(c, s, step));
  }

  /** Giving message m its verdict, or passing it on to the gates. */
  lemma DecideFits(s: State, s': State, b: Batch, b': Batch, m: nat)
    requires BatchFits(s, b) && b.stage.Sifting? && Parses(b.ids, s.stream)
    requires s'.stream == s.stream && s'.pending == s.pending && s.dlqSeen <= s'.dlqSeen
    requires b'.ids == b.ids && b'.stage == b.stage && m in b.ids && s.stream[m].Article?
    requires forall k | k in b'.verdicts ::
      if k == m && k !in b.verdicts then Fits(s', m, b'.verdicts[m])
      else k in b.verdicts && (b'.verdicts[k] == b.verdicts[k] || Fits(s', k, b'.verdicts[k]))
    requires forall k | k in b.verdicts :: k in b'.verdicts
    requires forall k | k in b'.toFetch :: k in b.toFetch
    requires forall k | k in b'.toGate :: k in b.toGate || k == m
    requires forall k | k in b.toFetch || k in b.toGate :: k == m || k in b'.toFetch || k in b'.toGate
    requires m in b'.verdicts || m in b'.toGate
    requires forall r | r in b'.rows :: r in b.rows || r == Row(s.stream[m].url, r.fp, Some(m))
    ensures BatchFits(s', b')
  {}

  lemma FetchFits(c: Config, s: State, fetched: Fetched)
    requires Conserved(s) && Enabled(s, Fetch(fetched))
    ensures InBatch(Apply(c, s, Fetch(fetched)))
    ensures BatchFits(Apply(c, s, Fetch(fetched)), Apply(c, s, Fetch(fetched)).process.work.batch)
  {
    var b := s.process.work.batch;
    assert b.toFetch == [b.toFetch[0]] + b.toFetch[1..];
    assert b.toFetch[0] in b.toFetch;
    var s' := Apply(c, s, Fetch(fetched));
    DecideFits(s, s', b, s'.process.work.batch, b.toFetch[0]);
  }

  /** What the gates can make of the head of the queue. */
  lemma GateShape(c: Config, s: State, gated: Gated)
    requires Enabled(s, Gate(gated))
    ensures var b, s' := s.process.work.batch, Apply(c, s, Gate(gated));
      && InBatch(s')
      && var (m, b') := (b.toGate[0], s'.process.work.batch);
      && s' == s.(process := s'.process)
      && b' == b.(toGate := b.toGate[1..], verdicts := b'.verdicts, rows := b'.rows)
      && m in b'.verdicts && b'.verdicts == b.verdicts[m := b'.verdicts[m]]
      && !b'.verdicts[m].WasMalformed? && !b'.verdicts[m].WasGone?
      && !b'.verdicts[m].WasParked? && !b'.verdicts[m].WasUnparked?
      && (b'.rows == b.rows
          || (gated.Passed? && b'.rows == b.rows + [Row(s.stream[m].url, gated.fp, Some(m))]))
  {}

  lemma GateFits(c: Config, s: State, gated: Gated)
    requires Conserved(s) && Enabled(s, Gate(gated))
    ensures InBatch(Apply(c, s, Gate(gated)))
    ensures BatchFits(Apply(c, s, Gate(gated)), Apply(c, s, Gate(gated)).process.work.batch)
  {
    var b, s' := s.process.work.batch, Apply(c, s, Gate(gated));
    GateShape(c, s, gated);
    assert b.toGate == [b.toGate[0]] + b.toGate[1..];
    DecideFits(s, s', b, s'.process.work.batch, b.toGate[0]);
  }

  lemma BatchFrame(s: State, s': State, b: Batch)
    requires BatchFits(s, b)
    requires s.stream <= s'.stream && s'.pending == s.pending
    requires s'.dlqSeen == s.dlqSeen && s.committed <= s'.committed
    ensures BatchFits(s', b)
  {}

  lemma IndexFits(c: Config, s: State, step: Step)
    requires Conserved(s) && Enabled(s, step) && (step.IndexRow? || step.Commit?)
    ensures InBatch(Apply(c, s, step))
    ensures BatchFits(Apply(c, s, step), Apply(c, s, step).process.work.batch)
  {
    BatchFrame(s, Apply(c, s, step), s.process.work.batch);
  }

  lemma StepBatch(c: Config, s: State, step: Step)
    requires Conserved(s) && Enabled(s, step)
    ensures var s' := Apply(c, s, step); InBatch(s') ==> BatchFits(s', s'.process.work.batch)
  {
    if step.ReadPending? {
      StartFits(s, step.ids, true);
    } else if step.ReadNew? {
      RangeMembers(s.next, step.count);
      assert Range(s.next, step.count)[0] == s.next;
      StartFits(Apply(c, s, step), Range(s.next, step.count), false);
    } else if step.Fetch? {
      FetchFits(c, s, step.fetched);
    } else if step.Gate? {
      GateFits(c, s, step.gated);
    } else if step.IndexRow? || step.Commit? {
      IndexFits(c, s, step);
    } else if step.XAdd? && InBatch(s) {
      BatchFrame(s, Apply(c, s, step), s.process.work.batch);
    }
  }

  lemma StepConserves(c: Config, s: State, step: Step)
    requires Conserved(s) && Enabled(s, step)
    ensures Conserved(Apply(c, s, step))
  {
    StepLedger(c, s, step);
    StepDeadLetters(c, s, step);
    StepStorage(c, s, step);
    StepBatch(c, s, step);
  }

  /** Conservation over every run, with crashes and exceptions anywhere. */
  lemma {:induction false} RunConserves(c: Config, s: State, steps: seq<Step>)
    requires Conserved(s) && CanRun(c, s, steps)
    ensures Conserved(RunTo(c, s, steps))
    decreases |steps|
  {
    if steps != [] {
      StepConserves(c, s, steps[0]);
      RunConserves(c, Apply(c, s, steps[0]), steps[1..]);
    }
  }

  // ---- the order of PENDING ---------------------------------------------------

  /** A batch is the oldest part of PENDING, all of it unless it was read by the
      recovery loop; and the process serves new entries only when nothing is
      pending. */
  ghost predicate Orderly(s: State) {
    && (s.process.Up? && s.process.work.Reading? ==> s.pending == {})
    && (InBatch(s) ==>
          var b := s.process.work.batch;
          OldestPending(b.ids, s.pending) && (!b.drain ==> s.pending <= ToSet(b.ids)))
  }

  lemma InitOrderly(s: State)
    requires Init(s)
    ensures Orderly(s)
  {}

  lemma OrderlyFrame(s: State, s': State)
    requires Orderly(s) && s'.pending == s.pending && InBatch(s) && InBatch(s')
    requires s'.process.work.batch.ids == s.process.work.batch.ids
    requires s'.process.work.batch.drain == s.process.work.batch.drain
    ensures Orderly(s')
  {}

  lemma ReadNewOrderly(c: Config, s: State, count: nat)
    requires Orderly(s) && Enabled(s, ReadNew(count))
    ensures Orderly(Apply(c, s, ReadNew(count)))
  {
    assert Range(s.next, count)[0] == s.next;
  }

  lemma StepOrderly(c: Config, s: State, step: Step)
    requires Orderly(s) && Enabled(s, step)
    ensures Orderly(Apply(c, s, step))
  {
    if step.ReadNew? {
      ReadNewOrderly(c, s, step.count);
    } else if step.Gate? {
      GateShape(c, s, step.gated);
      OrderlyFrame(s, Apply(c, s, step));
    } else if step.Fetch? || step.Commit? || step.IndexRow? || (step.XAdd? && InBatch(s)) {
      OrderlyFrame(s, Apply(c, s, step));
    }
  }

  lemma {:induction false} RunOrderly(c: Config, s: State, steps: seq<Step>)
    requires Orderly(s) && CanRun(c, s, steps)
    ensures Orderly(RunTo(c, s, steps))
    decreases |steps|
  {
    if steps != [] {
      StepOrderly(c, s, steps[0]);
      RunOrderly(c, Apply(c, s, steps[0]), steps[1..]);
    }
  }

  // ---- entries that are JSON but not an object ---------------------------------------

  /** Once delivered, such an entry is pending for ever. */
  lemma PoisonStaysPending(c: Config, s: State, steps: seq<Step>, m: nat)
    requires Init(s) && CanRun(c, s, steps)
    requires m < RunTo(c, s, steps).next && Poison(RunTo(c, s, steps).stream, m)
    ensures m in RunTo(c, s, steps).pending
  {
    InitConserved(s);
    RunConserves(c, s, steps);
    var e := RunTo(c, s, steps);
    assert m in e.acked ==> Fits(e, m, e.acked[m]);
  }

  lemma PoisonStep(c: Config, s: State, step: Step, m: nat)
    requires Orderly(s) && Enabled(s, step) && m in s.pending && Poison(s.stream, m)
    ensures var s' := Apply(c, s, step);
      && s'.next == s.next && Poison(s'.stream, m)
      && forall k | k in s.pending && k >= m :: k in s'.pending
  {
    if step.Ack? {
      PoisonUnread(s, m);
    } else if !step.ReadNew? {
      OtherFrame(c, s, step);
    }
  }

  /** The batch about to be acknowledged ends before it. */
  lemma PoisonUnread(s: State, m: nat)
    requires Orderly(s) && AtWork(s) && m in s.pending && Poison(s.stream, m)
    ensures forall k | k in s.process.work.batch.ids :: k < m
  {
    assert m !in s.process.work.batch.ids;
  }

  /** While it is pending, whatever crashes, restarts and retries there are, no new
      entry is ever read, and no entry from it on is ever acknowledged. */
  lemma {:induction false} PoisonBlocks(c: Config, s: State, steps: seq<Step>, m: nat)
    requires Orderly(s) && CanRun(c, s, steps) && m in s.pending && Poison(s.stream, m)
    ensures RunTo(c, s, steps).next == s.next
    ensures forall k | k in s.pending && k >= m :: k in RunTo(c, s, steps).pending
    decreases |steps|
  {
    if steps != [] {
      PoisonStep(c, s, steps[0], m);
      StepOrderly(c, s, steps[0]);
      PoisonBlocks(c, Apply(c, s, steps[0]), steps[1..], m);
    }
  }
}
