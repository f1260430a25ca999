/** What is acknowledged has the outcome that its page and document give it, however
    often it was delivered, whatever crashes and retries lie between. */
module DeliveryOutcome {
  import opened Wrappers
  import opened Delivery
  import opened DeliverySafety
  import opened DeliveryReplay

  /** The verdict is the one that the oracle gives. */
  predicate Decides(o: Oracle, stream: seq<Payload>, m: nat, v: Verdict) {
    && m < |stream|
    && match v {
         case WasMalformed => stream[m].Malformed?
         case WasGone => stream[m].Article? && !stream[m].inline && !o.hasContent(m)
         case WasParked => stream[m].Article? && !stream[m].inline && !o.hasContent(m)
         case WasUnparked => stream[m].Article? && !stream[m].inline && !o.hasContent(m)
         case WasRejected => HasContent(o, stream, m) && o.gate(m) == Rejected
         case WasForeign => HasContent(o, stream, m) && o.gate(m) == WrongLanguage
         case WasDuplicate(fp) => HasContent(o, stream, m) && o.gate(m) == Passed(fp)
         case WasRow(fp) => HasContent(o, stream, m) && o.gate(m) == Passed(fp)
       }
  }

  ghost predicate AllDecided(o: Oracle, stream: seq<Payload>, verdicts: map<nat, Verdict>) {
    forall m | m in verdicts :: Decides(o, stream, m, verdicts[m])
  }

  /** The batch at hand. */
  ghost predicate BatchDecided(o: Oracle, stream: seq<Payload>, b: Batch) {
    && AllDecided(o, stream, b.verdicts)
    && (forall m | m in b.toFetch :: m < |stream| && stream[m].Article? && !stream[m].inline)
    && (forall m | m in b.toGate :: HasContent(o, stream, m))
    && (forall r | r in b.rows :: r.owner.Some? && Passes(o, stream, r.owner.value, r.fp))
  }

  /** So has everything acknowledged, and what was stored comes from a document that
      passed the gates. */
  ghost predicate Decided(o: Oracle, s: State) {
    && AllDecided(o, s.stream, s.acked)
    && (InBatch(s) ==> BatchDecided(o, s.stream, s.process.work.batch))
    && (forall r | r in s.committed && r.owner.Some? :: Passes(o, s.stream, r.owner.value, r.fp))
  }

  lemma StartDecided(o: Oracle, ids: seq<nat>, stream: seq<Payload>, drain: bool)
    requires forall m | m in ids :: m < |stream|
    ensures BatchDecided(o, stream, StartBatch(ids, stream, drain))
  {
    SelectSound(ids, stream, true);
    SelectSound(ids, stream, false);
  }

  lemma GrownDecided(o: Oracle, stream: seq<Payload>, longer: seq<Payload>, b: Batch)
    requires stream <= longer && BatchDecided(o, stream, b)
    ensures BatchDecided(o, longer, b)
  {
    assert forall m: nat | m < |stream| :: longer[m] == stream[m];
  }

  /** The head of the fetch queue goes on to the gates or gets its verdict. */
  lemma FetchVerdict(c: Config, s: State, fetched: Fetched)
    requires Enabled(s, Fetch(fetched))
    ensures var b, s' := s.process.work.batch, Apply(c, s, Fetch(fetched));
      && InBatch(s') && s'.stream == s.stream && s'.acked == s.acked && s'.committed == s.committed
      && var (m, b') := (b.toFetch[0], s'.process.work.batch);
      && b'.toFetch == b.toFetch[1..] && b'.rows == b.rows
      && if fetched.Content? then b'.toGate == b.toGate + [m] && b'.verdicts == b.verdicts
         else
           && b'.toGate == b.toGate && m in b'.verdicts && b'.verdicts == b.verdicts[m := b'.verdicts[m]]
           && b'.verdicts[m] == match fetched {
                case Gone => WasGone
                case NoContent(script) => if script then WasParked else WasUnparked
                case Content => b'.verdicts[m]
              }
  {}

  lemma FetchedOne(o: Oracle, stream: seq<Payload>, b: Batch, b': Batch)
    requires BatchDecided(o, stream, b) && b.toFetch != [] && b'.toFetch == b.toFetch[1..] && b'.rows == b.rows
    requires
      || (b'.toGate == b.toGate + [b.toFetch[0]] && b'.verdicts == b.verdicts && o.hasContent(b.toFetch[0]))
      || (b'.toGate == b.toGate && b.toFetch[0] in b'.verdicts
          && b'.verdicts == b.verdicts[b.toFetch[0] := b'.verdicts[b.toFetch[0]]]
          && Decides(o, stream, b.toFetch[0], b'.verdicts[b.toFetch[0]]))
    ensures BatchDecided(o, stream, b')
  {
    assert b.toFetch == [b.toFetch[0]] + b.toFetch[1..];
    assert forall m | m in b'.toFetch :: m in b.toFetch;
    assert forall m | m in b'.toGate :: m in b.toGate || m == b.toFetch[0];
    assert b.toFetch[0] in b.toFetch;
  }

  lemma FetchDecided(c: Config, o: Oracle, s: State, fetched: Fetched)
    requires Decided(o, s) && Enabled(s, Fetch(fetched)) && Conforms(o, s, Fetch(fetched))
    ensures Decided(o, Apply(c, s, Fetch(fetched)))
  {
    var b := s.process.work.batch;
    assert b.toFetch[0] in b.toFetch;
    FetchVerdict(c, s, fetched);
    FetchedOne(o, s.stream, b, Apply(c, s, Fetch(fetched)).process.work.batch);
  }

  /** The verdict the gates give to the head of the queue. */
  lemma GateVerdict(c: Config, s: State, gated: Gated)
    requires Enabled(s, Gate(gated))
    ensures var b, s' := s.process.work.batch, Apply(c, s, Gate(gated));
      && InBatch(s')
      && var (m, b') := (b.toGate[0], s'.process.work.batch);
      && m in b'.verdicts
      && match gated
         case Rejected => b'.verdicts[m] == WasRejected && b'.rows == b.rows
         case WrongLanguage => b'.verdicts[m] == WasForeign && b'.rows == b.rows
         case Passed(fp) =>
           || (b'.verdicts[m] == WasDuplicate(fp) && b'.rows == b.rows)
           || (b'.verdicts[m] == WasRow(fp) && b'.rows == b.rows + [Row(s.stream[m].url, fp, Some(m))])
  {}

  lemma DecideOne(o: Oracle, stream: seq<Payload>, b: Batch, b': Batch)
    requires BatchDecided(o, stream, b) && b.toGate != []
    requires b'.toGate == b.toGate[1..] && b'.toFetch == b.toFetch
    requires b.toGate[0] in b'.verdicts && b'.verdicts == b.verdicts[b.toGate[0] := b'.verdicts[b.toGate[0]]]
    requires Decides(o, stream, b.toGate[0], b'.verdicts[b.toGate[0]])
    requires forall r | r in b'.rows ::
      r in b.rows || (r.owner == Some(b.toGate[0]) && Passes(o, stream, b.toGate[0], r.fp))
    ensures BatchDecided(o, stream, b')
  {}

  lemma GateDecided(c: Config, o: Oracle, s: State, gated: Gated)
    requires Decided(o, s) && Enabled(s, Gate(gated)) && Conforms(o, s, Gate(gated))
    ensures Decided(o, Apply(c, s, Gate(gated)))
  {
    var b, s' := s.process.work.batch, Apply(c, s, Gate(gated));
    assert b.toGate[0] in b.toGate;
    GateShape(c, s, gated);
    GateVerdict(c, s, gated);
    DecideOne(o, s.stream, b, s'.process.work.batch);
  }

  lemma ReadDecided(c: Config, o: Oracle, s: State, step: Step)
    requires Conserved(s) && Decided(o, s) && Enabled(s, step) && (step.ReadPending? || step.ReadNew?)
    ensures Decided(o, Apply(c, s, step))
  {
    if step.ReadNew? {
      RangeMembers(s.next, step.count);
      StartDecided(o, Range(s.next, step.count), s.stream, false);
    } else {
      StartDecided(o, step.ids, s.stream, true);
    }
  }

  lemma XAddDecided(c: Config, o: Oracle, s: State, payload: Payload)
    requires Decided(o, s)
    ensures Decided(o, Apply(c, s, XAdd(payload)))
  {
    var longer := s.stream + [payload];
    assert forall m: nat | m < |s.stream| :: longer[m] == s.stream[m];
    if InBatch(s) {
      GrownDecided(o, s.stream, longer, s.process.work.batch);
    }
  }

  lemma StepDecided(c: Config, o: Oracle, s: State, step: Step)
    requires Conserved(s) && Decided(o, s) && Enabled(s, step) && Conforms(o, s, step)
    ensures Decided(o, Apply(c, s, step))
  {
    if step.ReadPending? || step.ReadNew? {
      ReadDecided(c, o, s, step);
    } else if step.Fetch? {
      FetchDecided(c, o, s, step.fetched);
    } else if step.Gate? {
      GateDecided(c, o, s, step.gated);
    } else if step.XAdd? {
      XAddDecided(c, o, s, step.payload);
    }
  }

  lemma {:induction false} RunDecided(c: Config, o: Oracle, s: State, steps: seq<Step>)
    requires Conserved(s) && Decided(o, s) && CanRun(c, s, steps) && Obeys(c, o, s, steps)
    ensures Decided(o, RunTo(c, s, steps))
    decreases |steps|
  {
    if steps != [] {
      StepConserves(c, s, steps[0]);
      StepDecided(c, o, s, steps[0]);
      RunDecided(c, o, Apply(c, s, steps[0]), steps[1..]);
    }
  }

  /** In every run with deterministic outcomes each acknowledged entry has its own
      verdict, and each row with an owner is the one its document passes with. */
  lemma AcknowledgedAsDecided(c: Config, o: Oracle, s: State, steps: seq<Step>)
    requires Init(s) && CanRun(c, s, steps) && Obeys(c, o, s, steps)
    ensures var e := RunTo(c, s, steps);
      && AllDecided(o, e.stream, e.acked)
      && (forall r | r in e.committed && r.owner.Some? :: Passes(o, e.stream, r.owner.value, r.fp))
  {
    InitConserved(s);
    RunDecided(c, o, s, steps);
  }
}
