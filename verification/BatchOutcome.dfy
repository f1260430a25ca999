/** What a batch does follows from its pages and documents: its effects obey the
    oracle that these determine, however far the batch gets. */
module BatchOutcome {
  import opened Wrappers
  import opened Dedupe
  import opened NearDup
  import opened Delivery
  import opened DeliverySafety
  import opened DeliveryReplay
  import opened BatchPlan

  /** The document an entry has, if it has one. */
  function DocumentOf(stream: seq<Payload>, inline: nat -> Document, fetch: nat -> Reply, m: nat): Document {
    if (m < |stream| && stream[m].Article? && stream[m].inline) || !fetch(m).Page? then inline(m) else fetch(m).document
  }

  /** The oracle says of every entry what its page and document say. */
  ghost predicate Agrees(o: Oracle, stream: seq<Payload>, inline: nat -> Document, fetch: nat -> Reply,
                         digest: string -> nat, bits: nat) {
    forall m: nat | m < |stream| && stream[m].Article? ::
      && (o.hasContent(m) <==> fetch(m).Page?)
      && (stream[m].inline || fetch(m).Page? ==>
            o.gate(m) == Judged(DocumentOf(stream, inline, fetch, m), digest, bits))
  }

  /** There is such an oracle. */
  function OracleOf(stream: seq<Payload>, inline: nat -> Document, fetch: nat -> Reply,
                    digest: string -> nat, bits: nat): (o: Oracle)
    ensures Agrees(o, stream, inline, fetch, digest, bits)
  {
    Oracle((m: nat) => fetch(m).Page?, (m: nat) => Judged(DocumentOf(stream, inline, fetch, m), digest, bits))
  }

  /** It still agrees when the stream was shorter. */
  lemma AgreesEarlier(o: Oracle, before: seq<Payload>, stream: seq<Payload>, inline: nat -> Document,
                      fetch: nat -> Reply, digest: string -> nat, bits: nat)
    requires before <= stream && Agrees(o, stream, inline, fetch, digest, bits)
    ensures Agrees(o, before, inline, fetch, digest, bits)
  {
    forall m: nat | m < |before| && before[m].Article?
      ensures (o.hasContent(m) <==> fetch(m).Page?)
      ensures before[m].inline || fetch(m).Page? ==>
        o.gate(m) == Judged(DocumentOf(before, inline, fetch, m), digest, bits)
    {
      assert before[m] == stream[m];
    }
  }

  /** One more step at the end. */
  lemma ObeysMore(c: Config, o: Oracle, s: State, steps: seq<Step>, step: Step)
    requires CanRun(c, s, steps + [step]) && CanRun(c, s, steps) && Obeys(c, o, s, steps)
    requires Conforms(o, RunTo(c, s, steps), step)
    ensures Obeys(c, o, s, steps + [step]) && Enabled(RunTo(c, s, steps), step)
    ensures RunTo(c, s, steps + [step]) == Apply(c, RunTo(c, s, steps), step)
  {
    CanSplit(c, s, steps, [step]);
    var e := RunTo(c, s, steps);
    assert [step][1..] == [];
    assert Obeys(c, o, e, [step]);
    RunOn(c, o, s, steps, [step]);
  }

  // ---- fetching ---------------------------------------------------------------------

  ghost predicate AtFetch(s: State, toFetch: seq<nat>, toGate: seq<nat>, stream: seq<Payload>) {
    && InBatch(s) && s.stream == stream && s.process.work.batch.stage.Sifting?
    && s.process.work.batch.toFetch == toFetch && s.process.work.batch.toGate == toGate
  }

  lemma {:induction false} FetchObeys(c: Config, o: Oracle, s: State, ids: seq<nat>, rest: seq<nat>, toGate: seq<nat>,
                                      fetch: nat -> Reply, push: nat -> Parking)
    requires AtFetch(s, ids + rest, toGate, s.stream)
    requires CanRun(c, s, FetchSteps(ids, fetch, push))
    requires forall m | m in ids :: o.hasContent(m) <==> fetch(m).Page?
    ensures Obeys(c, o, s, FetchSteps(ids, fetch, push))
    ensures AtFetch(RunTo(c, s, FetchSteps(ids, fetch, push)), rest, toGate + Pages(ids, fetch), s.stream)
  {
    if ids == [] {
      assert ids + rest == rest && toGate + Pages(ids, fetch) == toGate;
    } else {
      var front, m := ids[..|ids| - 1], ids[|ids| - 1];
      var steps, step := FetchSteps(front, fetch, push), Fetch(Answered(fetch(m), push(m)));
      assert ids + rest == front + ([m] + rest);
      CanSplit(c, s, steps, [step]);
      FetchObeys(c, o, s, front, [m] + rest, toGate, fetch, push);
      ObeysMore(c, o, s, steps, step);
      OneFetched(c, RunTo(c, s, steps), m, rest, toGate + Pages(front, fetch), Answered(fetch(m), push(m)));
      assert toGate + Pages(ids, fetch)
          == toGate + Pages(front, fetch) + if fetch(m).Page? then [m] else [];
    }
  }

  lemma OneFetched(c: Config, s: State, m: nat, rest: seq<nat>, toGate: seq<nat>, fetched: Fetched)
    requires AtFetch(s, [m] + rest, toGate, s.stream) && Enabled(s, Fetch(fetched))
    ensures AtFetch(Apply(c, s, Fetch(fetched)), rest, toGate + if fetched.Content? then [m] else [], s.stream)
  {
    assert ([m] + rest)[1..] == rest;
  }

  // ---- the gates ------------------------------------------------------------------------

  lemma {:induction false} GateObeys(c: Config, o: Oracle, s: State, ids: seq<nat>, docs: seq<Document>, rest: seq<nat>,
                                     digest: string -> nat, bits: nat)
    requires |ids| == |docs| && AtFetch(s, [], ids + rest, s.stream)
    requires CanRun(c, s, GateSteps(docs, digest, bits))
    requires forall i | 0 <= i < |ids| :: o.gate(ids[i]) == Judged(docs[i], digest, bits)
    ensures Obeys(c, o, s, GateSteps(docs, digest, bits))
    ensures AtFetch(RunTo(c, s, GateSteps(docs, digest, bits)), [], rest, s.stream)
  {
    if ids == [] {
      assert ids + rest == rest;
    } else {
      var n := |ids| - 1;
      var steps, step := GateSteps(docs[..n], digest, bits), Gate(Judged(docs[n], digest, bits));
      assert ids + rest == ids[..n] + ([ids[n]] + rest);
      CanSplit(c, s, steps, [step]);
      GateObeys(c, o, s, ids[..n], docs[..n], [ids[n]] + rest, digest, bits);
      var e := RunTo(c, s, steps);
      ObeysMore(c, o, s, steps, step);
      GateShape(c, e, step.gated);
      assert ([ids[n]] + rest)[1..] == rest;
      GateStays(c, e, step.gated);
    }
  }

  lemma GateStays(c: Config, s: State, gated: Gated)
    requires Enabled(s, Gate(gated))
    ensures Apply(c, s, Gate(gated)).process.work.batch.stage.Sifting?
    ensures Apply(c, s, Gate(gated)).process.work.batch.toFetch == []
  {
    GateShape(c, s, gated);
  }

  // ---- the rest of the batch ----------------------------------------------------------------

  lemma {:induction false} IndexUndecisive(n: nat)
    ensures Undecisive(IndexSteps(n))
  {
    if n > 0 {
      IndexUndecisive(n - 1);
    }
  }

  lemma DocsJudged(o: Oracle, stream: seq<Payload>, ids: seq<nat>, docs: seq<Document>,
                   inline: nat -> Document, fetch: nat -> Reply, digest: string -> nat, bits: nat)
    requires DocsOf(stream, ids, docs, inline, fetch) && Agrees(o, stream, inline, fetch, digest, bits)
    ensures forall i | 0 <= i < |ids| :: o.gate(ids[i]) == Judged(docs[i], digest, bits)
  {
    forall i | 0 <= i < |ids|
      ensures o.gate(ids[i]) == Judged(docs[i], digest, bits)
    {
      assert IsDocOf(stream, ids[i], docs[i], inline, fetch);
    }
  }

  lemma FetchAgrees(o: Oracle, stream: seq<Payload>, ids: seq<nat>, inline: nat -> Document, fetch: nat -> Reply,
                    digest: string -> nat, bits: nat)
    requires Agrees(o, stream, inline, fetch, digest, bits)
    ensures forall m | m in Select(ids, stream, false) :: o.hasContent(m) <==> fetch(m).Page?
  {
    SelectedFit(ids, stream);
  }

  // ---- a batch that is cut off ----------------------------------------------------------

  lemma {:induction false} FetchLength(ids: seq<nat>, fetch: nat -> Reply, push: nat -> Parking)
    ensures |FetchSteps(ids, fetch, push)| == |ids|
  {
    if ids != [] {
      FetchLength(ids[..|ids| - 1], fetch, push);
    }
  }

  /** A prefix of the fetches is the fetches of a prefix. */
  lemma {:induction false} FetchPrefix(ids: seq<nat>, fetch: nat -> Reply, push: nat -> Parking, k: nat)
    requires k <= |ids|
    ensures |FetchSteps(ids, fetch, push)| == |ids|
    ensures FetchSteps(ids, fetch, push)[..k] == FetchSteps(ids[..k], fetch, push)
  {
    FetchLength(ids, fetch, push);
    if k == |ids| {
      assert ids[..k] == ids;
    } else {
      var front := ids[..|ids| - 1];
      FetchPrefix(front, fetch, push, k);
      assert front[..k] == ids[..k];
    }
  }

  lemma {:induction false} GateCut(docs: seq<Document>, digest: string -> nat, bits: nat, k: nat)
    requires k <= |docs|
    ensures |GateSteps(docs, digest, bits)| == |docs|
    ensures GateSteps(docs, digest, bits)[..k] == GateSteps(docs[..k], digest, bits)
  {
    if docs == [] {
      assert docs[..k] == docs;
    } else {
      var front := docs[..|docs| - 1];
      GateCut(front, digest, bits, |front|);
      if k == |docs| {
        assert docs[..k] == docs;
      } else {
        GateCut(front, digest, bits, k);
        assert front[..k] == docs[..k];
      }
    }
  }

  /** Cut off while fetching. */
  lemma FetchCutObeys(c: Config, o: Oracle, s: State, toFetch: seq<nat>, toGate: seq<nat>,
                      fetch: nat -> Reply, push: nat -> Parking, k: nat)
    requires AtFetch(s, toFetch, toGate, s.stream) && k <= |toFetch|
    requires forall m | m in toFetch :: o.hasContent(m) <==> fetch(m).Page?
    requires CanRun(c, s, FetchSteps(toFetch[..k], fetch, push))
    ensures Obeys(c, o, s, FetchSteps(toFetch[..k], fetch, push))
    ensures AtFetch(RunTo(c, s, FetchSteps(toFetch[..k], fetch, push)), toFetch[k..],
                    toGate + Pages(toFetch[..k], fetch), s.stream)
  {
    assert toFetch[..k] + toFetch[k..] == toFetch;
    FetchObeys(c, o, s, toFetch[..k], toFetch[k..], toGate, fetch, push);
  }

  /** Cut off at the gates. */
  lemma GateCutObeys(c: Config, o: Oracle, s: State, kept: seq<nat>, docs: seq<Document>,
                     digest: string -> nat, bits: nat, k: nat)
    requires k <= |docs| == |kept| && AtFetch(s, [], kept, s.stream)
    requires CanRun(c, s, GateSteps(docs[..k], digest, bits))
    requires forall i | 0 <= i < |kept| :: o.gate(kept[i]) == Judged(docs[i], digest, bits)
    ensures Obeys(c, o, s, GateSteps(docs[..k], digest, bits))
  {
    assert kept[..k] + kept[k..] == kept;
    GateObeys(c, o, s, kept[..k], docs[..k], kept[k..], digest, bits);
  }

  /** The effects of a batch, complete or cut off by an exception, obey every
      oracle that agrees with its pages and documents. */
  lemma BatchObeys(c: Config, o: Oracle, s: State, ids: seq<nat>, drain: bool, inline: nat -> Document,
                   fetch: nat -> Reply, push: nat -> Parking, docs: seq<Document>, digest: string -> nat, bits: nat,
                   n: nat, steps: seq<Step>)
    requires InBatch(s) && s.process.work.batch == StartBatch(ids, s.stream, drain)
    requires DocsOf(s.stream, Select(ids, s.stream, true) + Pages(Select(ids, s.stream, false), fetch), docs,
                    inline, fetch)
    requires Agrees(o, s.stream, inline, fetch, digest, bits)
    requires CanRun(c, s, steps) && steps <= BatchSteps(ids, s.stream, fetch, push, docs, digest, bits, n)
    ensures Obeys(c, o, s, steps)
  {
    var direct, toFetch := Select(ids, s.stream, true), Select(ids, s.stream, false);
    FetchAgrees(o, s.stream, ids, inline, fetch, digest, bits);
    DocsJudged(o, s.stream, direct + Pages(toFetch, fetch), docs, inline, fetch, digest, bits);
    StepsObey(c, o, s, direct, toFetch, fetch, push, docs, digest, bits, n, steps);
  }

  /** The same from the oracle's point of view. */
  lemma StepsObey(c: Config, o: Oracle, s: State, direct: seq<nat>, toFetch: seq<nat>, fetch: nat -> Reply,
                  push: nat -> Parking, docs: seq<Document>, digest: string -> nat, bits: nat, n: nat, steps: seq<Step>)
    requires AtFetch(s, toFetch, direct, s.stream) && |docs| == |direct + Pages(toFetch, fetch)|
    requires forall m | m in toFetch :: o.hasContent(m) <==> fetch(m).Page?
    requires forall i | 0 <= i < |docs| :: o.gate((direct + Pages(toFetch, fetch))[i]) == Judged(docs[i], digest, bits)
    requires CanRun(c, s, steps)
    requires steps <= SiftSteps(toFetch, fetch, push, docs, digest, bits) + (StoreSteps(n) + [Ack])
    ensures Obeys(c, o, s, steps)
  {
    var a, b, d := FetchSteps(toFetch, fetch, push), GateSteps(docs, digest, bits), StoreSteps(n) + [Ack];
    Regroup(a, b, d);
    FetchLength(toFetch, fetch, push);
    if |steps| <= |a| {
      CutInFirst(steps, a, b + d);
      FetchPrefix(toFetch, fetch, push, |steps|);
      FetchCutObeys(c, o, s, toFetch, direct, fetch, push, |steps|);
    } else {
      var rest := CutAfter(steps, a, b + d);
      CanSplit(c, s, a, rest);
      assert toFetch[..|toFetch|] == toFetch;
      FetchCutObeys(c, o, s, toFetch, direct, fetch, push, |toFetch|);
      AfterFetch(c, o, RunTo(c, s, a), direct + Pages(toFetch, fetch), docs, digest, bits, n, rest);
      RunOn(c, o, s, a, rest);
    }
  }

  lemma AfterFetch(c: Config, o: Oracle, s: State, kept: seq<nat>, docs: seq<Document>,
                   digest: string -> nat, bits: nat, n: nat, steps: seq<Step>)
    requires |docs| == |kept| && AtFetch(s, [], kept, s.stream)
    requires forall i | 0 <= i < |kept| :: o.gate(kept[i]) == Judged(docs[i], digest, bits)
    requires CanRun(c, s, steps) && steps <= GateSteps(docs, digest, bits) + (StoreSteps(n) + [Ack])
    ensures Obeys(c, o, s, steps)
  {
    var b, d := GateSteps(docs, digest, bits), StoreSteps(n) + [Ack];
    GateCut(docs, digest, bits, |docs|);
    if |steps| <= |b| {
      CutInFirst(steps, b, d);
      GateCut(docs, digest, bits, |steps|);
      GateCutObeys(c, o, s, kept, docs, digest, bits, |steps|);
    } else {
      var rest := CutAfter(steps, b, d);
      CanSplit(c, s, b, rest);
      assert docs[..|docs|] == docs;
      GateCutObeys(c, o, s, kept, docs, digest, bits, |docs|);
      IndexUndecisive(n);
      UndecisiveObeys(c, o, RunTo(c, s, b), rest);
      RunOn(c, o, s, b, rest);
    }
  }

  lemma CutInFirst(steps: seq<Step>, a: seq<Step>, b: seq<Step>)
    requires steps <= a + b && |steps| <= |a|
    ensures steps == a[..|steps|]
  {
    assert (a + b)[..|steps|] == a[..|steps|];
  }

  lemma CutAfter(steps: seq<Step>, a: seq<Step>, b: seq<Step>) returns (rest: seq<Step>)
    requires steps <= a + b && |steps| > |a|
    ensures steps == a + rest && rest <= b
  {
    rest := steps[|a|..];
    assert (a + b)[..|steps|] == a + b[..|steps| - |a|];
  }

  /** The same at the end of a longer run. */
  lemma BatchFollows(c: Config, o: Oracle, states: seq<State>, before: seq<Step>, after: seq<Step>, ids: seq<nat>,
                     drain: bool, inline: nat -> Document, fetch: nat -> Reply, push: nat -> Parking,
                     docs: seq<Document>, digest: string -> nat, bits: nat, n: nat)
    requires Chain(c, states, after) && before <= after
    requires var s := states[|before|];
      && InBatch(s) && s.process.work.batch == StartBatch(ids, s.stream, drain)
      && DocsOf(s.stream, Select(ids, s.stream, true) + Pages(Select(ids, s.stream, false), fetch), docs, inline, fetch)
      && Agrees(o, s.stream, inline, fetch, digest, bits)
      && after <= before + BatchSteps(ids, s.stream, fetch, push, docs, digest, bits, n)
    ensures ObeysFrom(o, states, after, |before|)
  {
    var s, added := states[|before|], after[|before|..];
    assert after == before + added;
    AddedPrefix(before, added, BatchSteps(ids, s.stream, fetch, push, docs, digest, bits, n));
    ChainSuffix(c, states, after, |before|);
    ChainRuns(c, states[|before|..], added);
    BatchObeys(c, o, s, ids, drain, inline, fetch, push, docs, digest, bits, n, added);
    FromAdded(c, o, states, before, added);
  }

  lemma AddedPrefix(before: seq<Step>, added: seq<Step>, planned: seq<Step>)
    requires before + added <= before + planned
    ensures added <= planned
  {
    forall i | 0 <= i < |added|
      ensures added[i] == planned[i]
    {
      assert (before + added)[|before| + i] == (before + planned)[|before| + i];
    }
  }
}
