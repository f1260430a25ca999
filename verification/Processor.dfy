/** The imperative consumer of py-processor/main.py, proved against the delivery
    state machine: every external effect and every decision it makes is a step
    of `Delivery`, so the object's state is always the end of a run and the
    theorems about runs apply to it. `healthy` counts the Redis and Postgres
    calls that still succeed; the next one raises, wherever it stands. */
module Processor {
  import opened Wrappers
  import opened Dedupe
  import opened NearDup
  import opened Delivery
  import opened DeliverySafety
  import opened DeliveryReplay
  import opened DeliveryLoss
  import opened BatchPlan
  import opened BatchOutcome

  lemma AppendStep(c: Config, s: State, fp: nat)
    requires Enabled(s, Gate(Passed(fp))) && !Near(s.index, fp, c.threshold) && fp !in s.process.seen
    ensures var b := s.process.work.batch;
      var m := b.toGate[0];
      Apply(c, s, Gate(Passed(fp)))
      == s.(process := Up(s.process.boot, Push(s.process.seen, fp, c.seenCap), Working(
              b.(toGate := b.toGate[1..], verdicts := b.verdicts[m := WasRow(fp)],
                 rows := b.rows + [Row(s.stream[m].url, fp, Some(m))]))))
  {}

  lemma CommitStep(c: Config, s: State)
    requires Enabled(s, Commit)
    ensures var b := s.process.work.batch;
      Apply(c, s, Commit)
      == s.(articles := InsertRows(s.articles, b.rows), committed := s.committed + ToSet(b.rows),
            process := Up(s.process.boot, s.process.seen, Working(b.(stage := Indexing(0)))))
  {}

  lemma AckStep(c: Config, s: State)
    requires Enabled(s, Ack)
    ensures var b := s.process.work.batch;
      Apply(c, s, Ack)
      == s.(pending := s.pending - ToSet(b.ids), acked := s.acked + b.verdicts,
            process := Up(s.process.boot, s.process.seen, if b.drain then Draining else Reading))
  {}

  lemma IndexStep(c: Config, s: State)
    requires Enabled(s, IndexRow)
    ensures var b := s.process.work.batch;
      Apply(c, s, IndexRow)
      == s.(index := s.index + {b.rows[b.stage.done].fp},
            process := Up(s.process.boot, s.process.seen, Working(b.(stage := Indexing(b.stage.done + 1)))))
  {}

  lemma ParkStep(c: Config, s: State, script: bool)
    requires Enabled(s, Fetch(NoContent(script)))
    ensures var b := s.process.work.batch;
      var m := b.toFetch[0];
      var parked := script && m !in s.dlqSeen;
      Apply(c, s, Fetch(NoContent(script)))
      == s.(dlq := if parked then s.dlq + [m] else s.dlq,
            dlqSeen := if parked then s.dlqSeen + {m} else s.dlqSeen,
            process := Up(s.process.boot, s.process.seen, Working(
              b.(toFetch := b.toFetch[1..],
                 verdicts := b.verdicts[m := if script then WasParked else WasUnparked]))))
  {}

  /** A warm-up that files fps, and sets the sentinel if that is all. */
  lemma WarmRun(c: Config, s: State, fps: set<nat>, done: bool) returns (steps: seq<Step>)
    requires s.process.Up? && s.process.work.Warming? && fps <= s.process.work.todo
    requires done ==> fps == s.process.work.todo
    ensures CanRun(c, s, steps) && Undecisive(steps) && NoRaise(steps)
    ensures RunTo(c, s, steps)
         == s.(index := s.index + fps, warmed := s.warmed || done,
               process := s.process.(work := if done then Draining else Warming(s.process.work.todo - fps)))
  {
    steps := WarmSteps(c, s, fps);
    if done {
      assert s.process.work.todo - fps == {};
      RunAppend(c, s, steps, WarmDone);
      steps := steps + [WarmDone];
    }
  }

  class Consumer {
    // Redis
    var stream: seq<Payload>
    var next: nat
    var pending: set<nat>
    var dlq: seq<nat>
    var dlqSeen: set<nat>
    const lsh: LshIndex
    var storedMetric: nat
    var rejectedMetric: nat
    var dlqMetric: nat
    // Postgres
    var articles: map<nat, Option<nat>>
    // the process
    var up: bool
    var boot: bool
    var seenHashes: seq<nat>
    const seenCap: nat
    const digest: string -> nat
    var healthy: nat
    // history
    ghost var work: Work
    ghost var acked: map<nat, Verdict>
    ghost var committed: set<Row>
    ghost var origin: State
    ghost var trace: seq<Step>
    ghost var states: seq<State>   // the states between those steps
    ghost var retries: set<State>  // where main has caught an exception

    constructor (stream: seq<Payload>, articles: map<nat, Option<nat>>, lsh: LshIndex,
                 seenCap: nat, digest: string -> nat, healthy: nat)
      requires lsh.Valid() && lsh.threshold < lsh.bands && lsh.contents == {} && !lsh.warmed
      ensures Valid() && !up && this.lsh == lsh && trace == [] && retries == {}
      ensures this.stream == stream && this.articles == articles
    {
      this.stream, this.articles, this.lsh := stream, articles, lsh;
      this.seenCap, this.digest, this.healthy := seenCap, digest, healthy;
      next, pending, dlq, dlqSeen, seenHashes := 0, {}, [], {}, [];
      storedMetric, rejectedMetric, dlqMetric := 0, 0, 0;
      up, boot := false, false;
      work, acked, trace, retries := Draining, map[], [], {};
      committed := set u | u in articles && articles[u].Some? :: Row(u, articles[u].value, None);
      new;
      origin := Snapshot();
      states := [origin];
    }

    ghost function Cfg(): Config {
      Config(lsh.threshold, seenCap)
    }

    ghost function Snapshot(): State
      reads this, lsh
    {
      State(stream, next, pending, acked, dlq, dlqSeen, lsh.contents, lsh.warmed, articles, committed,
            if up then Up(boot, seenHashes, work) else Down)
    }

    /** A run from the beginning to the state `last`. */
    ghost predicate History(last: State)
      reads this`origin, this`trace, this`states, this`retries
    {
      && Chain(Cfg(), states, trace) && Caught(states, trace, retries)
      && states[0] == origin && Init(origin) && states[|trace|] == last
    }

    ghost predicate Valid()
      reads this, lsh
    {
      lsh.Valid() && lsh.threshold < lsh.bands && History(Snapshot())
    }

    ghost method Record(before: State, step: Step)
      requires lsh.Valid() && lsh.threshold < lsh.bands && History(before)
      requires Enabled(before, step) && Apply(Cfg(), before, step) == Snapshot()
      requires step.Raise? ==> before in retries
      modifies this`trace, this`states
      ensures Valid() && trace == old(trace) + [step] && states == old(states) + [Snapshot()]
    {
      ChainAppend(Cfg(), states, trace, step);
      CaughtMore(states, trace, retries, states + [Snapshot()], [step]);
      trace, states := trace + [step], states + [Snapshot()];
    }

    ghost method RecordAll(before: State, steps: seq<Step>)
      requires lsh.Valid() && lsh.threshold < lsh.bands && History(before)
      requires CanRun(Cfg(), before, steps) && RunTo(Cfg(), before, steps) == Snapshot() && NoRaise(steps)
      modifies this`trace, this`states
      ensures Valid() && trace == old(trace) + steps
    {
      ghost var longer := ChainExtend(Cfg(), states, trace, steps);
      CaughtMore(states, trace, retries, longer, steps);
      states := longer;
      trace := trace + steps;
    }

    /** In a batch that has been parsed. */
    ghost predicate Busy()
      reads this`up, this`work, this`stream
    {
      up && work.Working? && Parses(work.batch.ids, stream)
    }

    /** A decision that leaves Redis and Postgres alone. */
    ghost method Decide(step: Step)
      requires Valid() && up && Enabled(Snapshot(), step) && !step.Raise?
      requires Apply(Cfg(), Snapshot(), step).process.Up?
      requires var s' := Apply(Cfg(), Snapshot(), step);
        s' == Snapshot().(process := Up(boot, seenHashes, s'.process.work))
      modifies this`trace, this`states, this`work
      ensures Valid() && trace == old(trace) + [step]
      ensures Snapshot() == Apply(Cfg(), old(Snapshot()), step)
    {
      var before := Snapshot();
      work := Apply(Cfg(), before, step).process.work;
      Record(before, step);
    }

    /** `_DLQ_PUSH_LUA`: only the first entry of a message is parked. */
    method RunScript(m: nat) returns (first: bool)
      modifies this`dlq, this`dlqSeen
      ensures first <==> m !in old(dlqSeen)
      ensures dlqSeen == old(dlqSeen) + {m} && dlq == (if first then old(dlq) + [m] else old(dlq))
    {
      if m in dlqSeen {
        return false;
      }
      dlqSeen := dlqSeen + {m};
      dlq := dlq + [m];
      first := true;
    }

    /** `push_dlq`: never raises. A push that fails after the script has parked the
        entry is not counted and reported as no push. */
    method PushDlq(m: nat, push: Parking) returns (parked: bool)
      requires Valid() && up && Enabled(Snapshot(), Fetch(NoContent(!push.NotRun?)))
      requires work.batch.toFetch[0] == m
      modifies this`dlq, this`dlqSeen, this`dlqMetric, this`trace, this`states, this`work
      ensures Valid() && trace == old(trace) + [Fetch(NoContent(!push.NotRun?))]
      ensures Snapshot() == Apply(Cfg(), old(Snapshot()), Fetch(NoContent(!push.NotRun?)))
      ensures dlqSeen == if push.NotRun? then old(dlqSeen) else old(dlqSeen) + {m}
      ensures dlq == if push.NotRun? || m in old(dlqSeen) then old(dlq) else old(dlq) + [m]
      ensures parked == (push.Counted? && m !in old(dlqSeen))
      ensures dlqMetric == old(dlqMetric) + if parked then 1 else 0
    {
      ghost var before := Snapshot();
      parked := Park(m, push);
      NoteParked(before, m, !push.NotRun?);
    }

    ghost method NoteParked(before: State, m: nat, script: bool)
      requires lsh.Valid() && lsh.threshold < lsh.bands && History(before)
      requires up && before == Snapshot().(dlq := before.dlq, dlqSeen := before.dlqSeen)
      requires Enabled(before, Fetch(NoContent(script))) && work.batch.toFetch[0] == m
      requires dlq == if script && m !in before.dlqSeen then before.dlq + [m] else before.dlq
      requires dlqSeen == if script then before.dlqSeen + {m} else before.dlqSeen
      modifies this`trace, this`states, this`work
      ensures Valid() && trace == old(trace) + [Fetch(NoContent(script))]
      ensures Snapshot() == Apply(Cfg(), before, Fetch(NoContent(script)))
    {
      ParkStep(Cfg(), before, script);
      ghost var b := work.batch;
      work := Working(b.(toFetch := b.toFetch[1..],
                         verdicts := b.verdicts[m := if script then WasParked else WasUnparked]));
      Record(before, Fetch(NoContent(script)));
    }

    /** The Redis side of a push. */
    method Park(m: nat, push: Parking) returns (parked: bool)
      modifies this`dlq, this`dlqSeen, this`dlqMetric
      ensures parked == (push.Counted? && m !in old(dlqSeen))
      ensures dlqSeen == if push.NotRun? then old(dlqSeen) else old(dlqSeen) + {m}
      ensures dlq == if push.NotRun? || m in old(dlqSeen) then old(dlq) else old(dlq) + [m]
      ensures dlqMetric == old(dlqMetric) + if parked then 1 else 0
    {
      parked := false;
      if !push.NotRun? {
        var first := RunScript(m);
        if first && push.Counted? {
          dlqMetric := dlqMetric + 1;
          parked := true;
        }
      }
    }

    /** Phases 1 and 2a of process_batch: parse, and split by inline content. An
        entry that is not an object has no `get`. */
    method Parse(ids: seq<nat>) returns (raised: bool, direct: seq<nat>, toFetch: seq<nat>)
      requires forall m | m in ids :: m < |stream|
      ensures raised <==> !Parses(ids, stream)
      ensures !raised ==>
        && direct == Select(ids, stream, true) && toFetch == Select(ids, stream, false)
        && |direct| + |toFetch| + Unparsable(ids, stream) == |ids|
    {
      direct, toFetch := [], [];
      for k := 0 to |ids|
        invariant direct == Select(ids[..k], stream, true) && toFetch == Select(ids[..k], stream, false)
        invariant |direct| + |toFetch| + Unparsable(ids[..k], stream) == k
        invariant Parses(ids[..k], stream)
      {
        assert ids[..k + 1][..k] == ids[..k];
        assert ids[..k + 1] == ids[..k] + [ids[k]];
        assert ids[k] in ids;
        if stream[ids[k]].NotObject? {
          assert Poison(stream, ids[k]);
          return true, direct, toFetch;
        }
        if stream[ids[k]].Article? {
          if stream[ids[k]].inline {
            direct := direct + [ids[k]];
          } else {
            toFetch := toFetch + [ids[k]];
          }
        }
      }
      assert ids[..|ids|] == ids;
      raised := false;
    }

    /** One fetched page: gone pages are rejected, empty ones parked. */
    method FetchEntry(m: nat, reply: Reply, push: Parking, tally: Tally)
        returns (content: Option<Document>, tally': Tally)
      requires Valid() && Busy() && work.batch.stage.Sifting?
      requires work.batch.toFetch != [] && work.batch.toFetch[0] == m
      requires m < |stream| && stream[m].Article?
      modifies this`dlq, this`dlqSeen, this`dlqMetric, this`trace, this`states, this`work
      ensures Valid() && trace == old(trace) + [Fetch(Answered(reply, push))]
      ensures work.Working?
      ensures var b := old(work).batch;
        work.batch == b.(toFetch := b.toFetch[1..],
                         toGate := if content.Some? then b.toGate + [m] else b.toGate,
                         verdicts := work.batch.verdicts)
      ensures content == if reply.Page? then Some(reply.document) else None
      ensures match reply
        case PageGone =>
          && tally' == Tally(tally.stats + multiset{NotFound}, tally.srcRej + multiset{stream[m].source})
          && trace == old(trace) + [Fetch(Gone)] && dlq == old(dlq) && dlqSeen == old(dlqSeen)
        case NothingExtracted =>
          && tally' == Tally(tally.stats + multiset{ExtractFail}, tally.srcRej + multiset{stream[m].source})
          && trace == old(trace) + [Fetch(NoContent(!push.NotRun?))]
          && dlqSeen == (if push.NotRun? then old(dlqSeen) else old(dlqSeen) + {m})
          && dlq == if push.NotRun? || m in old(dlqSeen) then old(dlq) else old(dlq) + [m]
        case Page(_) =>
          tally' == tally && trace == old(trace) + [Fetch(Content)] && dlq == old(dlq) && dlqSeen == old(dlqSeen)
      ensures tally' == FetchCount(tally, reply, SourceOf(stream, m))
    {
      content, tally' := None, tally;
      match reply
      case PageGone =>
        tally' := tally.Reject(NotFound, stream[m].source);
        Decide(Fetch(Gone));
      case NothingExtracted =>
        tally' := tally.Reject(ExtractFail, stream[m].source);
        var parked := PushDlq(m, push);
      case Page(document) =>
        content := Some(document);
        Decide(Fetch(Content));
    }

    /** Phase 2b: inline content first, then the fetched pages in order. */
    method FetchPhase(direct: seq<nat>, toFetch: seq<nat>,
                      inline: nat -> Document, fetch: nat -> Reply, push: nat -> Parking)
        returns (extracted: seq<nat>, docs: seq<Document>, tally: Tally)
      requires Valid() && Busy() && work.batch.stage.Sifting?
      requires work.batch.toFetch == toFetch && work.batch.toGate == direct
      requires forall m | m in direct :: m < |stream| && stream[m].Article? && stream[m].inline
      requires forall m | m in toFetch :: m < |stream| && stream[m].Article? && !stream[m].inline
      modifies this`dlq, this`dlqSeen, this`dlqMetric, this`trace, this`states, this`work
      ensures Valid() && trace == old(trace) + FetchSteps(toFetch, fetch, push)
      ensures work.Working? && work.batch
        == old(work).batch.(toFetch := [], toGate := extracted, verdicts := work.batch.verdicts)
      ensures extracted == direct + Pages(toFetch, fetch) && DocsOf(stream, extracted, docs, inline, fetch)
      ensures tally == FetchTally(toFetch, fetch, stream)
    {
      tally, extracted := Tally(multiset{}, multiset{}), direct;
      docs := seq(|direct|, i requires 0 <= i < |direct| => inline(direct[i]));
      InlineDocs(stream, direct, docs, inline, fetch);
      ghost var steps: seq<Step> := [];
      for k := 0 to |toFetch|
        invariant Valid() && trace == old(trace) + steps
        invariant work.Working? && work.batch
          == old(work).batch.(toFetch := toFetch[k..], toGate := extracted, verdicts := work.batch.verdicts)
        invariant Fetching(toFetch[..k], direct, fetch, push, stream, extracted, tally, steps)
        invariant DocsOf(stream, extracted, docs, inline, fetch)
      {
        var m := toFetch[k];
        assert m in toFetch;
        NextOf(toFetch, k);
        FetchMore(toFetch[..k], m, direct, fetch, push, stream, extracted, tally, steps);
        var content;
        content, tally := FetchEntry(m, fetch(m), push(m), tally);
        Regroup(old(trace), steps, [Fetch(Answered(fetch(m), push(m)))]);
        steps := steps + [Fetch(Answered(fetch(m), push(m)))];
        if content.Some? {
          DocsMore(stream, extracted, docs, inline, fetch, m);
          extracted, docs := extracted + [m], docs + [content.value];
        }
      }
      assert toFetch[..|toFetch|] == toFetch;
    }

    /** A gate decision that appends no row. */
    ghost method Refuse(m: nat, gated: Gated)
      requires Valid() && Busy() && work.batch.stage.Sifting? && work.batch.toFetch == []
      requires work.batch.toGate != [] && work.batch.toGate[0] == m && m < |stream| && stream[m].Article?
      requires gated.Passed? ==> Near(lsh.contents, gated.fp, lsh.threshold) || gated.fp in seenHashes
      modifies this`trace, this`states, this`work
      ensures Valid() && trace == old(trace) + [Gate(gated)] && work.Working?
      ensures var b := old(work).batch;
        work.batch == b.(toGate := b.toGate[1..], verdicts := work.batch.verdicts)
    {
      Decide(Gate(gated));
    }

    /** Phase 3 for one document: quality, language, near-duplicate search,
        deque. `raised`: a Redis read failed. */
    method GateEntry(m: nat, doc: Document, rows: seq<Row>, tally: Tally)
        returns (raised: bool, rows': seq<Row>, tally': Tally, ghost row: bool)
      requires Valid() && Busy() && work.batch.stage.Sifting? && work.batch.toFetch == []
      requires work.batch.toGate != [] && work.batch.toGate[0] == m && m < |stream| && stream[m].Article?
      requires work.batch.rows == rows
      modifies this`healthy, this`seenHashes, this`trace, this`states, this`work
      ensures Valid() && old(trace) <= trace
      ensures work.Working?
      ensures Paid(old(healthy), healthy, if doc.assessment.Accepted? then 1 else 0, raised)
      ensures raised ==> trace == old(trace)
      ensures !raised ==> trace == old(trace) + [Gate(Judged(doc, digest, lsh.bits))]
      ensures !raised ==> var b := old(work).batch;
        work.batch == b.(toGate := b.toGate[1..], verdicts := work.batch.verdicts, rows := rows')
      ensures !raised ==>
        && (row <==> doc.assessment.Accepted?
                     && !Near(lsh.contents, Fingerprint(doc.tokens, digest, lsh.bits), lsh.threshold)
                     && Fingerprint(doc.tokens, digest, lsh.bits) !in old(seenHashes))
        && rows' == rows + (if row then [RowOf(stream, m, Fingerprint(doc.tokens, digest, lsh.bits))] else [])
        && tally' == GateCount(tally, doc, row, SourceOf(stream, m))
      ensures !raised ==>
        var fp := Fingerprint(doc.tokens, digest, lsh.bits);
        match doc.assessment
        case Refused(reason) =>
          && tally' == Tally(tally.stats + multiset{Quality(reason)}, tally.srcRej + multiset{stream[m].source})
          && rows' == rows && trace == old(trace) + [Gate(Rejected)]
        case Foreign =>
          && tally' == Tally(tally.stats + multiset{Lang}, tally.srcRej)
          && rows' == rows && trace == old(trace) + [Gate(WrongLanguage)]
        case Accepted =>
          && tally' == (if row then tally else Tally(tally.stats + multiset{Dup}, tally.srcRej))
          && rows' == (if row then rows + [Row(stream[m].url, fp, Some(m))] else rows)
          && trace == old(trace) + [Gate(Passed(fp))]
          && seenHashes == if row then Push(old(seenHashes), fp, seenCap) else old(seenHashes)
    {
      raised, rows', tally', row := false, rows, tally, false;
      match doc.assessment
      case Refused(reason) =>
        tally' := tally.Reject(Quality(reason), stream[m].source);
        Refuse(m, Rejected);
      case Foreign =>
        tally' := tally.Skip(Lang);
        Refuse(m, WrongLanguage);
      case Accepted =>
        if healthy == 0 {
          return true, rows, tally, false;
        }
        healthy := healthy - 1;
        var dup, chash := lsh.IsDuplicate(doc.tokens, digest);
        if dup || chash in seenHashes {
          tally' := tally.Skip(Dup);
          Refuse(m, Passed(chash));
        } else {
          rows', row := rows + [Row(stream[m].url, chash, Some(m))], true;
          Append(m, chash);
        }
    }

    /** `seen_hashes.append(chash)` and the row that goes with it. */
    method Append(m: nat, chash: nat)
      requires Valid() && Busy() && work.batch.stage.Sifting? && work.batch.toFetch == []
      requires work.batch.toGate != [] && work.batch.toGate[0] == m && m < |stream| && stream[m].Article?
      requires !Near(lsh.contents, chash, lsh.threshold) && chash !in seenHashes
      modifies this`seenHashes, this`trace, this`states, this`work
      ensures Valid() && trace == old(trace) + [Gate(Passed(chash))] && work.Working?
      ensures seenHashes == Push(old(seenHashes), chash, seenCap)
      ensures var b := old(work).batch;
        work.batch == b.(toGate := b.toGate[1..], verdicts := work.batch.verdicts,
                         rows := b.rows + [Row(stream[m].url, chash, Some(m))])
    {
      ghost var before := Snapshot();
      AppendStep(Cfg(), before, chash);
      seenHashes := Push(seenHashes, chash, seenCap);
      ghost var b := work.batch;
      work := Working(b.(toGate := b.toGate[1..], verdicts := b.verdicts[m := WasRow(chash)],
                         rows := b.rows + [Row(stream[m].url, chash, Some(m))]));
      Record(before, Gate(Passed(chash)));
    }

    /** Phase 3 of the batch b after k documents, from the run t with h calls left. */
    ghost predicate AtGate(b: Batch, t: seq<Step>, h: nat, start: Tally, ids: seq<nat>, docs: seq<Document>, k: nat,
                           passed: seq<bool>, rows: seq<Row>, tally: Tally)
      reads this
      requires k <= |ids| == |docs|
    {
      && work == Working(b.(toGate := ids[k..], rows := rows,
                            verdicts := if work.Working? then work.batch.verdicts else map[]))
      && Gating(start, ids[..k], docs[..k], passed, stream, digest, lsh.bits, rows, tally,
                GateSteps(docs[..k], digest, lsh.bits))
      && trace == t + GateSteps(docs[..k], digest, lsh.bits) && healthy + GateCalls(docs[..k]) == h
    }

    /** The loop body of phase 3. */
    method GateNext(ghost b: Batch, ghost t: seq<Step>, ghost h: nat, ghost start: Tally, ghost ids: seq<nat>,
                    ghost docs: seq<Document>, ghost k: nat, ghost passed: seq<bool>,
                    m: nat, doc: Document, rows: seq<Row>, tally: Tally)
        returns (raised: bool, rows': seq<Row>, tally': Tally, ghost row: bool)
      requires k < |ids| == |docs| && m == ids[k] && doc == docs[k] && m < |stream| && stream[m].Article?
      requires b.stage.Sifting? && b.toFetch == [] && Parses(b.ids, stream)
      requires Valid() && up && AtGate(b, t, h, start, ids, docs, k, passed, rows, tally)
      modifies this`healthy, this`seenHashes, this`trace, this`states, this`work
      ensures Valid() && old(trace) <= trace && work.Working?
      ensures raised ==>
        trace <= t + GateSteps(docs, digest, lsh.bits) && healthy == 0 && h < GateCalls(docs)
      ensures !raised ==> AtGate(b, t, h, start, ids, docs, k + 1, passed + [row], rows', tally')
    {
      GatePrefix(docs, k, digest, lsh.bits);
      NextOf(ids, k);
      NextOf(docs, k);
      ghost var steps := GateSteps(docs[..k], digest, lsh.bits);
      raised, rows', tally', row := GateEntry(m, doc, rows, tally);
      if raised {
        PrefixLift(t, steps, GateSteps(docs, digest, lsh.bits));
      } else {
        GateMore(start, ids[..k], docs[..k], passed, stream, digest, lsh.bits, rows, tally, steps, m, doc, row);
        Regroup(t, steps, [Gate(Judged(doc, digest, lsh.bits))]);
        GateOneMore(docs, k, digest, lsh.bits);
      }
    }

    /** Phase 3: `passed` says which documents became rows. */
    method GatePhase(extracted: seq<nat>, docs: seq<Document>, tally: Tally)
        returns (raised: bool, rows: seq<Row>, tally': Tally, ghost passed: seq<bool>)
      requires Valid() && Busy() && work.batch.stage.Sifting?
      requires work.batch.toFetch == [] && work.batch.toGate == extracted && work.batch.rows == []
      requires |docs| == |extracted| && forall m | m in extracted :: m < |stream| && stream[m].Article?
      modifies this`healthy, this`seenHashes, this`trace, this`states, this`work
      ensures Valid() && old(trace) <= trace
      ensures work.Working?
      ensures Paid(old(healthy), healthy, GateCalls(docs), raised)
      ensures raised ==> rows == [] && trace <= old(trace) + GateSteps(docs, digest, lsh.bits)
      ensures !raised ==>
        && work.batch == old(work).batch.(toGate := [], rows := rows, verdicts := work.batch.verdicts)
        && trace == old(trace) + GateSteps(docs, digest, lsh.bits)
        && Gating(tally, extracted, docs, passed, stream, digest, lsh.bits, rows, tally',
                  GateSteps(docs, digest, lsh.bits))
    {
      raised, rows, tally', passed := false, [], tally, [];
      ghost var b, t, h := work.batch, trace, healthy;
      GateStart(extracted, docs, tally);
      for k := 0 to |extracted|
        invariant Valid() && !raised && old(trace) <= trace
        invariant AtGate(b, t, h, tally, extracted, docs, k, passed, rows, tally')
      {
        ghost var row;
        assert extracted[k] in extracted;
        raised, rows, tally', row :=
          GateNext(b, t, h, tally, extracted, docs, k, passed, extracted[k], docs[k], rows, tally');
        if raised {
          return true, [], tally', passed;
        }
        passed := passed + [row];
      }
      GateEnd(b, t, h, tally, extracted, docs, passed, rows, tally');
    }

    /** Phase 3 before the first document. */
    lemma GateStart(ids: seq<nat>, docs: seq<Document>, tally: Tally)
      requires work.Working? && work.batch.toGate == ids && work.batch.rows == [] && |ids| == |docs|
      ensures AtGate(work.batch, trace, healthy, tally, ids, docs, 0, [], [], tally)
    {
      assert ids[0..] == ids && trace + GateSteps(docs[..0], digest, lsh.bits) == trace;
    }

    /** Phase 3 after all documents. */
    lemma GateEnd(b: Batch, t: seq<Step>, h: nat, start: Tally, ids: seq<nat>, docs: seq<Document>,
                  passed: seq<bool>, rows: seq<Row>, tally: Tally)
      requires |ids| == |docs| && work.Working? && AtGate(b, t, h, start, ids, docs, |ids|, passed, rows, tally)
      ensures work.batch == b.(toGate := [], rows := rows, verdicts := work.batch.verdicts)
      ensures trace == t + GateSteps(docs, digest, lsh.bits) && healthy + GateCalls(docs) == h
      ensures Gating(start, ids, docs, passed, stream, digest, lsh.bits, rows, tally,
                     GateSteps(docs, digest, lsh.bits))
    {
      assert ids[..|ids|] == ids && docs[..|docs|] == docs;
    }

    /** The statement of `insert_articles`: rows whose URL is taken are skipped,
        and the rowcount counts the others. */
    static method InsertUnlessConflict(before: map<nat, Option<nat>>, rows: seq<Row>)
        returns (table: map<nat, Option<nat>>, inserted: nat)
      ensures table == InsertRows(before, rows) && inserted == |table| - |before|
    {
      table, inserted := before, 0;
      for k := 0 to |rows|
        invariant table == InsertRows(before, rows[..k]) && inserted == |table| - |before|
      {
        assert rows[..k + 1][..k] == rows[..k];
        if rows[k].url !in table {
          table := table[rows[k].url := Some(rows[k].fp)];
          inserted := inserted + 1;
        }
      }
      assert rows[..|rows|] == rows;
    }

    method CommitTable(table: map<nat, Option<nat>>, rows: seq<Row>)
      requires Valid() && Busy() && Sifted(work.batch) && work.batch.rows == rows && rows != []
      requires table == InsertRows(articles, rows)
      modifies this`articles, this`committed, this`trace, this`states, this`work
      ensures Valid() && trace == old(trace) + [Commit] && articles == table
      ensures work == Working(old(work).batch.(stage := Indexing(0)))
    {
      ghost var before := Snapshot();
      CommitStep(Cfg(), before);
      articles := table;
      committed := committed + ToSet(rows);
      work := Working(work.batch.(stage := Indexing(0)));
      Record(before, Commit);
    }

    /** `insert_articles`: an exception comes before the commit. */
    method InsertArticles(rows: seq<Row>) returns (raised: bool, inserted: nat)
      requires Valid() && Busy() && Sifted(work.batch) && work.batch.rows == rows && rows != []
      modifies this`healthy, this`articles, this`committed, this`trace, this`states, this`work
      ensures Valid() && old(trace) <= trace && work.Working?
      ensures Paid(old(healthy), healthy, 1, raised)
      ensures raised ==> articles == old(articles) && work == old(work) && trace == old(trace)
      ensures !raised ==>
        && trace == old(trace) + [Commit]
        && articles == InsertRows(old(articles), rows) && work.batch == old(work).batch.(stage := Indexing(0))
        && inserted == |articles| - |old(articles)|
    {
      if healthy == 0 {
        return true, 0;
      }
      healthy := healthy - 1;
      var table;
      table, inserted := InsertUnlessConflict(articles, rows);
      CommitTable(table, rows);
      raised := false;
    }

    /** The next row's fingerprint is filed. */
    method FileNext(fp: nat)
      requires Valid() && Busy() && work.batch.stage.Indexing?
      requires work.batch.stage.done < |work.batch.rows| && work.batch.rows[work.batch.stage.done].fp == fp
      modifies this`trace, this`states, this`work, lsh
      ensures Valid() && trace == old(trace) + [IndexRow]
      ensures work == Working(old(work).batch.(stage := Indexing(old(work).batch.stage.done + 1)))
    {
      ghost var before := Snapshot();
      IndexStep(Cfg(), before);
      lsh.Index(fp);
      work := Working(work.batch.(stage := Indexing(work.batch.stage.done + 1)));
      Record(before, IndexRow);
    }

    /** `index(r, chash)` for one stored row. */
    method IndexOne(fp: nat) returns (raised: bool)
      requires Valid() && Busy() && work.batch.stage.Indexing?
      requires work.batch.stage.done < |work.batch.rows| && work.batch.rows[work.batch.stage.done].fp == fp
      modifies this`healthy, this`trace, this`states, this`work, lsh
      ensures Valid()
      ensures Paid(old(healthy), healthy, 1, raised)
      ensures raised ==> trace == old(trace) && work == old(work)
      ensures !raised ==>
        && trace == old(trace) + [IndexRow]
        && work == Working(old(work).batch.(stage := Indexing(old(work).batch.stage.done + 1)))
    {
      raised := healthy == 0;
      if !raised {
        healthy := healthy - 1;
        FileNext(fp);
      }
    }

    method IndexRows(rows: seq<Row>) returns (raised: bool)
      requires Valid() && Busy() && work.batch.stage == Indexing(0) && work.batch.rows == rows
      modifies this`healthy, this`trace, this`states, this`work, lsh
      ensures Valid() && old(trace) <= trace && work.Working?
      ensures Paid(old(healthy), healthy, |rows|, raised)
      ensures raised ==> trace <= old(trace) + IndexSteps(|rows|)
      ensures !raised ==>
        && trace == old(trace) + IndexSteps(|rows|)
        && work.batch == old(work).batch.(stage := Indexing(|rows|))
    {
      raised := false;
      for k := 0 to |rows|
        invariant Valid() && trace == old(trace) + IndexSteps(k) && !raised && work.Working?
        invariant work.batch == old(work).batch.(stage := Indexing(k))
        invariant healthy + k == old(healthy)
      {
        raised := IndexOne(rows[k].fp);
        if raised {
          IndexPrefix(k, |rows|);
          PrefixLift(old(trace), IndexSteps(k), IndexSteps(|rows|));
          return;
        }
        Regroup(old(trace), IndexSteps(k), [IndexRow]);
      }
    }

    /** The total, then the per-source pipeline. */
    method CountStored(stored: nat) returns (raised: bool)
      modifies this`healthy, this`storedMetric
      ensures Paid(old(healthy), healthy, CountCalls(stored), raised)
      ensures !raised ==> storedMetric == old(storedMetric) + stored
    {
      if stored > 0 {
        if healthy == 0 {
          return true;
        }
        storedMetric := storedMetric + stored;
        if healthy == 1 {
          healthy := 0;
          return true;
        }
        healthy := healthy - 2;
      }
      raised := false;
    }

    /** Phase 4: write first, index second. */
    method StorePhase(rows: seq<Row>) returns (raised: bool)
      requires Valid() && Busy() && Sifted(work.batch) && work.batch.rows == rows
      modifies this`healthy, this`articles, this`committed, this`storedMetric, this`trace, this`states, this`work, lsh
      ensures Valid() && old(trace) <= trace && work.Working?
      ensures Paid(old(healthy), healthy, StoreCalls(old(articles), rows), raised)
      ensures raised ==>
        && trace <= old(trace) + StoreSteps(|rows|)
        && articles == if old(healthy) == 0 then old(articles) else InsertRows(old(articles), rows)
      ensures !raised ==> trace == old(trace) + StoreSteps(|rows|)
      ensures !raised ==> work.batch == old(work).batch.(stage := work.batch.stage) && ReadyToAck(work.batch)
      ensures !raised ==> storedMetric - old(storedMetric) == |articles| - |old(articles)|
      ensures !raised ==> articles == InsertRows(old(articles), rows)
    {
      raised := false;
      if rows != [] {
        raised := InsertAndIndex(rows);
      }
    }

    method InsertAndIndex(rows: seq<Row>) returns (raised: bool)
      requires Valid() && Busy() && Sifted(work.batch) && work.batch.rows == rows && rows != []
      modifies this`healthy, this`articles, this`committed, this`storedMetric, this`trace, this`states, this`work, lsh
      ensures Valid() && old(trace) <= trace && work.Working?
      ensures Paid(old(healthy), healthy, StoreCalls(old(articles), rows), raised)
      ensures raised ==>
        && trace <= old(trace) + StoreSteps(|rows|)
        && articles == if old(healthy) == 0 then old(articles) else InsertRows(old(articles), rows)
      ensures !raised ==>
        && trace == old(trace) + StoreSteps(|rows|)
        && work.batch == old(work).batch.(stage := Indexing(|rows|))
        && storedMetric - old(storedMetric) == |articles| - |old(articles)|
        && articles == InsertRows(old(articles), rows)
    {
      raised := InsertAndCount(rows);
      if !raised {
        raised := IndexRows(rows);
      }
      Regroup(old(trace), [Commit], IndexSteps(|rows|));
    }

    method InsertAndCount(rows: seq<Row>) returns (raised: bool)
      requires Valid() && Busy() && Sifted(work.batch) && work.batch.rows == rows && rows != []
      modifies this`healthy, this`articles, this`committed, this`storedMetric, this`trace, this`states, this`work
      ensures Valid() && old(trace) <= trace && work.Working?
      ensures Paid(old(healthy), healthy, 1 + CountCalls(|InsertRows(old(articles), rows)| - |old(articles)|), raised)
      ensures raised ==>
        && trace <= old(trace) + [Commit]
        && articles == if old(healthy) == 0 then old(articles) else InsertRows(old(articles), rows)
      ensures !raised ==>
        && trace == old(trace) + [Commit]
        && work.batch == old(work).batch.(stage := Indexing(0))
        && storedMetric - old(storedMetric) == |articles| - |old(articles)|
        && articles == InsertRows(old(articles), rows)
    {
      var stored;
      raised, stored := InsertArticles(rows);
      if !raised {
        raised := CountStored(stored);
      }
    }

    /** The whole batch leaves PENDING. */
    method Acknowledge(ids: seq<nat>)
      requires Valid() && Busy() && ReadyToAck(work.batch) && work.batch.ids == ids
      modifies this`pending, this`acked, this`trace, this`states, this`work
      ensures Valid() && trace == old(trace) + [Ack] && pending == old(pending) - ToSet(ids)
      ensures work == if old(work).batch.drain then Draining else Reading
    {
      ghost var before := Snapshot();
      AckStep(Cfg(), before);
      pending := pending - ToSet(ids);
      acked := acked + work.batch.verdicts;
      work := if work.batch.drain then Draining else Reading;
      Record(before, Ack);
    }

    /** `xack` of the whole batch. */
    method Xack(ids: seq<nat>) returns (raised: bool)
      requires Valid() && Busy() && ReadyToAck(work.batch) && work.batch.ids == ids
      modifies this`healthy, this`pending, this`acked, this`trace, this`states, this`work
      ensures Valid()
      ensures Paid(old(healthy), healthy, 1, raised)
      ensures raised ==> pending == old(pending) && trace == old(trace)
      ensures !raised ==>
        && trace == old(trace) + [Ack] && pending == old(pending) - ToSet(ids)
        && work == (if old(work).batch.drain then Draining else Reading)
    {
      raised := healthy == 0;
      if !raised {
        healthy := healthy - 1;
        Acknowledge(ids);
      }
    }

    /** The rejection metrics, then the XACK. */
    method FinishPhase(ids: seq<nat>, tally: Tally) returns (raised: bool)
      requires Valid() && Busy() && ReadyToAck(work.batch) && work.batch.ids == ids
      modifies this`healthy, this`rejectedMetric, this`pending, this`acked, this`trace, this`states, this`work
      ensures Valid()
      ensures Paid(old(healthy), healthy, FinishCalls(tally), raised)
      ensures raised ==> pending == old(pending) && trace == old(trace)
      ensures !raised ==>
        && trace == old(trace) + [Ack]
        && pending == old(pending) - ToSet(ids)
        && work == (if old(work).batch.drain then Draining else Reading)
        && rejectedMetric == old(rejectedMetric) + |tally.stats|
    {
      if tally.stats != multiset{} {
        if healthy == 0 {
          return true;
        }
        healthy := healthy - 1;
        rejectedMetric := rejectedMetric + |tally.stats|;
      }
      raised := Xack(ids);
    }

    ghost function JobOf(ids: seq<nat>, inline: nat -> Document, fetch: nat -> Reply, push: nat -> Parking): Job
      reads this`stream
    {
      Job(ids, stream, inline, fetch, push, digest, lsh.bits)
    }

    ghost function Ledgers(): Books
      reads this
    {
      Books(healthy, trace, pending, articles, storedMetric, rejectedMetric)
    }

    /** Phases 1 to 3. */
    method SiftPhase(ids: seq<nat>, inline: nat -> Document, fetch: nat -> Reply, push: nat -> Parking)
        returns (raised: bool, tally: Tally, rows: seq<Row>, ghost g: Sieve)
      requires Valid() && up && forall m | m in ids :: m < |stream|
      requires work.Working? && work.batch == StartBatch(ids, stream, work.batch.drain)
      modifies this`dlq, this`dlqSeen, this`dlqMetric, this`healthy, this`seenHashes, this`trace, this`states, this`work
      ensures Valid() && work.Working?
      ensures SiftDone(JobOf(ids, inline, fetch, push), g, tally, rows, raised, old(Ledgers()), Ledgers())
      ensures !raised ==>
        && Busy() && Sifted(work.batch) && work.batch.rows == rows && work.batch.ids == ids
        && work.batch.drain == old(work).batch.drain
    {
      ghost var j, before := JobOf(ids, inline, fetch, push), Ledgers();
      var extracted, docs;
      raised, extracted, docs, tally := LoadPhase(ids, inline, fetch, push);
      if raised {
        return true, tally, [], Sieve([], [], []);
      }
      ghost var between, counted, passed := trace, tally, [];
      DocsFit(stream, extracted, docs, inline, fetch);
      raised, rows, tally, passed := GatePhase(extracted, docs, tally);
      g := Sieve(extracted, docs, passed);
      LoadThenGate(j, g, counted, tally, rows, raised, before, between, Ledgers());
    }

    /** Phases 1 and 2. */
    method LoadPhase(ids: seq<nat>, inline: nat -> Document, fetch: nat -> Reply, push: nat -> Parking)
        returns (raised: bool, extracted: seq<nat>, docs: seq<Document>, tally: Tally)
      requires Valid() && up && forall m | m in ids :: m < |stream|
      requires work.Working? && work.batch == StartBatch(ids, stream, work.batch.drain)
      modifies this`dlq, this`dlqSeen, this`dlqMetric, this`trace, this`states, this`work
      ensures Valid() && (raised <==> !Parses(ids, stream)) && work.Working?
      ensures raised ==> trace == old(trace)
      ensures !raised ==>
        && Loaded(JobOf(ids, inline, fetch, push), extracted, docs, tally, old(trace), trace)
        && work.batch == old(work).batch.(toFetch := [], toGate := extracted, verdicts := work.batch.verdicts)
    {
      extracted, docs, tally := [], [], Tally(multiset{}, multiset{});
      var direct, toFetch;
      raised, direct, toFetch := Parse(ids);
      if !raised {
        SelectedFit(ids, stream);
        extracted, docs, tally := FetchPhase(direct, toFetch, inline, fetch, push);
      }
    }

    /** process_batch. */
    method ProcessBatch(ids: seq<nat>, inline: nat -> Document, fetch: nat -> Reply, push: nat -> Parking)
        returns (raised: bool, tally: Tally, rows: seq<Row>, ghost g: Sieve)
      requires Valid() && up && ids != [] && forall m | m in ids :: m < |stream|
      requires work.Working? && work.batch == StartBatch(ids, stream, work.batch.drain)
      modifies this`dlq, this`dlqSeen, this`dlqMetric, this`healthy, this`seenHashes, this`articles,
               this`committed, this`storedMetric, this`rejectedMetric, this`pending, this`acked,
               this`trace, this`states, this`work, lsh
      ensures Valid()
      ensures BatchDone(JobOf(ids, inline, fetch, push), g, tally, rows, raised, old(Ledgers()), Ledgers())
      ensures !raised ==> work == if old(work).batch.drain then Draining else Reading
    {
      ghost var j, before := JobOf(ids, inline, fetch, push), Ledgers();
      raised, tally, rows, g := SiftPhase(ids, inline, fetch, push);
      ghost var between := Ledgers();
      if raised {
        SiftRaised(j, g, tally, rows, before, between);
      } else {
        raised := StoreAndFinish(ids, tally, rows);
        SiftThenStore(j, g, tally, rows, raised, before, between, Ledgers());
      }
    }

    /** A batch as the loops around it see it. */
    method HandleBatch(ids: seq<nat>, inline: nat -> Document, fetch: nat -> Reply, push: nat -> Parking,
                       ghost o: Oracle)
        returns (raised: bool)
      requires Valid() && up && ids != [] && forall m | m in ids :: m < |stream|
      requires work.Working? && work.batch == StartBatch(ids, stream, work.batch.drain)
      modifies this`dlq, this`dlqSeen, this`dlqMetric, this`healthy, this`seenHashes, this`articles,
               this`committed, this`storedMetric, this`rejectedMetric, this`pending, this`acked,
               this`trace, this`states, this`work, lsh
      ensures Valid() && old(trace) <= trace
      ensures if Parses(ids, stream) then PaidAtMost(old(healthy), healthy, BatchCalls(|ids|), raised) else raised
      ensures pending == if raised then old(pending) else old(pending) - ToSet(ids)
      ensures !raised ==> work == if old(work).batch.drain then Draining else Reading
      ensures Follows(o, inline, fetch, states, trace, |old(trace)|)
    {
      var tally, rows;
      ghost var g;
      raised, tally, rows, g := ProcessBatch(ids, inline, fetch, push);
      if Parses(ids, stream) && Agrees(o, stream, inline, fetch, digest, lsh.bits) {
        ChainDetermined(Cfg(), old(states), old(trace), states, trace, |old(trace)|);
        BatchFollows(Cfg(), o, states, old(trace), trace, ids, old(work).batch.drain, inline, fetch, push,
                     g.docs, digest, lsh.bits, |rows|);
      }
    }

    method StoreAndFinish(ids: seq<nat>, tally: Tally, rows: seq<Row>) returns (raised: bool)
      requires Valid() && Busy() && Sifted(work.batch)
      requires work.batch.rows == rows && work.batch.ids == ids
      modifies this`healthy, this`articles, this`committed, this`storedMetric, this`rejectedMetric,
               this`pending, this`acked, this`trace, this`states, this`work, lsh
      ensures Valid()
      ensures StoreDone(ids, tally, rows, raised, old(Ledgers()), Ledgers())
      ensures !raised ==> work == if old(work).batch.drain then Draining else Reading
    {
      raised := StorePhase(rows);
      if raised {
        PrefixMore(trace, old(trace), StoreSteps(|rows|), [Ack]);
      } else {
        raised := FinishPhase(ids, tally);
        Regroup(old(trace), StoreSteps(|rows|), [Ack]);
      }
    }

    // ---- the loops around process_batch ------------------------------------

    /** The ids read are that many pending entries. */
    static lemma OldestCount(ids: seq<nat>, pending: set<nat>)
      requires OldestPending(ids, pending)
      ensures ToSet(ids) <= pending && |pending - ToSet(ids)| == |pending| - |ids| && |ids| > 0
    {
      DistinctCount(ids);
      assert pending == ToSet(ids) + (pending - ToSet(ids));
    }

    /** What a batch of pending entries costs, with the read before it, and leaves. */
    static lemma BatchDrained(ids: seq<nat>, stream: seq<Payload>, had: set<nat>, now: set<nat>,
                              before: nat, after: nat, raised: bool)
      requires OldestPending(ids, had) && now == if raised then had else had - ToSet(ids)
      requires if Parses(ids, stream) then PaidAtMost(before, after, BatchCalls(|ids|), raised) else raised
      ensures now <= had && forall m | m in had && Poison(stream, m) :: m in now
      ensures raised && Clear(had, stream) ==> after == 0 && before + 1 < 9 * |had|
      ensures !raised ==> |now| < |had| && after <= before + 1 < after + 9 * (|had| - |now|)
    {
      OldestCount(ids, had);
    }

    static lemma SubsetCount(a: set<nat>, b: set<nat>)
      requires a <= b
      ensures |a| <= |b|
    {
      assert b == a + (b - a);
    }

    static lemma {:induction false} DistinctCount(ids: seq<nat>)
      requires forall i, j | 0 <= i < j < |ids| :: ids[i] < ids[j]
      ensures |ToSet(ids)| == |ids|
    {
      if ids != [] {
        var front, last := ids[..|ids| - 1], ids[|ids| - 1];
        DistinctCount(front);
        assert last !in front;
        assert ToSet(ids) == ToSet(front) + {last};
      }
    }

    /** From step n of a run on, every outcome is the oracle's, if the oracle
        agrees with pages and documents. */
    ghost predicate Follows(o: Oracle, inline: nat -> Document, fetch: nat -> Reply,
                            ss: seq<State>, t: seq<Step>, n: nat)
      reads this`stream
    {
      Agrees(o, stream, inline, fetch, digest, lsh.bits) ==> ObeysFrom(o, ss, t, n)
    }

    /** What follows the run t obeys; so the whole obeys from n on, if t did. */
    lemma Then(o: Oracle, inline: nat -> Document, fetch: nat -> Reply, ss: seq<State>, t: seq<Step>, n: nat)
      requires Valid() && Chain(Cfg(), ss, t) && ss[0] == origin && t <= trace
      requires Follows(o, inline, fetch, ss, t, n) && Follows(o, inline, fetch, states, trace, |t|)
      ensures Follows(o, inline, fetch, states, trace, n)
    {
      if Agrees(o, stream, inline, fetch, digest, lsh.bits) {
        FromJoin(Cfg(), o, ss, t, states, trace, n);
      }
    }

    /** What is pending has been delivered. */
    lemma PendingDelivered()
      requires Valid()
      ensures next <= |stream| && forall m | m in pending :: m < next
    {
      InitConserved(origin);
      ChainRuns(Cfg(), states, trace);
      RunConserves(Cfg(), origin, trace);
    }

    /** XREADGROUP of this consumer's own entries: the oldest first. */
    static method Oldest(pending: set<nat>, limit: nat) returns (ids: seq<nat>)
      requires pending != {} && limit > 0
      ensures OldestPending(ids, pending) && |ids| <= limit
    {
      ids := [];
      var rest := pending;
      while rest != {} && |ids| < limit
        invariant |ids| <= limit && (ids == [] ==> rest == pending)
        invariant forall i, j | 0 <= i < j < |ids| :: ids[i] < ids[j]
        invariant forall m :: m in pending <==> m in ids || m in rest
        invariant forall k, m | k in ids && m in rest :: k < m
        decreases rest
      {
        var least := Least(rest);
        forall i | 0 <= i < |ids|
          ensures ids[i] < least
        {
          assert ids[i] in ids;
        }
        ids, rest := ids + [least], rest - {least};
      }
    }

    static method Least(s: set<nat>) returns (least: nat)
      requires s != {}
      ensures least in s && forall m | m in s :: least <= m
    {
      least :| least in s;
      var rest := s - {least};
      while rest != {}
        invariant least in s && rest <= s && forall m | m in s && m !in rest :: least <= m
        decreases rest
      {
        var m :| m in rest;
        if m < least {
          least := m;
        }
        rest := rest - {m};
      }
    }

    /** XREADGROUP "0" of the recovery loop. */
    method ReadOldest(limit: nat) returns (raised: bool, ids: seq<nat>)
      requires Valid() && up && work.Draining? && pending != {} && limit > 0
      modifies this`healthy, this`trace, this`states, this`work
      ensures Valid() && old(trace) <= trace
      ensures Paid(old(healthy), healthy, 1, raised)
      ensures raised ==> trace == old(trace)
      ensures !raised ==>
        && ids != [] && |ids| <= limit && OldestPending(ids, pending) && (forall m | m in ids :: m < |stream|)
        && trace == old(trace) + [ReadPending(ids)]
        && work.Working? && work.batch == StartBatch(ids, stream, true)
    {
      PendingDelivered();
      if healthy == 0 {
        return true, [];
      }
      healthy := healthy - 1;
      ids := Oldest(pending, limit);
      Decide(ReadPending(ids));
      raised := false;
    }

    /** Read the oldest pending entries and process them. */
    method DrainBatch(limit: nat, inline: nat -> Document, fetch: nat -> Reply, push: nat -> Parking,
                      ghost o: Oracle)
        returns (raised: bool)
      requires Valid() && up && work.Draining? && pending != {} && limit > 0
      modifies this`dlq, this`dlqSeen, this`dlqMetric, this`healthy, this`seenHashes, this`articles,
               this`committed, this`storedMetric, this`rejectedMetric, this`pending, this`acked,
               this`trace, this`states, this`work, lsh
      ensures Valid() && old(trace) <= trace && pending <= old(pending)
      ensures raised && Clear(old(pending), stream) ==> healthy == 0 && old(healthy) < 9 * |old(pending)|
      ensures forall m | m in old(pending) && Poison(stream, m) :: m in pending
      ensures !raised ==>
        && work.Draining? && |pending| < |old(pending)|
        && healthy <= old(healthy) < healthy + 9 * (|old(pending)| - |pending|)
      ensures Follows(o, inline, fetch, states, trace, |old(trace)|)
    {
      var ids;
      raised, ids := ReadOldest(limit);
      if raised {
        return;
      }
      FromUndecisive(o, states, old(trace), [ReadPending(ids)]);
      ghost var ss, t, had, before := states, trace, pending, healthy;
      raised := HandleBatch(ids, inline, fetch, push, o);
      BatchDrained(ids, stream, had, pending, before, healthy, raised);
      Then(o, inline, fetch, ss, t, |old(trace)|);
    }

    /** One turn of the recovery loop: look at PENDING, and drain a batch of it. */
    method DrainTurn(limit: nat, inline: nat -> Document, fetch: nat -> Reply, push: nat -> Parking,
                     ghost o: Oracle) returns (raised: bool, done: bool)
      requires Valid() && up && work.Draining? && limit > 0
      modifies this`dlq, this`dlqSeen, this`dlqMetric, this`healthy, this`seenHashes, this`articles,
               this`committed, this`storedMetric, this`rejectedMetric, this`pending, this`acked,
               this`trace, this`states, this`work, lsh
      ensures Valid() && old(trace) <= trace && pending <= old(pending)
      ensures raised && Clear(old(pending), stream) ==> healthy == 0 && old(healthy) < DrainCalls(|old(pending)|)
      ensures !Clear(old(pending), stream) ==> !Clear(pending, stream)
      ensures !raised ==>
        && work.Draining? && (done <==> old(pending) == {})
        && if done then pending == {} && old(healthy) == healthy + 1
           else |pending| < |old(pending)| && healthy <= old(healthy) <= healthy + 9 * (|old(pending)| - |pending|)
      ensures Follows(o, inline, fetch, states, trace, |old(trace)|)
    {
      raised, done := healthy == 0, false;
      if !raised {
        healthy := healthy - 1;
        if pending == {} {
          done := true;
        } else {
          raised := DrainBatch(limit, inline, fetch, push, o);
        }
      }
    }

    /** recover_pending: terminates. If some pending entry is not an object it
        raises, and the entry stays pending; otherwise it leaves nothing in PENDING
        unless the calls run out. */
    method RecoverPending(limit: nat, inline: nat -> Document, fetch: nat -> Reply, push: nat -> Parking,
                          ghost o: Oracle) returns (raised: bool)
      requires Valid() && up && work.Draining? && limit > 0
      modifies this`dlq, this`dlqSeen, this`dlqMetric, this`healthy, this`seenHashes, this`articles,
               this`committed, this`storedMetric, this`rejectedMetric, this`pending, this`acked,
               this`trace, this`states, this`work, lsh
      ensures Valid() && old(trace) <= trace && pending <= old(pending)
      ensures Clear(old(pending), stream) ==> PaidAtMost(old(healthy), healthy, DrainCalls(|old(pending)|), raised)
      ensures !Clear(old(pending), stream) ==> raised && !Clear(pending, stream)
      ensures !raised ==> work.Draining? && pending == {}
      ensures Follows(o, inline, fetch, states, trace, |old(trace)|)
    {
      var done := false;
      raised := false;
      ghost var had := pending;
      while !done
        invariant Valid() && old(trace) <= trace && work.Draining? && pending <= had
        invariant (done ==> pending == {}) && |pending| <= |had|
        invariant healthy <= old(healthy) <= healthy + 9 * (|had| - |pending|) + if done then 1 else 0
        invariant Follows(o, inline, fetch, states, trace, |old(trace)|)
        invariant !Clear(had, stream) ==> !Clear(pending, stream)
        decreases |pending|, !done
      {
        ghost var ss, t := states, trace;
        raised, done := DrainTurn(limit, inline, fetch, push, o);
        Then(o, inline, fetch, ss, t, |old(trace)|);
        if raised {
          return;
        }
      }
    }

    /** main catches an exception: same deque, back to the recovery loop. */
    method Catch(calls: nat)
      requires Valid() && up && !boot
      modifies this`healthy, this`trace, this`states, this`work, this`retries
      ensures Valid() && trace == old(trace) + [Raise] && work.Draining? && healthy == calls
      ensures retries == old(retries) + {old(Snapshot())}
    {
      healthy := calls;
      ghost var before := Snapshot();
      CaughtWider(states, trace, retries, retries + {before});
      retries := retries + {before};
      work := Draining;
      Record(before, Raise);
    }

    /** PENDING is drained: back to the serving loop. */
    ghost method Resume()
      requires Valid() && up && !boot && work.Draining? && pending == {}
      modifies this`trace, this`states, this`work
      ensures Valid() && trace == old(trace) + [DrainDone] && work.Reading?
    {
      Decide(DrainDone);
    }

    method CatchAndRecover(calls: nat, limit: nat, inline: nat -> Document, fetch: nat -> Reply,
                           push: nat -> Parking, ghost o: Oracle) returns (recovered: bool)
      requires Valid() && up && !boot && limit > 0
      modifies this`dlq, this`dlqSeen, this`dlqMetric, this`healthy, this`seenHashes, this`articles,
               this`committed, this`storedMetric, this`rejectedMetric, this`pending, this`acked,
               this`trace, this`states, this`work, this`retries, lsh
      ensures Valid() && old(trace) <= trace && pending <= old(pending)
      ensures Clear(old(pending), stream) ==> PaidAtMost(calls, healthy, DrainCalls(|old(pending)|), !recovered)
      ensures !Clear(old(pending), stream) ==> !recovered && !Clear(pending, stream)
      ensures recovered ==> work.Reading? && pending == {}
      ensures Follows(o, inline, fetch, states, trace, |old(trace)|)
    {
      Catch(calls);
      FromUndecisive(o, states, old(trace), [Raise]);
      ghost var ss, t := states, trace;
      var raised := RecoverPending(limit, inline, fetch, push, o);
      Then(o, inline, fetch, ss, t, |old(trace)|);
      recovered := !raised;
      if recovered {
        ss, t := states, trace;
        Resume();
        FromUndecisive(o, states, t, [DrainDone]);
        Then(o, inline, fetch, ss, t, |old(trace)|);
      }
    }

    /** One more attempt in a run that has followed pages and documents from step n. */
    method RetryOnce(calls: nat, limit: nat, inline: nat -> Document, fetch: nat -> Reply, push: nat -> Parking,
                     ghost o: Oracle, ghost n: nat, ghost had: set<nat>) returns (recovered: bool)
      requires Valid() && up && !boot && limit > 0
      requires Follows(o, inline, fetch, states, trace, n) && pending <= had
      modifies this`dlq, this`dlqSeen, this`dlqMetric, this`healthy, this`seenHashes, this`articles,
               this`committed, this`storedMetric, this`rejectedMetric, this`pending, this`acked,
               this`trace, this`states, this`work, this`retries, lsh
      ensures Valid() && old(trace) <= trace && pending <= had && (recovered ==> work.Reading? && pending == {})
      ensures Follows(o, inline, fetch, states, trace, n)
      ensures Clear(had, stream) && !recovered ==> calls < DrainCalls(|had|)
      ensures !Clear(old(pending), stream) ==> !recovered && !Clear(pending, stream)
    {
      ghost var ss, t := states, trace;
      SubsetCount(pending, had);
      recovered := CatchAndRecover(calls, limit, inline, fetch, push, o);
      Then(o, inline, fetch, ss, t, n);
    }

    /** None of the first k attempts may make enough calls to drain `pending`, if it
        can be drained. */
    ghost predicate TooFew(attempts: seq<nat>, k: nat, pending: set<nat>)
      requires k <= |attempts|
      reads this`stream
    {
      k == 0
      || (&& TooFew(attempts, k - 1, pending)
          && (Clear(pending, stream) ==> attempts[k - 1] < DrainCalls(|pending|)))
    }

    /** The reconnection loop: a failed attempt raises again; `attempts` says how
        many calls each attempt may make. */
    method Reconnect(attempts: seq<nat>, limit: nat, inline: nat -> Document, fetch: nat -> Reply,
                     push: nat -> Parking, ghost o: Oracle) returns (recovered: bool)
      requires Valid() && up && !boot && limit > 0
      modifies this`dlq, this`dlqSeen, this`dlqMetric, this`healthy, this`seenHashes, this`articles,
               this`committed, this`storedMetric, this`rejectedMetric, this`pending, this`acked,
               this`trace, this`states, this`work, this`retries, lsh
      ensures Valid() && old(trace) <= trace && pending <= old(pending)
      ensures recovered ==> work.Reading? && pending == {}
      ensures Follows(o, inline, fetch, states, trace, |old(trace)|)
      ensures !recovered ==> TooFew(attempts, |attempts|, old(pending))
      ensures !Clear(old(pending), stream) ==> !recovered && !Clear(pending, stream)
    {
      recovered := false;
      ghost var had := pending;
      for k := 0 to |attempts|
        invariant Valid() && old(trace) <= trace && pending <= had && !recovered
        invariant Follows(o, inline, fetch, states, trace, |old(trace)|)
        invariant TooFew(attempts, k, had)
        invariant !Clear(had, stream) ==> !Clear(pending, stream)
      {
        recovered := RetryOnce(attempts[k], limit, inline, fetch, push, o, |old(trace)|, had);
        if recovered {
          break;
        }
      }
    }

    /** A producer, or a replay from the dead-letter stream, adds an entry. */
    method XAdd(payload: Payload)
      requires Valid()
      modifies this`stream, this`trace, this`states
      ensures Valid() && stream == old(stream) + [payload] && trace == old(trace) + [Step.XAdd(payload)]
    {
      ghost var before := Snapshot();
      stream := stream + [payload];
      Record(before, Step.XAdd(payload));
    }

    /** The theorem about runs, for this object: as long as every in-process
        retry was safe, whatever it acknowledged is backed by committed rows. */
    lemma AcknowledgedAreBacked()
      requires Valid() && CanRun(Cfg(), origin, trace) && SafeRetries(Cfg(), origin, trace)
      ensures Conserved(Snapshot()) && NoLoss(Cfg(), Snapshot())
    {
      ChainRuns(Cfg(), states, trace);
      InitConserved(origin);
      InitNoLoss(Cfg(), origin);
      RunNoLoss(Cfg(), origin, trace);
    }

    /** The process is killed; nothing durable changes. */
    method Kill()
      requires Valid()
      modifies this`up, this`trace, this`states
      ensures Valid() && !up && trace == old(trace) + [Crash]
    {
      ghost var before := Snapshot();
      up := false;
      Record(before, Crash);
    }

    /** warm_from_db inside main: the sentinel is set only when every stored row
        has been filed. `rows` is the cursor's order, `failAt` where it raises. */
    method Warm(rows: seq<Option<nat>>, failAt: nat, ghost o: Oracle) returns (raised: bool)
      requires Valid() && up && work == Warming(Hashes(rows)) && !lsh.warmed
      modifies this`healthy, this`trace, this`states, this`work, lsh
      ensures Valid() && old(trace) <= trace && ObeysFrom(o, states, trace, |old(trace)|)
      ensures raised <==> failAt < |rows| || old(healthy) < WarmCalls(rows)
      ensures raised && failAt >= |rows| ==> healthy == 0
      ensures !raised ==> healthy == old(healthy) - WarmCalls(rows) && work.Draining? && lsh.warmed
    {
      ghost var before := Snapshot();
      var ok;
      ok, healthy := lsh.WarmFromDb(rows, failAt, healthy);
      raised := !ok;
      ghost var filed := lsh.contents * Hashes(rows);
      assert before.index + filed == lsh.contents;
      ghost var steps := WarmRun(Cfg(), before, filed, ok);
      work := if ok then Draining else Warming(Hashes(rows) - filed);
      RecordAll(before, steps);
      FromUndecisive(o, states, old(trace), steps);
    }

    /** A new process: an empty deque, warming if the sentinel is missing. */
    method LaunchProcess(rows: seq<Option<nat>>)
      requires Valid() && !up && Hashes(rows) == StoredHashes(articles)
      modifies this`up, this`boot, this`seenHashes, this`trace, this`states, this`work
      ensures Valid() && trace == old(trace) + [Boot] && up && boot && seenHashes == []
      ensures work == if lsh.warmed then Draining else Warming(Hashes(rows))
    {
      ghost var before := Snapshot();
      up, boot, seenHashes := true, true, [];
      work := if lsh.warmed then Draining else Warming(Hashes(rows));
      Record(before, Boot);
    }

    /** The end of main's start-up. */
    method BeginServing()
      requires Valid() && up && work.Draining? && pending == {}
      modifies this`boot, this`trace, this`states, this`work
      ensures Valid() && trace == old(trace) + [DrainDone] && !boot && work.Reading?
    {
      ghost var before := Snapshot();
      boot := false;
      work := Reading;
      Record(before, DrainDone);
    }

    /** A new process with a warm index, unless the look at the sentinel or the
        warming raises. */
    method Prepare(rows: seq<Option<nat>>, failAt: nat, calls: nat, ghost o: Oracle) returns (raised: bool)
      requires Valid() && !up && Hashes(rows) == StoredHashes(articles)
      modifies this`up, this`boot, this`seenHashes, this`healthy, this`trace, this`states, this`work, lsh
      ensures Valid() && old(trace) <= trace && up && boot && seenHashes == []
      ensures ObeysFrom(o, states, trace, |old(trace)|)
      ensures raised <==> calls < StartCalls(old(lsh.warmed), rows) || (!old(lsh.warmed) && failAt < |rows|)
      ensures !raised ==>
        work.Draining? && lsh.warmed && healthy == calls - StartCalls(old(lsh.warmed), rows)
    {
      LaunchProcess(rows);
      FromUndecisive(o, states, old(trace), [Boot]);
      healthy := calls;
      if healthy == 0 {
        return true;
      }
      healthy := healthy - 1;
      raised := false;
      if !lsh.warmed {
        ghost var ss, t := states, trace;
        raised := Warm(rows, failAt, o);
        FromJoin(Cfg(), o, ss, t, states, trace, |old(trace)|);
      }
    }

    /** The look at the sentinel, and the warming if it is missing. */
    static function StartCalls(warmed: bool, rows: seq<Option<nat>>): nat {
      1 + if warmed then 0 else WarmCalls(rows)
    }

    /** main up to its serving loop: warm up, then drain PENDING. An exception
        here ends the process. */
    method Start(rows: seq<Option<nat>>, failAt: nat, calls: nat, limit: nat, inline: nat -> Document,
                 fetch: nat -> Reply, push: nat -> Parking, ghost o: Oracle) returns (serving: bool)
      requires Valid() && !up && limit > 0 && Hashes(rows) == StoredHashes(articles)
      modifies this`up, this`boot, this`seenHashes, this`healthy, this`dlq, this`dlqSeen, this`dlqMetric,
               this`articles, this`committed, this`storedMetric, this`rejectedMetric, this`pending, this`acked,
               this`trace, this`states, this`work, lsh
      ensures Valid() && serving == up && old(trace) <= trace && pending <= old(pending)
      ensures serving ==> old(lsh.warmed) || failAt >= |rows|
      ensures
        && Clear(old(pending), stream) && (old(lsh.warmed) || failAt >= |rows|)
        && calls >= StartCalls(old(lsh.warmed), rows) + DrainCalls(|old(pending)|)
        ==> serving
      ensures !Clear(old(pending), stream) ==> !serving
      ensures serving ==> !boot && work.Reading? && pending == {}
      ensures Follows(o, inline, fetch, states, trace, |old(trace)|)
    {
      var raised := Prepare(rows, failAt, calls, o);
      ghost var ss, t := states, trace;
      if raised {
        Kill();
        FromUndecisive(o, states, t, [Crash]);
        serving := false;
      } else {
        serving := FirstDrain(limit, inline, fetch, push, o);
      }
      Then(o, inline, fetch, ss, t, |old(trace)|);
    }

    /** The drain of start-up ends in the serving loop or with the process. */
    method FirstDrain(limit: nat, inline: nat -> Document, fetch: nat -> Reply, push: nat -> Parking,
                      ghost o: Oracle) returns (serving: bool)
      requires Valid() && up && work.Draining? && limit > 0
      modifies this`up, this`boot, this`seenHashes, this`healthy, this`dlq, this`dlqSeen, this`dlqMetric,
               this`articles, this`committed, this`storedMetric, this`rejectedMetric, this`pending, this`acked,
               this`trace, this`states, this`work, lsh
      ensures Valid() && serving == up && old(trace) <= trace && pending <= old(pending)
      ensures Clear(old(pending), stream) && old(healthy) >= DrainCalls(|old(pending)|) ==> serving
      ensures !Clear(old(pending), stream) ==> !serving
      ensures serving ==> !boot && work.Reading? && pending == {}
      ensures Follows(o, inline, fetch, states, trace, |old(trace)|)
    {
      var raised := RecoverPending(limit, inline, fetch, push, o);
      ghost var ss, t := states, trace;
      serving := !raised;
      Settle(serving, o);
      Then(o, inline, fetch, ss, t, |old(trace)|);
    }

    /** Start-up ends in the serving loop or with the process. */
    method Settle(serving: bool, ghost o: Oracle)
      requires Valid() && up && (serving ==> work.Draining? && pending == {})
      modifies this`up, this`boot, this`trace, this`states, this`work
      ensures Valid() && up == serving && old(trace) <= trace && ObeysFrom(o, states, trace, |old(trace)|)
      ensures serving ==> !boot && work.Reading?
    {
      if serving {
        BeginServing();
        FromUndecisive(o, states, old(trace), [DrainDone]);
      } else {
        Kill();
        FromUndecisive(o, states, old(trace), [Crash]);
      }
    }

    /** The next entries of the stream become pending. */
    method Deliver(count: nat, ids: seq<nat>)
      requires Valid() && up && work.Reading? && count > 0 && next + count <= |stream| && ids == Range(next, count)
      modifies this`next, this`pending, this`trace, this`states, this`work
      ensures Valid() && trace == old(trace) + [ReadNew(count)] && next == old(next) + count
      ensures work == Working(StartBatch(ids, stream, false)) && pending == old(pending) + ToSet(ids)
    {
      ghost var before := Snapshot();
      next := next + count;
      pending := pending + ToSet(ids);
      work := Working(StartBatch(ids, stream, false));
      Record(before, ReadNew(count));
    }

    /** XREADGROUP ">": at most `limit` new entries, which become pending. */
    method ReadFresh(limit: nat) returns (raised: bool, ids: seq<nat>)
      requires Valid() && up && work.Reading? && limit > 0
      modifies this`healthy, this`next, this`pending, this`trace, this`states, this`work
      ensures Valid() && old(pending) <= pending
      ensures trace == old(trace) + if ids == [] then [] else [ReadNew(|ids|)]
      ensures Paid(old(healthy), healthy, 1, raised)
      ensures old(next) <= |stream| && next == old(next) + |ids|
      ensures ids == Range(old(next), |ids|) && |ids| <= limit
      ensures if raised then ids == [] else |ids| == limit || next == |stream|
      ensures !raised && ids != [] ==>
        && work.Working? && work.batch == StartBatch(ids, stream, false)
        && pending == old(pending) + ToSet(ids) && old(pending) !! ToSet(ids)
        && forall m | m in ids :: old(next) <= m < next <= |stream|
      ensures raised || ids == [] ==> work.Reading? && pending == old(pending)
    {
      PendingDelivered();
      if healthy == 0 {
        return true, [];
      }
      healthy := healthy - 1;
      var waiting := |stream| - next;
      var count := if waiting < limit then waiting else limit;
      raised, ids := false, Range(next, count);
      if count > 0 {
        Deliver(count, ids);
      }
    }

    /** One turn of main's serving loop; `ids` are the entries it takes. */
    method Serve(limit: nat, inline: nat -> Document, fetch: nat -> Reply, push: nat -> Parking,
                 ghost o: Oracle) returns (raised: bool, ghost ids: seq<nat>)
      requires Valid() && up && work.Reading? && limit > 0
      modifies this`next, this`seenHashes, this`healthy, this`dlq, this`dlqSeen, this`dlqMetric,
               this`articles, this`committed, this`storedMetric, this`rejectedMetric, this`pending, this`acked,
               this`trace, this`states, this`work, lsh
      ensures Valid() && old(trace) <= trace
      ensures Follows(o, inline, fetch, states, trace, |old(trace)|)
      ensures old(next) <= |stream| && ids == Range(old(next), |ids|) && |ids| <= limit && next == old(next) + |ids|
      ensures if Parses(ids, stream) then PaidAtMost(old(healthy), healthy, 1 + BatchCalls(|ids|), raised) else raised
      ensures raised ==> old(pending) <= pending
      ensures !raised ==> work.Reading? && pending == old(pending) && (|ids| == limit || next == |stream|)
    {
      var taken;
      raised, taken := ReadFresh(limit);
      ids := taken;
      ghost var ss, t := states, trace;
      FromUndecisive(o, states, old(trace), if ids == [] then [] else [ReadNew(|ids|)]);
      if !raised && taken != [] {
        raised := HandleBatch(taken, inline, fetch, push, o);
        AddAndRemove(old(pending), ids);
        Then(o, inline, fetch, ss, t, |old(trace)|);
      }
    }

    /** Some turns of it. With enough of them everything that waits is taken, as
        long as none raises. */
    method ServeTurns(turns: nat, limit: nat, inline: nat -> Document, fetch: nat -> Reply, push: nat -> Parking,
                      ghost o: Oracle) returns (raised: bool)
      requires Valid() && up && work.Reading? && limit > 0
      modifies this`next, this`seenHashes, this`healthy, this`dlq, this`dlqSeen, this`dlqMetric,
               this`articles, this`committed, this`storedMetric, this`rejectedMetric, this`pending, this`acked,
               this`trace, this`states, this`work, lsh
      ensures Valid() && old(trace) <= trace
      ensures Follows(o, inline, fetch, states, trace, |old(trace)|)
      ensures !raised ==> work.Reading? && pending == old(pending)
      ensures !raised ==> next <= |stream| && (next == |stream| || next == old(next) + turns * limit)
      ensures !raised && turns * limit >= |stream| - old(next) ==> next == |stream|
    {
      raised := false;
      PendingDelivered();
      for k := 0 to turns
        invariant Valid() && old(trace) <= trace && !raised && work.Reading? && pending == old(pending)
        invariant Follows(o, inline, fetch, states, trace, |old(trace)|)
        invariant next <= |stream| && (next == |stream| || next == old(next) + k * limit)
      {
        ghost var ss, t := states, trace;
        ghost var ids;
        raised, ids := Serve(limit, inline, fetch, push, o);
        Then(o, inline, fetch, ss, t, |old(trace)|);
        if raised {
          return;
        }
        OneMoreTurn(k, limit);
        PendingDelivered();
      }
    }

    static lemma OneMoreTurn(k: nat, limit: nat)
      ensures (k + 1) * limit == k * limit + limit
    {}

    static lemma AddAndRemove(pending: set<nat>, ids: seq<nat>)
      requires pending !! ToSet(ids)
      ensures pending + ToSet(ids) - ToSet(ids) == pending
    {}
  }
}
