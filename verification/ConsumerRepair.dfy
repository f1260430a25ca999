/** The theorems about runs for the consumer of `Processor` over a whole history:
    processes that start, serve, meet exceptions, reconnect and die while entries
    arrive. With fixed pages and documents every delivery of an entry has the same
    outcome, so stored rows get indexed. */
module ConsumerRepair {
  import opened Wrappers
  import opened NearDup
  import opened Delivery
  import opened DeliverySafety
  import opened DeliveryReplay
  import opened DeliveryLoss
  import opened DeliveryRepair
  import opened BatchPlan
  import opened BatchOutcome
  import opened Processor

  // ---- from the exceptions caught to the run ------------------------------------------

  /** Every exception that main caught was safe for the index. */
  ghost predicate ReindexingSafe(con: Consumer)
    reads con
  {
    forall s | s in con.retries :: SafeToReindex(con.Cfg(), s)
  }

  /** Every exception that main caught was safe to retry. */
  ghost predicate RetryingSafe(con: Consumer)
    reads con
  {
    forall s | s in con.retries :: SafeToRetry(con.Cfg(), s)
  }

  lemma CaughtSuffix(states: seq<State>, steps: seq<Step>, retries: set<State>)
    requires Caught(states, steps, retries) && |states| == |steps| + 1 && steps != []
    ensures (steps[0].Raise? ==> states[0] in retries) && Caught(states[1..], steps[1..], retries)
  {
    assert CaughtAt(states, steps, 0, retries);
    forall i: nat | i < |steps| - 1
      ensures CaughtAt(states[1..], steps[1..], i, retries)
    {
      assert CaughtAt(states, steps, i + 1, retries);
    }
  }

  lemma {:induction false} CaughtReindexes(c: Config, states: seq<State>, steps: seq<Step>, retries: set<State>)
    requires Chain(c, states, steps) && Caught(states, steps, retries)
    requires forall s | s in retries :: SafeToReindex(c, s)
    ensures CanRun(c, states[0], steps) && RaisesSafe(c, states[0], steps)
    decreases |steps|
  {
    if steps != [] {
      assert Linked(c, states, steps, 0);
      CaughtSuffix(states, steps, retries);
      ChainSuffix(c, states, steps, 1);
      CaughtReindexes(c, states[1..], steps[1..], retries);
    }
  }

  lemma {:induction false} CaughtRetries(c: Config, states: seq<State>, steps: seq<Step>, retries: set<State>)
    requires Chain(c, states, steps) && Caught(states, steps, retries)
    requires forall s | s in retries :: SafeToRetry(c, s)
    ensures CanRun(c, states[0], steps) && SafeRetries(c, states[0], steps)
    decreases |steps|
  {
    if steps != [] {
      assert Linked(c, states, steps, 0);
      CaughtSuffix(states, steps, retries);
      ChainSuffix(c, states, steps, 1);
      CaughtRetries(c, states[1..], steps[1..], retries);
    }
  }

  // ---- the theorems ---------------------------------------------------------------------

  /** Every stored row is near the index or its message is pending, and while the
      process waits for new entries the index is complete. */
  ghost predicate Repaired(con: Consumer, o: Oracle)
    reads con, con.lsh
  {
    && RowsRepairable(con.Cfg(), o, con.Snapshot())
    && (con.up && con.work.Reading? ==>
          forall u | u in con.articles && con.articles[u].Some? ::
            Near(con.lsh.contents, con.articles[u].value, con.lsh.threshold))
  }

  /** The repair theorem for the consumer: its outcomes have been an oracle's. */
  lemma ConsumerIsRepaired(con: Consumer, o: Oracle)
    requires con.Valid() && ReindexingSafe(con) && ObeysFrom(o, con.states, con.trace, 0)
    ensures Repaired(con, o)
  {
    var c := con.Cfg();
    ChainRuns(c, con.states, con.trace);
    FromStart(c, o, con.states, con.trace);
    CaughtReindexes(c, con.states, con.trace, con.retries);
    RestartExactly(c, o, con.origin, con.trace);
    InitConserved(con.origin);
    InitRepairable(c, o, con.origin);
    RunRepairs(c, o, con.origin, con.trace);
    if con.up && con.work.Reading? {
      IdleIndexIsComplete(c, o, con.origin, con.trace);
    }
  }

  /** The no-loss theorem for the consumer, which asks nothing of the outcomes. */
  lemma ConsumerLosesNothing(con: Consumer)
    requires con.Valid() && RetryingSafe(con)
    ensures Conserved(con.Snapshot()) && NoLoss(con.Cfg(), con.Snapshot())
  {
    var c := con.Cfg();
    ChainRuns(c, con.states, con.trace);
    CaughtRetries(c, con.states, con.trace, con.retries);
    con.AcknowledgedAreBacked();
  }

  // ---- whole histories --------------------------------------------------------------------

  /** What can happen next to a consumer. `calls` says how many Redis and Postgres
      calls succeed from there on, `failAt` where the warm-up's cursor raises. */
  datatype Event =
    | Post(payload: Payload)
    | Launch(calls: nat, failAt: nat) // a new process, unless there is one
    | Turn                            // of the serving loop
    | Retry(calls: nat)               // of the reconnection loop
    | Die

  /** The rows of the warm-up's query, in some order. */
  method Cursor(articles: map<nat, Option<nat>>) returns (rows: seq<Option<nat>>)
    ensures Hashes(rows) == StoredHashes(articles)
  {
    rows := [];
    var rest := articles.Keys;
    while rest != {}
      invariant rest <= articles.Keys
      invariant forall x :: x in rows <==> exists u | u in articles && u !in rest :: articles[u] == x
      decreases rest
    {
      var u :| u in rest;
      rows, rest := rows + [articles[u]], rest - {u};
    }
    HashesOfAll(articles, rows);
  }

  lemma HashesOfAll(articles: map<nat, Option<nat>>, rows: seq<Option<nat>>)
    requires forall x :: x in rows <==> exists u | u in articles :: articles[u] == x
    ensures Hashes(rows) == StoredHashes(articles)
  {
    forall h | h in Hashes(rows)
      ensures h in StoredHashes(articles)
    {
      var r :| r in rows && r.Some? && r.value == h;
      var u :| u in articles && articles[u] == r;
    }
    forall h | h in StoredHashes(articles)
      ensures h in Hashes(rows)
    {
      var u :| u in articles && articles[u].Some? && articles[u].value == h;
      assert articles[u] in rows;
    }
  }

  /** Where the process is between two events: in its serving loop, unless it
      has lost its connections. */
  ghost predicate Between(con: Consumer, lost: bool)
    reads con, con.lsh
  {
    con.Valid() && (con.up ==> !con.boot && (lost || con.work.Reading?))
  }

  /** A new process warms up from the table as it stands. */
  method LaunchProcess(con: Consumer, calls: nat, failAt: nat, limit: nat, inline: nat -> Document,
                       fetch: nat -> Reply, push: nat -> Parking, ghost o: Oracle)
    requires con.Valid() && !con.up && limit > 0
    modifies con, con.lsh
    ensures Between(con, false) && con.origin == old(con.origin)
    ensures old(con.trace) <= con.trace && con.stream == old(con.stream) && con.retries == old(con.retries)
    ensures con.Follows(o, inline, fetch, con.states, con.trace, |old(con.trace)|)
  {
    var rows := Cursor(con.articles);
    var serving := con.Start(rows, failAt, calls, limit, inline, fetch, push, o);
  }

  /** One event. */
  method Happen(con: Consumer, e: Event, lost: bool, limit: nat, inline: nat -> Document, fetch: nat -> Reply,
                push: nat -> Parking, ghost o: Oracle) returns (lost': bool)
    requires Between(con, lost) && limit > 0
    modifies con, con.lsh
    ensures Between(con, lost') && con.origin == old(con.origin)
    ensures old(con.trace) <= con.trace && old(con.stream) <= con.stream
    ensures !e.Retry? ==> con.retries == old(con.retries)
    ensures con.Follows(o, inline, fetch, con.states, con.trace, |old(con.trace)|)
  {
    lost' := lost;
    match e
    case Post(payload) =>
      con.XAdd(payload);
      FromUndecisive(o, con.states, old(con.trace), [Step.XAdd(payload)]);
    case Launch(calls, failAt) =>
      if !con.up {
        LaunchProcess(con, calls, failAt, limit, inline, fetch, push, o);
        lost' := false;
      }
    case Turn =>
      if con.up && !lost {
        ghost var ids;
        lost', ids := con.Serve(limit, inline, fetch, push, o);
      }
    case Retry(calls) =>
      if con.up && lost {
        var recovered := con.CatchAndRecover(calls, limit, inline, fetch, push, o);
        lost' := !recovered;
      }
    case Die =>
      con.Kill();
      FromUndecisive(o, con.states, old(con.trace), [Crash]);
  }

  /** What followed pages and documents still does after entries have arrived. */
  lemma StillFollows(con: Consumer, o: Oracle, inline: nat -> Document, fetch: nat -> Reply, before: seq<Payload>,
                     ss: seq<State>, t: seq<Step>)
    requires before <= con.stream
    requires Agrees(o, before, inline, fetch, con.digest, con.lsh.bits) ==> ObeysFrom(o, ss, t, 0)
    ensures con.Follows(o, inline, fetch, ss, t, 0)
  {
    if Agrees(o, con.stream, inline, fetch, con.digest, con.lsh.bits) {
      AgreesEarlier(o, before, con.stream, inline, fetch, con.digest, con.lsh.bits);
    }
  }

  /** A consumer lives through any history of events. Nothing it acknowledges is
      lost, and its index is repaired, as long as the exceptions that main caught
      were safe; if it caught none, without any condition. */
  method Live(con: Consumer, events: seq<Event>, limit: nat, inline: nat -> Document, fetch: nat -> Reply,
              push: nat -> Parking, ghost o: Oracle)
    requires con.Valid() && !con.up && con.trace == [] && con.retries == {} && limit > 0
    modifies con, con.lsh
    ensures con.Valid()
    ensures con.Follows(o, inline, fetch, con.states, con.trace, 0)
    ensures (forall e | e in events :: !e.Retry?) ==> con.retries == {}
    ensures RetryingSafe(con) ==> NoLoss(con.Cfg(), con.Snapshot())
    ensures Agrees(o, con.stream, inline, fetch, con.digest, con.lsh.bits) && ReindexingSafe(con) ==> Repaired(con, o)
  {
    var lost := false;
    for k := 0 to |events|
      invariant Between(con, lost) && con.Follows(o, inline, fetch, con.states, con.trace, 0)
      invariant (forall e | e in events[..k] :: !e.Retry?) ==> con.retries == {}
    {
      assert events[..k + 1] == events[..k] + [events[k]];
      ghost var before, ss, t := con.stream, con.states, con.trace;
      lost := Happen(con, events[k], lost, limit, inline, fetch, push, o);
      StillFollows(con, o, inline, fetch, before, ss, t);
      con.Then(o, inline, fetch, ss, t, 0);
    }
    assert events[..|events|] == events;
    if RetryingSafe(con) {
      ConsumerLosesNothing(con);
    }
    if Agrees(o, con.stream, inline, fetch, con.digest, con.lsh.bits) && ReindexingSafe(con) {
      ConsumerIsRepaired(con, o);
    }
  }
}
