/** go-crawler/internal/scheduler/scheduler.go: `Run` as the interleaving of the
    launcher, the page workers and the closer over two channels. A step is one
    blocking operation of one goroutine; an operation that would block is a step
    that is not enabled. */
module Scheduler {
  import opened Wrappers

  datatype PageResult = PageResult(page: nat, empty: bool, failed: bool, published: nat, pubErrs: nat)

  /** maxPages 0 means no limit. */
  datatype Config = Config(concurrency: nat, maxPages: nat, maxPageFailures: nat) {
    predicate Ok() {
      concurrency > 0 && maxPageFailures > 0
    }
  }

  /** The defaults that `New` fills in. */
  function New(concurrency: int, maxPages: int, maxPageFailures: int): (c: Config)
    ensures c.Ok()
    ensures c.concurrency == concurrency || (concurrency <= 0 && c.concurrency == 8)
    ensures c.maxPageFailures == maxPageFailures || (maxPageFailures <= 0 && c.maxPageFailures == 3)
    ensures c.maxPages == maxPages || (maxPages <= 0 && c.maxPages == 0)
  {
    Config(if concurrency <= 0 then 8 else concurrency,
           if maxPages <= 0 then 0 else maxPages,
           if maxPageFailures <= 0 then 3 else maxPageFailures)
  }

  /** The run-level counters that `absorb` keeps. */
  datatype Totals = Totals(pages: nat, published: nat, pubErrs: nat, failedPages: nat) {
    function Absorb(r: PageResult): Totals {
      Totals(pages + 1, published + r.published, pubErrs + r.pubErrs,
             failedPages + if r.failed then 1 else 0)
    }
  }

  function SumUp(rs: seq<PageResult>): Totals {
    if rs == [] then Totals(0, 0, 0, 0) else SumUp(rs[..|rs| - 1]).Absorb(rs[|rs| - 1])
  }

  datatype Launcher =
    | Head             // `for !stop`
    | Admitting        // past the rate limiter
    | Acquiring        // `sem <- struct{}{}`
    | Selecting        // the select with a default
    | Draining         // `for r := range results`
    | Returned         // after RecordRun
    | Aborted          // the limiter failed

  /** A worker is fetching, blocked on its send, about to release its slot, about
      to call Done, or gone. */
  datatype State = State(
    main: Launcher, nextPage: nat, pending: nat, stop: bool, cancelled: bool,
    fetching: set<nat>, sending: map<nat, PageResult>, releasing: set<nat>, exiting: set<nat>, gone: set<nat>,
    slots: nat, buffer: seq<PageResult>, wg: nat, closer: bool, closed: bool,
    totals: Totals, recorded: Option<Totals>,
    absorbed: seq<PageResult>) // history: results in the order they were absorbed

  datatype Step =
    | Cancel
    | LimiterPass | LimiterFail | LeaveLoop
    | Admit | Acquire
    | SelectResult | SelectCancelled | SelectDefault
    | FetchDone(result: PageResult) | Send(page: nat) | Release(page: nat) | Exit(page: nat)
    | Close | DrainResult | DrainEnd

  function Init(): State {
    State(Head, 1, 0, false, false, {}, map[], {}, {}, {}, 0, [], 0, false, false,
          Totals(0, 0, 0, 0), None, [])
  }

  predicate Enabled(c: Config, s: State, step: Step) {
    match step
    case Cancel => !s.cancelled
    case LimiterPass => s.main.Head? && !s.stop
    case LimiterFail => s.main.Head? && !s.stop
    case LeaveLoop => s.main.Head? && s.stop
    case Admit => s.main.Admitting?
    case Acquire => s.main.Acquiring? && s.slots < c.concurrency
    case SelectResult => s.main.Selecting? && s.buffer != []
    case SelectCancelled => s.main.Selecting? && s.cancelled
    case SelectDefault => s.main.Selecting? && s.buffer == [] && !s.cancelled
    case FetchDone(r) => r.page in s.fetching
    case Send(p) => p in s.sending && |s.buffer| < c.concurrency && !s.closed
    case Release(p) => p in s.releasing && s.slots > 0
    case Exit(p) => p in s.exiting && s.wg > 0
    case Close => s.closer && s.wg == 0 && !s.closed
    case DrainResult => s.main.Draining? && s.buffer != []
    case DrainEnd => s.main.Draining? && s.buffer == [] && s.closed
  }

  /** `absorb(<-results)`: the circuit breaker may stop the run. */
  function AbsorbHead(c: Config, s: State): State
    requires s.buffer != []
  {
    var r := s.buffer[0];
    var totals := s.totals.Absorb(r);
    s.(buffer := s.buffer[1..], absorbed := s.absorbed + [r], totals := totals,
       stop := s.stop || (r.failed && totals.failedPages >= c.maxPageFailures))
  }

  function Apply(c: Config, s: State, step: Step): State
    requires Enabled(c, s, step)
  {
    match step
    case Cancel => s.(cancelled := true)
    case LimiterPass => s.(main := Admitting)
    case LimiterFail => s.(main := Aborted)
    case LeaveLoop => s.(main := Draining, closer := true)
    case Admit =>
      if c.maxPages > 0 && s.nextPage > c.maxPages then
        s.(stop := true, main := Draining, closer := true)
      else
        s.(main := Acquiring, nextPage := s.nextPage + 1, pending := s.pending + 1, wg := s.wg + 1)
    case Acquire =>
      s.(main := Selecting, slots := s.slots + 1, fetching := s.fetching + {Newest(s)})
    case SelectResult =>
      var a := AbsorbHead(c, s);
      a.(main := Head, pending := if s.pending > 0 then s.pending - 1 else 0, stop := a.stop || s.buffer[0].empty)
    case SelectCancelled => s.(main := Head, stop := true)
    case SelectDefault => s.(main := Head)
    case FetchDone(r) => s.(fetching := s.fetching - {r.page}, sending := s.sending[r.page := r])
    case Send(p) =>
      s.(sending := s.sending - {p}, releasing := s.releasing + {p}, buffer := s.buffer + [s.sending[p]])
    case Release(p) => s.(releasing := s.releasing - {p}, exiting := s.exiting + {p}, slots := s.slots - 1)
    case Exit(p) => s.(exiting := s.exiting - {p}, gone := s.gone + {p}, wg := s.wg - 1)
    case Close => s.(closed := true)
    case DrainResult => AbsorbHead(c, s)
    case DrainEnd => s.(main := Returned, recorded := Some(s.totals))
  }

  function Newest(s: State): nat {
    if s.nextPage > 0 then s.nextPage - 1 else 0
  }

  // ---- the counting invariant ------------------------------------------------

  /** Pages whose goroutine exists. */
  ghost function Launched(s: State): set<nat> {
    s.fetching + s.sending.Keys + s.releasing + s.exiting + s.gone
  }

  /** Launched pages whose result nobody has absorbed. */
  function Unabsorbed(s: State): nat {
    |s.fetching| + |s.sending| + |s.buffer|
  }

  ghost predicate PageOf(rs: seq<PageResult>, p: nat) {
    exists i | 0 <= i < |rs| :: rs[i].page == p
  }

  ghost predicate Distinct(rs: seq<PageResult>) {
    forall i, j | 0 <= i < j < |rs| :: rs[i].page != rs[j].page
  }

  predicate InLoop(s: State) {
    s.main.Head? || s.main.Admitting? || s.main.Acquiring? || s.main.Selecting?
  }

  /** Workers are where their page says, each page once. */
  ghost predicate Workers(s: State) {
    && s.nextPage >= 1
    && (forall p: nat :: p in Launched(s) <==> 1 <= p < s.nextPage - (if s.main.Acquiring? then 1 else 0))
    && s.fetching !! s.sending.Keys !! s.releasing !! s.exiting !! s.gone
    && (forall p | p in s.sending :: s.sending[p].page == p)
    && (s.main.Acquiring? ==> s.nextPage >= 2)
  }

  /** What was sent, in order: absorbed results, then the buffer. */
  ghost predicate Results(s: State) {
    && Distinct(s.absorbed + s.buffer)
    && (forall p :: PageOf(s.absorbed + s.buffer, p) <==> p in s.releasing + s.exiting + s.gone)
    && s.totals == SumUp(s.absorbed)
  }

  /** The semaphore, the wait group, and the unwritten bound: at every point
      where the launcher can go on, at most `concurrency` pages are unabsorbed. */
  ghost predicate Counts(c: Config, s: State) {
    && s.slots == |s.fetching| + |s.sending| + |s.releasing| <= c.concurrency
    && s.wg == s.slots + |s.exiting| + (if s.main.Acquiring? then 1 else 0)
    && |s.buffer| <= c.concurrency
    && (InLoop(s) ==> s.pending == Unabsorbed(s) + (if s.main.Acquiring? then 1 else 0))
    && Unabsorbed(s) <= c.concurrency
       + (if s.main.Selecting? || s.main.Draining? || (s.main.Head? && s.stop) then 1 else 0)
    && (s.main.Returned? ==> Unabsorbed(s) == 0)
    && (s.main.Draining? || s.main.Returned? <==> s.closer)
    && (s.closed ==> s.closer && s.wg == 0)
    && (s.recorded.Some? <==> s.main.Returned?)
    && (s.main.Returned? ==> s.closed && s.recorded == Some(s.totals))
  }

  ghost predicate Limits(c: Config, s: State) {
    && (s.main.Admitting? || s.main.Acquiring? || s.main.Selecting? ==> !s.stop)
    && (InLoop(s) && !s.stop ==> s.totals.failedPages < c.maxPageFailures)
    && s.totals.failedPages + Unabsorbed(s) <= c.maxPageFailures + c.concurrency
    && (c.maxPages > 0 ==> s.nextPage - 1 <= c.maxPages)
  }

  ghost predicate Inv(c: Config, s: State) {
    Workers(s) && Results(s) && Counts(c, s) && Limits(c, s)
  }

  /** The counters of one run and the closure that updates them. */
  class Counters {
    var pages: nat
    var published: nat
    var pubErrs: nat
    var failedPages: nat
    var stop: bool
    const maxPageFailures: nat

    constructor (maxPageFailures: nat)
      ensures Value() == SumUp([]) && !stop && this.maxPageFailures == maxPageFailures
    {
      this.maxPageFailures := maxPageFailures;
      pages, published, pubErrs, failedPages, stop := 0, 0, 0, 0, false;
    }

    ghost function Value(): Totals
      reads this
    {
      Totals(pages, published, pubErrs, failedPages)
    }

    method Absorb(r: PageResult)
      modifies this
      ensures Value() == old(Value()).Absorb(r)
      ensures stop <==> old(stop) || (r.failed && failedPages >= maxPageFailures)
    {
      pages := pages + 1;
      published := published + r.published;
      pubErrs := pubErrs + r.pubErrs;
      if r.failed {
        failedPages := failedPages + 1;
        if failedPages >= maxPageFailures {
          stop := true;
        }
      }
    }

    /** `for r := range results` after the loop, until the channel is closed. */
    method Drain(results: seq<PageResult>, ghost before: seq<PageResult>)
      requires Value() == SumUp(before)
      modifies this
      ensures Value() == SumUp(before + results)
      ensures old(stop) ==> stop
    {
      assert before + results[..0] == before;
      for k := 0 to |results|
        invariant Value() == SumUp(before + results[..k]) && (old(stop) ==> stop)
      {
        assert (before + results[..k + 1])[..|before| + k] == before + results[..k];
        Absorb(results[k]);
      }
      assert results[..|results|] == results;
    }
  }
}
