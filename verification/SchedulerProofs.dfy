/** Properties of every interleaving of the scheduler. */
module SchedulerProofs {
  import opened Wrappers
  import opened Scheduler

  lemma InitInv(c: Config)
    requires c.Ok()
    ensures Inv(c, Init())
  {}

  lemma Sizes(s: State, p: nat)
    ensures p in s.fetching ==> |s.fetching - {p}| == |s.fetching| - 1
    ensures p !in s.fetching ==> |s.fetching + {p}| == |s.fetching| + 1
    ensures p in s.sending ==> |s.sending - {p}| == |s.sending| - 1
    ensures p in s.releasing ==> |s.releasing - {p}| == |s.releasing| - 1
    ensures p !in s.releasing ==> |s.releasing + {p}| == |s.releasing| + 1
    ensures p in s.exiting ==> |s.exiting - {p}| == |s.exiting| - 1
    ensures p !in s.exiting ==> |s.exiting + {p}| == |s.exiting| + 1
  {
    if p in s.sending {
      assert (s.sending - {p}).Keys == s.sending.Keys - {p};
      assert |s.sending.Keys - {p}| == |s.sending| - 1;
    }
  }

  /** Steps that leave the workers alone. */
  predicate Quiet(step: Step) {
    !(step.Admit? || step.Acquire? || step.FetchDone? || step.Send? || step.Release? || step.Exit?)
  }

  lemma AdmitWorkers(c: Config, s: State)
    requires Inv(c, s) && Enabled(c, s, Admit)
    ensures Workers(Apply(c, s, Admit))
  {
    assert Launched(Apply(c, s, Admit)) == Launched(s);
  }

  lemma AcquireWorkers(c: Config, s: State)
    requires Inv(c, s) && Enabled(c, s, Acquire)
    ensures Newest(s) !in Launched(s) && Workers(Apply(c, s, Acquire))
  {
    var p := Newest(s);
    assert p !in Launched(s);
    SpawnWorker(s, Apply(c, s, Acquire), p);
  }

  lemma SpawnWorker(s: State, s': State, p: nat)
    requires Workers(s) && s.main.Acquiring? && s'.main.Selecting?
    requires p == s.nextPage - 1 && p !in Launched(s) && s'.nextPage == s.nextPage
    requires s'.fetching == s.fetching + {p} && s'.sending == s.sending
    requires s'.releasing == s.releasing && s'.exiting == s.exiting && s'.gone == s.gone
    ensures Workers(s')
  {
    assert Launched(s') == Launched(s) + {p};
    assert p !in s.sending.Keys && p !in s.releasing && p !in s.exiting && p !in s.gone;
  }

  lemma MoveWorkers(s: State, s': State, p: nat)
    requires Workers(s) && s'.nextPage == s.nextPage && s'.main == s.main
    requires p in Launched(s)
    requires
      || (s'.fetching == s.fetching - {p} && p in s.fetching && p in s'.sending && s'.sending[p].page == p
          && s'.sending == s.sending[p := s'.sending[p]]
          && s'.releasing == s.releasing && s'.exiting == s.exiting && s'.gone == s.gone)
      || (s'.fetching == s.fetching && p in s.sending && s'.sending == s.sending - {p}
          && s'.releasing == s.releasing + {p} && s'.exiting == s.exiting && s'.gone == s.gone)
      || (s'.fetching == s.fetching && s'.sending == s.sending && p in s.releasing
          && s'.releasing == s.releasing - {p} && s'.exiting == s.exiting + {p} && s'.gone == s.gone)
      || (s'.fetching == s.fetching && s'.sending == s.sending && s'.releasing == s.releasing
          && p in s.exiting && s'.exiting == s.exiting - {p} && s'.gone == s.gone + {p})
    ensures Workers(s')
  {
    assert Launched(s') == Launched(s);
  }

  predicate SameWorkers(s: State, s': State) {
    && s'.fetching == s.fetching && s'.sending == s.sending && s'.releasing == s.releasing
    && s'.exiting == s.exiting && s'.gone == s.gone && s'.nextPage == s.nextPage
    && (s'.main.Acquiring? <==> s.main.Acquiring?)
  }

  lemma QuietFrame(c: Config, s: State, step: Step)
    requires Enabled(c, s, step) && Quiet(step)
    ensures SameWorkers(s, Apply(c, s, step))
  {}

  lemma WorkersFrame(s: State, s': State)
    requires Workers(s) && SameWorkers(s, s')
    ensures Workers(s')
  {
    assert Launched(s') == Launched(s);
  }

  lemma QuietWorkers(c: Config, s: State, step: Step)
    requires Workers(s) && Enabled(c, s, step) && Quiet(step)
    ensures Workers(Apply(c, s, step))
  {
    QuietFrame(c, s, step);
    WorkersFrame(s, Apply(c, s, step));
  }

  lemma StepWorkers(c: Config, s: State, step: Step)
    requires c.Ok() && Inv(c, s) && Enabled(c, s, step)
    ensures Workers(Apply(c, s, step))
  {
    var s' := Apply(c, s, step);
    match step
    case Admit => AdmitWorkers(c, s);
    case Acquire => AcquireWorkers(c, s);
    case FetchDone(r) => MoveWorkers(s, s', r.page);
    case Send(p) => MoveWorkers(s, s', p);
    case Release(p) => MoveWorkers(s, s', p);
    case Exit(p) => MoveWorkers(s, s', p);
    case _ => QuietWorkers(c, s, step);
  }

  lemma PageOfAppend(rs: seq<PageResult>, r: PageResult)
    ensures forall p :: PageOf(rs + [r], p) <==> PageOf(rs, p) || p == r.page
  {
    forall p | PageOf(rs, p)
      ensures PageOf(rs + [r], p)
    {
      var i :| 0 <= i < |rs| && rs[i].page == p;
      assert (rs + [r])[i].page == p;
    }
    assert (rs + [r])[|rs|] == r;
  }

  lemma SendResults(c: Config, s: State, p: nat)
    requires Inv(c, s) && Enabled(c, s, Send(p))
    ensures Results(Apply(c, s, Send(p)))
  {
    var s' := Apply(c, s, Send(p));
    var r := s.sending[p];
    var log := s.absorbed + s.buffer;
    assert s'.absorbed + s'.buffer == log + [r];
    PageOfAppend(log, r);
    forall i | 0 <= i < |log|
      ensures log[i].page != p
    {
      assert PageOf(log, log[i].page);
    }
  }

  lemma AbsorbResults(c: Config, s: State, s': State)
    requires Results(s) && s.buffer != []
    requires s'.buffer == s.buffer[1..] && s'.absorbed == s.absorbed + [s.buffer[0]]
    requires s'.totals == s.totals.Absorb(s.buffer[0])
    requires s'.releasing == s.releasing && s'.exiting == s.exiting && s'.gone == s.gone
    ensures Results(s')
  {
    assert s'.absorbed + s'.buffer == s.absorbed + s.buffer;
    assert s'.absorbed[..|s'.absorbed| - 1] == s.absorbed;
  }

  lemma KeepResults(s: State, s': State)
    requires Results(s) && s'.buffer == s.buffer && s'.absorbed == s.absorbed && s'.totals == s.totals
    requires s'.releasing + s'.exiting + s'.gone == s.releasing + s.exiting + s.gone
    ensures Results(s')
  {}

  lemma ReleaseResults(c: Config, s: State, p: nat)
    requires Results(s) && Enabled(c, s, Release(p))
    ensures Results(Apply(c, s, Release(p)))
  {
    var s' := Apply(c, s, Release(p));
    assert s'.releasing + s'.exiting == s.releasing + s.exiting;
    KeepResults(s, s');
  }

  lemma ExitResults(c: Config, s: State, p: nat)
    requires Results(s) && Enabled(c, s, Exit(p))
    ensures Results(Apply(c, s, Exit(p)))
  {
    var s' := Apply(c, s, Exit(p));
    assert s'.releasing + s'.exiting + s'.gone == s.releasing + s.exiting + s.gone;
    KeepResults(s, s');
  }

  lemma StepResults(c: Config, s: State, step: Step)
    requires c.Ok() && Inv(c, s) && Enabled(c, s, step)
    ensures Results(Apply(c, s, step))
  {
    if step.Send? {
      SendResults(c, s, step.page);
    } else if step.SelectResult? || step.DrainResult? {
      AbsorbResults(c, s, Apply(c, s, step));
    } else if step.Release? {
      ReleaseResults(c, s, step.page);
    } else if step.Exit? {
      ExitResults(c, s, step.page);
    } else {
      KeepResults(s, Apply(c, s, step));
    }
  }

  predicate ByWorker(step: Step, p: nat) {
    || (step.FetchDone? && p == step.result.page)
    || ((step.Send? || step.Release? || step.Exit?) && p == step.page)
  }

  lemma ResultCounts(c: Config, s: State, step: Step, p: nat)
    requires Workers(s) && Counts(c, s) && Enabled(c, s, step) && ByWorker(step, p)
    requires step.FetchDone? || step.Send?
    ensures Counts(c, Apply(c, s, step))
  {
    Sizes(s, p);
  }

  lemma WorkerCounts(c: Config, s: State, step: Step, p: nat)
    requires Workers(s) && Counts(c, s) && Enabled(c, s, step) && ByWorker(step, p)
    ensures Counts(c, Apply(c, s, step))
  {
    if step.FetchDone? || step.Send? {
      ResultCounts(c, s, step, p);
    } else {
      Sizes(s, p);
    }
  }

  lemma WorkerLimits(c: Config, s: State, step: Step, p: nat)
    requires Inv(c, s) && Enabled(c, s, step) && ByWorker(step, p)
    ensures Limits(c, Apply(c, s, step))
  {
    Sizes(s, p);
  }

  lemma AcquireCounts(c: Config, s: State)
    requires Inv(c, s) && Enabled(c, s, Acquire)
    ensures Counts(c, Apply(c, s, Acquire)) && Limits(c, Apply(c, s, Acquire))
  {
    AcquireWorkers(c, s);
    Sizes(s, Newest(s));
  }

  /** With the default taken the buffer is empty, so every unabsorbed page holds
      a semaphore slot. */
  lemma LauncherCounts(c: Config, s: State, step: Step)
    requires Inv(c, s) && Enabled(c, s, step) && (Quiet(step) || step.Admit?)
    ensures Counts(c, Apply(c, s, step))
  {}

  lemma AbsorbLimits(c: Config, s: State, step: Step)
    requires Inv(c, s) && Enabled(c, s, step) && (step.SelectResult? || step.DrainResult?)
    ensures Limits(c, Apply(c, s, step))
  {
    assert Unabsorbed(Apply(c, s, step)) == Unabsorbed(s) - 1;
  }

  lemma AdmitLimits(c: Config, s: State)
    requires Limits(c, s) && Enabled(c, s, Admit)
    ensures Limits(c, Apply(c, s, Admit))
  {
    assert Unabsorbed(Apply(c, s, Admit)) == Unabsorbed(s);
  }

  lemma LauncherLimits(c: Config, s: State, step: Step)
    requires Inv(c, s) && Enabled(c, s, step) && (Quiet(step) || step.Admit?)
    ensures Limits(c, Apply(c, s, step))
  {
    if step.SelectResult? || step.DrainResult? {
      AbsorbLimits(c, s, step);
    } else if step.Admit? {
      AdmitLimits(c, s);
    } else {
      assert Unabsorbed(Apply(c, s, step)) == Unabsorbed(s);
    }
  }

  /** The worker whose step it is. */
  function WorkerPage(step: Step): nat {
    if step.FetchDone? then step.result.page
    else if step.Send? || step.Release? || step.Exit? then step.page else 0
  }

  lemma StepCounts(c: Config, s: State, step: Step)
    requires c.Ok() && Inv(c, s) && Enabled(c, s, step)
    ensures Counts(c, Apply(c, s, step))
  {
    if step.Acquire? {
      AcquireCounts(c, s);
    } else if Quiet(step) || step.Admit? {
      LauncherCounts(c, s, step);
    } else {
      WorkerCounts(c, s, step, WorkerPage(step));
    }
  }

  lemma StepLimits(c: Config, s: State, step: Step)
    requires c.Ok() && Inv(c, s) && Enabled(c, s, step)
    ensures Limits(c, Apply(c, s, step))
  {
    if step.Acquire? {
      AcquireCounts(c, s);
    } else if Quiet(step) || step.Admit? {
      LauncherLimits(c, s, step);
    } else {
      WorkerLimits(c, s, step, WorkerPage(step));
    }
  }

  lemma StepInv(c: Config, s: State, step: Step)
    requires c.Ok() && Inv(c, s) && Enabled(c, s, step)
    ensures Inv(c, Apply(c, s, step))
  {
    StepWorkers(c, s, step);
    StepResults(c, s, step);
    StepCounts(c, s, step);
    StepLimits(c, s, step);
  }

  // ---- runs ------------------------------------------------------------------

  ghost predicate CanRun(c: Config, s: State, steps: seq<Step>)
    decreases |steps|
  {
    steps == [] || (Enabled(c, s, steps[0]) && CanRun(c, Apply(c, s, steps[0]), steps[1..]))
  }

  ghost function RunTo(c: Config, s: State, steps: seq<Step>): State
    requires CanRun(c, s, steps)
    decreases |steps|
  {
    if steps == [] then s else RunTo(c, Apply(c, s, steps[0]), steps[1..])
  }

  lemma {:induction false} RunInv(c: Config, s: State, steps: seq<Step>)
    requires c.Ok() && Inv(c, s) && CanRun(c, s, steps)
    ensures Inv(c, RunTo(c, s, steps))
    decreases |steps|
  {
    if steps != [] {
      StepInv(c, s, steps[0]);
      RunInv(c, Apply(c, s, steps[0]), steps[1..]);
    }
  }

  /** More pages pending than slots, at a loop head, takes a cancelled context;
      and no page is pending that was not launched. */
  predicate Excess(c: Config, s: State) {
    && (s.main.Head? && s.pending > c.concurrency ==> s.cancelled)
    && s.pending < s.nextPage
  }

  lemma StepExcess(c: Config, s: State, step: Step)
    requires Inv(c, s) && Excess(c, s) && Enabled(c, s, step)
    ensures Excess(c, Apply(c, s, step))
  {}

  lemma {:induction false} RunExcess(c: Config, s: State, steps: seq<Step>)
    requires c.Ok() && Inv(c, s) && Excess(c, s) && CanRun(c, s, steps)
    ensures Excess(c, RunTo(c, s, steps))
    decreases |steps|
  {
    if steps != [] {
      StepInv(c, s, steps[0]);
      StepExcess(c, s, steps[0]);
      RunExcess(c, Apply(c, s, steps[0]), steps[1..]);
    }
  }

  /** At every loop head `pending` is the number of unabsorbed pages. It is at
      most `concurrency` when the loop goes on, and one more only after a
      cancellation. */
  lemma PendingBound(c: Config, steps: seq<Step>)
    requires c.Ok() && CanRun(c, Init(), steps)
    ensures var s := RunTo(c, Init(), steps);
      s.main.Head? ==>
        && s.pending == Unabsorbed(s)
        && (!s.stop ==> s.pending <= c.concurrency)
        && s.pending <= c.concurrency + 1
        && (s.pending > c.concurrency ==> s.cancelled && s.stop)
  {
    InitInv(c);
    RunInv(c, Init(), steps);
    RunExcess(c, Init(), steps);
  }

  // ---- no deadlock ---------------------------------------------------------------

  /** Everything has returned. */
  predicate Over(s: State) {
    (s.main.Returned? || s.main.Aborted?)
    && s.fetching == {} && s.sending == map[] && s.releasing == {} && s.exiting == {}
  }

  /** Unless the launcher is about to receive, a send finds room: no worker is
      stranded by a launcher blocked on the semaphore, or by the early return. */
  lemma SendHasRoom(c: Config, s: State, p: nat)
    requires Inv(c, s) && p in s.sending
    requires !s.main.Selecting? && !s.main.Draining? && !(s.main.Head? && s.stop)
    ensures Enabled(c, s, Send(p))
  {
    NonEmptyCounts(s);
  }

  lemma NonEmptyCounts(s: State)
    ensures s.sending != map[] ==> |s.sending| > 0
    ensures s.fetching != {} ==> |s.fetching| > 0
    ensures s.releasing != {} ==> |s.releasing| > 0
    ensures s.exiting != {} ==> |s.exiting| > 0
  {}

  /** Some worker that has not finished can move, if the buffer has room. */
  lemma WorkerMoves(c: Config, s: State) returns (step: Step)
    requires Inv(c, s) && !s.closed
    requires s.sending != map[] ==> |s.buffer| < c.concurrency
    requires s.fetching != {} || s.sending != map[] || s.releasing != {} || s.exiting != {}
    ensures Enabled(c, s, step) && !step.Cancel?
  {
    NonEmptyCounts(s);
    if s.fetching != {} {
      var p :| p in s.fetching;
      step := FetchDone(PageResult(p, false, false, 0, 0));
    } else if s.sending != map[] {
      var p :| p in s.sending;
      step := Send(p);
    } else if s.releasing != {} {
      var p :| p in s.releasing;
      step := Release(p);
    } else {
      var p :| p in s.exiting;
      step := Exit(p);
    }
  }

  /** Deadlock freedom: in every reachable state that is not over, some
      goroutine can move without the context being cancelled. */
  lemma NoDeadlock(c: Config, s: State) returns (step: Step)
    requires c.Ok() && Inv(c, s) && !Over(s)
    ensures Enabled(c, s, step) && !step.Cancel?
  {
    match s.main
    case Head => step := if s.stop then LeaveLoop else LimiterPass;
    case Admitting => step := Admit;
    case Selecting =>
      step := if s.buffer != [] then SelectResult else if s.cancelled then SelectCancelled else SelectDefault;
    case Acquiring =>
      if s.slots < c.concurrency {
        step := Acquire;
      } else {
        step := WorkerMoves(c, s);
      }
    case Draining =>
      if s.buffer != [] {
        step := DrainResult;
      } else if s.closed {
        step := DrainEnd;
      } else if s.wg == 0 {
        step := Close;
      } else {
        step := WorkerMoves(c, s);
      }
    case Returned =>
      ReturnedIsOver(c, s);
      assert false;
    case Aborted =>
      step := WorkerMoves(c, s);
  }

  /** A run that no goroutine can extend has returned, with every worker gone. */
  lemma MaximalRunIsOver(c: Config, steps: seq<Step>)
    requires c.Ok() && CanRun(c, Init(), steps)
    requires forall step | Enabled(c, RunTo(c, Init(), steps), step) :: step.Cancel?
    ensures Over(RunTo(c, Init(), steps))
  {
    InitInv(c);
    RunInv(c, Init(), steps);
    if !Over(RunTo(c, Init(), steps)) {
      var step := NoDeadlock(c, RunTo(c, Init(), steps));
      assert false;
    }
  }

  lemma ReturnedIsOver(c: Config, s: State)
    requires Inv(c, s) && s.main.Returned?
    ensures Over(s)
  {
    NonEmptyCounts(s);
  }

  /** Nothing is sent on the closed channel: once it is closed no worker is
      left that could send. */
  lemma ClosedMeansDone(c: Config, s: State)
    requires Inv(c, s) && s.closed
    ensures s.fetching == {} && s.sending == map[]
  {
    NonEmptyCounts(s);
  }

  // ---- termination -----------------------------------------------------------------

  function Rank(main: Launcher): nat {
    match main
    case Head => 8
    case Admitting => 7
    case Acquiring => 16
    case Selecting => 9
    case Draining => 6
    case Returned => 0
    case Aborted => 0
  }

  /** What is left to do, counting 20 for each page up to `last` that may still be
      launched. */
  function Measure(last: nat, s: State): nat {
    20 * (if s.nextPage <= last then last - s.nextPage + 1 else 0)
    + Rank(s.main) + 6 * |s.fetching| + 5 * |s.sending| + 2 * |s.releasing| + |s.exiting| + |s.buffer|
    + (if s.closed then 0 else 1) + (if s.cancelled then 0 else 1)
  }

  lemma WorkerDecreases(c: Config, last: nat, s: State, step: Step, p: nat)
    requires Inv(c, s) && Enabled(c, s, step)
    requires ByWorker(step, p)
    ensures Measure(last, Apply(c, s, step)) < Measure(last, s)
  {
    Sizes(s, p);
  }

  lemma AcquireDecreases(c: Config, last: nat, s: State)
    requires Enabled(c, s, Acquire) && Newest(s) !in s.fetching
    ensures Measure(last, Apply(c, s, Acquire)) < Measure(last, s)
  {
    Sizes(s, Newest(s));
  }

  /** The page about to be launched, if it is, is not past the last one. */
  predicate NoneLater(c: Config, last: nat, s: State) {
    s.nextPage <= last || (c.maxPages > 0 && s.nextPage > c.maxPages)
  }

  lemma LauncherDecreases(c: Config, last: nat, s: State, step: Step)
    requires Enabled(c, s, step) && (Quiet(step) || (step.Admit? && NoneLater(c, last, s)))
    ensures Measure(last, Apply(c, s, step)) < Measure(last, s)
  {}

  /** Every step makes progress, save the launch of a page past the last one. */
  lemma StepDecreases(c: Config, last: nat, s: State, step: Step)
    requires c.Ok() && Inv(c, s) && Enabled(c, s, step)
    requires step.Admit? ==> NoneLater(c, last, s)
    ensures Measure(last, Apply(c, s, step)) < Measure(last, s)
  {
    if step.Acquire? {
      AcquireWorkers(c, s);
      AcquireDecreases(c, last, s);
    } else if Quiet(step) || step.Admit? {
      LauncherDecreases(c, last, s, step);
    } else {
      WorkerDecreases(c, last, s, step, WorkerPage(step));
    }
  }

  /** With a page limit every run is finite, whatever the schedule; together
      with NoDeadlock, `Run` always returns. */
  lemma {:induction false} RunsAreBounded(c: Config, s: State, steps: seq<Step>)
    requires c.Ok() && c.maxPages > 0 && Inv(c, s) && CanRun(c, s, steps)
    ensures |steps| + Measure(c.maxPages, RunTo(c, s, steps)) <= Measure(c.maxPages, s)
    decreases |steps|
  {
    if steps != [] {
      StepDecreases(c, c.maxPages, s, steps[0]);
      StepInv(c, s, steps[0]);
      RunsAreBounded(c, Apply(c, s, steps[0]), steps[1..]);
    }
  }

  lemma RunLength(c: Config, steps: seq<Step>)
    requires c.Ok() && c.maxPages > 0 && CanRun(c, Init(), steps)
    ensures |steps| <= 20 * c.maxPages + 10
  {
    InitInv(c);
    RunsAreBounded(c, Init(), steps);
  }

  /** Without a page limit, a run that has decided to stop is finite. */
  lemma {:induction false} StoppedRunsAreBounded(c: Config, s: State, steps: seq<Step>)
    requires c.Ok() && Inv(c, s) && CanRun(c, s, steps) && (s.stop || !InLoop(s))
    ensures |steps| + Measure(c.maxPages, RunTo(c, s, steps)) <= Measure(c.maxPages, s)
    decreases |steps|
  {
    if steps != [] {
      StepDecreases(c, c.maxPages, s, steps[0]);
      StepInv(c, s, steps[0]);
      StoppedRunsAreBounded(c, Apply(c, s, steps[0]), steps[1..]);
    }
  }

  // ---- accounting --------------------------------------------------------------------

  /** On normal return the launched pages are 1 to nextPage - 1, each absorbed
      exactly once, and the recorded totals are the sums over them. The page
      limit holds, and the breaker overshoots by at most `concurrency`. */
  lemma Accounting(c: Config, steps: seq<Step>)
    requires c.Ok() && CanRun(c, Init(), steps)
    requires RunTo(c, Init(), steps).main.Returned?
    ensures var s := RunTo(c, Init(), steps);
      && Distinct(s.absorbed)
      && (forall p: nat :: PageOf(s.absorbed, p) <==> 1 <= p < s.nextPage)
      && s.recorded == Some(SumUp(s.absorbed))
      && (c.maxPages > 0 ==> s.nextPage - 1 <= c.maxPages)
      && s.totals.failedPages <= c.maxPageFailures + c.concurrency
  {
    InitInv(c);
    RunInv(c, Init(), steps);
    var s := RunTo(c, Init(), steps);
    ReturnedIsOver(c, s);
    assert s.absorbed + s.buffer == s.absorbed;
    assert Launched(s) == s.releasing + s.exiting + s.gone;
  }

  /** Absorbed pages are counted one by one. */
  lemma {:induction false} PagesCounted(rs: seq<PageResult>)
    ensures SumUp(rs).pages == |rs| && SumUp(rs).failedPages <= |rs|
  {
    if rs != [] {
      PagesCounted(rs[..|rs| - 1]);
    }
  }

  lemma {:induction false} RunAppend(c: Config, s: State, steps: seq<Step>, step: Step)
    requires CanRun(c, s, steps) && Enabled(c, RunTo(c, s, steps), step)
    ensures CanRun(c, s, steps + [step])
    ensures RunTo(c, s, steps + [step]) == Apply(c, RunTo(c, s, steps), step)
    decreases |steps|
  {
    if steps == [] {
      assert [step][1..] == [];
    } else {
      assert (steps + [step])[1..] == steps[1..] + [step];
      RunAppend(c, Apply(c, s, steps[0]), steps[1..], step);
    }
  }

  lemma Extend(c: Config, steps: seq<Step>, cur: State, step: Step) returns (longer: seq<Step>, after: State)
    requires CanRun(c, Init(), steps) && RunTo(c, Init(), steps) == cur && Enabled(c, cur, step)
    ensures CanRun(c, Init(), longer) && RunTo(c, Init(), longer) == after == Apply(c, cur, step)
  {
    RunAppend(c, Init(), steps, step);
    longer, after := steps + [step], Apply(c, cur, step);
  }

  // ---- when the bound is exceeded ------------------------------------------------------

  predicate Between(lo: nat, p: nat, hi: nat) {
    lo <= p <= hi
  }

  function Pages(lo: nat, hi: nat): set<nat> {
    set p: nat | p <= hi && Between(lo, p, hi)
  }

  /** k pages launched, none finished. */
  function Busy(k: nat): State {
    Init().(nextPage := k + 1, pending := k, fetching := Pages(1, k), slots := k, wg := k)
  }

  function SentResults(j: nat): seq<PageResult> {
    if j == 0 then [] else SentResults(j - 1) + [Plain(j)]
  }

  function Plain(p: nat): PageResult {
    PageResult(p, false, false, 0, 0)
  }

  /** k pages launched, the first j sent and their slots free. */
  function Sent(k: nat, j: nat): State
    requires j <= k
  {
    Busy(k).(fetching := Pages(j + 1, k), exiting := Pages(1, j), buffer := SentResults(j), slots := k - j)
  }

  predicate Admits(c: Config, page: nat) {
    c.maxPages == 0 || page <= c.maxPages
  }

  lemma {:induction false} LaunchPages(c: Config, k: nat) returns (steps: seq<Step>)
    requires c.Ok() && k <= c.concurrency && Admits(c, k)
    ensures CanRun(c, Init(), steps) && RunTo(c, Init(), steps) == Busy(k)
  {
    if k == 0 {
      steps := [];
      assert Pages(1, 0) == {};
    } else {
      steps := LaunchPages(c, k - 1);
      var e := Busy(k - 1);
      assert Between(1, k, k) && forall p: nat | Between(1, p, k - 1) :: Between(1, p, k);
      assert Pages(1, k) == Pages(1, k - 1) + {k};
      steps, e := Extend(c, steps, e, LimiterPass);
      steps, e := Extend(c, steps, e, Admit);
      steps, e := Extend(c, steps, e, Acquire);
      steps, e := Extend(c, steps, e, SelectDefault);
    }
  }

  lemma {:induction false} SendPages(c: Config, k: nat, j: nat) returns (steps: seq<Step>)
    requires c.Ok() && j <= k <= c.concurrency && Admits(c, k)
    ensures CanRun(c, Init(), steps) && RunTo(c, Init(), steps) == Sent(k, j)
  {
    if j == 0 {
      steps := LaunchPages(c, k);
      assert Pages(1, 0) == {};
    } else {
      steps := SendPages(c, k, j - 1);
      steps := SendOne(c, k, j, steps);
    }
  }

  lemma {:induction false} ResultsLength(j: nat)
    ensures |SentResults(j)| == j
  {
    if j > 0 {
      ResultsLength(j - 1);
    }
  }

  /** Page j has its result. */
  function Fetched(k: nat, j: nat): State
    requires 0 < j <= k
  {
    Sent(k, j - 1).(fetching := Pages(j + 1, k), sending := map[j := Plain(j)])
  }

  /** Page j has sent it and still holds its slot. */
  function Holding(k: nat, j: nat): State
    requires 0 < j <= k
  {
    Sent(k, j).(exiting := Pages(1, j - 1), releasing := {j}, slots := k - j + 1)
  }

  lemma FetchOne(c: Config, k: nat, j: nat)
    requires 0 < j <= k
    ensures Enabled(c, Sent(k, j - 1), FetchDone(Plain(j)))
    ensures Apply(c, Sent(k, j - 1), FetchDone(Plain(j))) == Fetched(k, j)
  {
    assert Between(j, j, k);
    assert Pages(j, k) - {j} == Pages(j + 1, k);
  }

  lemma DeliverOne(c: Config, k: nat, j: nat)
    requires 0 < j <= k <= c.concurrency
    ensures Enabled(c, Fetched(k, j), Send(j)) && Apply(c, Fetched(k, j), Send(j)) == Holding(k, j)
  {
    ResultsLength(j - 1);
    assert map[j := Plain(j)] - {j} == map[];
  }

  lemma ReleaseOne(c: Config, k: nat, j: nat)
    requires 0 < j <= k
    ensures Enabled(c, Holding(k, j), Release(j)) && Apply(c, Holding(k, j), Release(j)) == Sent(k, j)
  {
    assert Between(1, j, j);
    assert forall p: nat | Between(1, p, j - 1) :: Between(1, p, j);
    assert Pages(1, j - 1) + {j} == Pages(1, j);
    assert {j} - {j} == {};
  }

  lemma SendOne(c: Config, k: nat, j: nat, before: seq<Step>) returns (steps: seq<Step>)
    requires c.Ok() && 0 < j <= k <= c.concurrency
    requires CanRun(c, Init(), before) && RunTo(c, Init(), before) == Sent(k, j - 1)
    ensures CanRun(c, Init(), steps) && RunTo(c, Init(), steps) == Sent(k, j)
  {
    var e := Sent(k, j - 1);
    FetchOne(c, k, j);
    DeliverOne(c, k, j);
    ReleaseOne(c, k, j);
    steps, e := Extend(c, before, e, FetchDone(Plain(j)));
    steps, e := Extend(c, steps, e, Send(j));
    steps, e := Extend(c, steps, e, Release(j));
  }

  /** All slots' pages sent, one more launched, and the cancelled context wins
      the select. */
  lemma Overshoot(c: Config) returns (steps: seq<Step>)
    requires c.Ok() && Admits(c, c.concurrency + 1)
    ensures CanRun(c, Init(), steps)
    ensures var s := RunTo(c, Init(), steps); s.main.Head? && s.pending == c.concurrency + 1
  {
    var n := c.concurrency;
    steps := SendPages(c, n, n);
    var e := Sent(n, n);
    steps, e := Extend(c, steps, e, LimiterPass);
    steps, e := Extend(c, steps, e, Admit);
    steps, e := Extend(c, steps, e, Acquire);
    steps, e := Extend(c, steps, e, Cancel);
    steps, e := Extend(c, steps, e, SelectCancelled);
  }

  ghost predicate Overshoots(c: Config, steps: seq<Step>) {
    && CanRun(c, Init(), steps)
    && var s := RunTo(c, Init(), steps);
       s.main.Head? && s.pending > c.concurrency
  }

  /** A loop head with more than `concurrency` pages pending can be reached
      exactly when the page limit lets that many be launched. */
  lemma PendingOvershoot(c: Config)
    requires c.Ok()
    ensures (exists steps :: Overshoots(c, steps)) <==> c.maxPages == 0 || c.maxPages > c.concurrency
  {
    if c.maxPages == 0 || c.maxPages > c.concurrency {
      var steps := Overshoot(c);
      assert Overshoots(c, steps);
    } else {
      forall steps | Overshoots(c, steps)
        ensures false
      {
        InitInv(c);
        RunInv(c, Init(), steps);
        RunExcess(c, Init(), steps);
      }
    }
  }
}
