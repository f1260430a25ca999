/** Why the scheduler stops, in every interleaving: never without a reason, always
    at an empty page or at the circuit breaker, and so also without a page limit
    when the source ends. */
module SchedulerStops {
  import opened Wrappers
  import opened Scheduler
  import opened SchedulerProofs

  // ---- what the totals count --------------------------------------------------------

  function Sum(ns: seq<nat>): nat {
    if ns == [] then 0 else ns[0] + Sum(ns[1..])
  }

  lemma {:induction false} SumAppend(ns: seq<nat>, n: nat)
    ensures Sum(ns + [n]) == Sum(ns) + n
  {
    if ns == [] {
      assert [n][1..] == [];
    } else {
      assert (ns + [n])[1..] == ns[1..] + [n];
      SumAppend(ns[1..], n);
    }
  }

  /** The positions of the failed pages. */
  function Failures(rs: seq<PageResult>): set<nat> {
    set i: nat | i < |rs| && rs[i].failed
  }

  lemma FailuresAppend(rs: seq<PageResult>, r: PageResult)
    ensures |Failures(rs + [r])| == |Failures(rs)| + if r.failed then 1 else 0
  {
    assert Failures(rs + [r]) == Failures(rs) + if r.failed then {|rs|} else {};
  }

  function PublishedOf(rs: seq<PageResult>): seq<nat> {
    seq(|rs|, i requires 0 <= i < |rs| => rs[i].published)
  }

  function ErrorsOf(rs: seq<PageResult>): seq<nat> {
    seq(|rs|, i requires 0 <= i < |rs| => rs[i].pubErrs)
  }

  /** Pages are counted, articles and errors added up, failures counted. */
  lemma {:induction false} TotalsAre(rs: seq<PageResult>)
    ensures SumUp(rs) == Totals(|rs|, Sum(PublishedOf(rs)), Sum(ErrorsOf(rs)), |Failures(rs)|)
  {
    if rs != [] {
      var front, r := rs[..|rs| - 1], rs[|rs| - 1];
      TotalsAre(front);
      assert rs == front + [r];
      FailuresAppend(front, r);
      assert PublishedOf(rs) == PublishedOf(front) + [r.published];
      assert ErrorsOf(rs) == ErrorsOf(front) + [r.pubErrs];
      SumAppend(PublishedOf(front), r.published);
      SumAppend(ErrorsOf(front), r.pubErrs);
    }
  }

  // ---- when it stops ------------------------------------------------------------------

  ghost predicate EmptySeen(rs: seq<PageResult>) {
    exists i | 0 <= i < |rs| :: rs[i].empty
  }

  /** What can stop the launcher. */
  ghost predicate Reason(c: Config, s: State) {
    || EmptySeen(s.absorbed)
    || |Failures(s.absorbed)| >= c.maxPageFailures
    || s.cancelled
    || (c.maxPages > 0 && s.nextPage > c.maxPages)
  }

  /** It stops only for a reason, and it does not go on after an empty page or with
      too many failures. */
  ghost predicate StopsRight(c: Config, s: State) {
    && (s.stop ==> Reason(c, s))
    && (InLoop(s) && !s.stop ==> !EmptySeen(s.absorbed) && |Failures(s.absorbed)| < c.maxPageFailures)
    && (s.main.Draining? || s.main.Returned? ==> s.stop)
  }

  lemma EmptyAppend(rs: seq<PageResult>, r: PageResult)
    ensures EmptySeen(rs + [r]) <==> EmptySeen(rs) || r.empty
  {
    if EmptySeen(rs) {
      var i :| 0 <= i < |rs| && rs[i].empty;
      assert (rs + [r])[i].empty;
    }
    assert (rs + [r])[|rs|] == r;
  }

  lemma AbsorbStops(c: Config, s: State, step: Step)
    requires Inv(c, s) && StopsRight(c, s) && Enabled(c, s, step) && (step.SelectResult? || step.DrainResult?)
    ensures StopsRight(c, Apply(c, s, step))
  {
    var r, s' := s.buffer[0], Apply(c, s, step);
    EmptyAppend(s.absorbed, r);
    FailuresAppend(s.absorbed, r);
    TotalsAre(s.absorbed);
    assert s'.absorbed == s.absorbed + [r];
  }

  lemma StepStops(c: Config, s: State, step: Step)
    requires Inv(c, s) && StopsRight(c, s) && Enabled(c, s, step)
    ensures StopsRight(c, Apply(c, s, step))
  {
    if step.SelectResult? || step.DrainResult? {
      AbsorbStops(c, s, step);
    } else {
      assert Apply(c, s, step).absorbed == s.absorbed;
    }
  }

  lemma {:induction false} RunStops(c: Config, s: State, steps: seq<Step>)
    requires c.Ok() && Inv(c, s) && StopsRight(c, s) && CanRun(c, s, steps)
    ensures Inv(c, RunTo(c, s, steps)) && StopsRight(c, RunTo(c, s, steps))
    decreases |steps|
  {
    if steps != [] {
      StepInv(c, s, steps[0]);
      StepStops(c, s, steps[0]);
      RunStops(c, Apply(c, s, steps[0]), steps[1..]);
    }
  }

  /** In every run: the launcher stops only if an absorbed page was empty, the
      failures reached the breaker, the context was cancelled or the page limit was
      passed; and it is stopped as soon as an absorbed page was empty or the
      failures reached the breaker. */
  lemma StopsForAReason(c: Config, steps: seq<Step>)
    requires c.Ok() && CanRun(c, Init(), steps)
    ensures var s := RunTo(c, Init(), steps);
      && (s.stop ==> Reason(c, s))
      && (InLoop(s) && (EmptySeen(s.absorbed) || |Failures(s.absorbed)| >= c.maxPageFailures) ==> s.stop)
      && (s.main.Draining? || s.main.Returned? ==> Reason(c, s))
  {
    InitInv(c);
    RunStops(c, Init(), steps);
  }

  // ---- a source that ends ----------------------------------------------------------------

  /** Every page from `end` on comes back empty, or fails. */
  predicate Ends(end: nat, r: PageResult) {
    r.page >= end ==> r.empty || r.failed
  }

  ghost predicate SourceEnds(end: nat, steps: seq<Step>) {
    forall i | 0 <= i < |steps| && steps[i].FetchDone? :: Ends(end, steps[i].result)
  }

  /** So have all results so far. */
  ghost predicate Ended(end: nat, s: State) {
    && (forall p | p in s.sending :: Ends(end, s.sending[p]))
    && (forall i | 0 <= i < |s.absorbed + s.buffer| :: Ends(end, (s.absorbed + s.buffer)[i]))
  }

  lemma StepEnded(c: Config, s: State, step: Step, end: nat)
    requires Ended(end, s) && Enabled(c, s, step) && (step.FetchDone? ==> Ends(end, step.result))
    ensures Ended(end, Apply(c, s, step))
  {
    var s' := Apply(c, s, step);
    if step.Send? {
      assert s'.absorbed + s'.buffer == s.absorbed + s.buffer + [s.sending[step.page]];
    } else {
      assert s'.absorbed + s'.buffer == s.absorbed + s.buffer;
    }
  }

  function Below(n: nat): (s: set<nat>)
    ensures |s| == n && forall i: nat :: i in s <==> i < n
  {
    if n == 0 then {} else Below(n - 1) + {n - 1}
  }

  lemma SubsetSize(a: set<nat>, b: set<nat>)
    requires a <= b
    ensures |a| <= |b|
  {
    assert b == a + (b - a);
  }

  /** The pages of results, each once. */
  function PagesOf(rs: seq<PageResult>): set<nat> {
    set i | 0 <= i < |rs| :: rs[i].page
  }

  lemma {:induction false} DistinctPages(rs: seq<PageResult>)
    requires Distinct(rs)
    ensures |PagesOf(rs)| == |rs|
  {
    if rs != [] {
      var front, r := rs[..|rs| - 1], rs[|rs| - 1];
      DistinctPages(front);
      assert r.page !in PagesOf(front);
      assert PagesOf(rs) == PagesOf(front) + {r.page};
    }
  }

  lemma MorePages(front: seq<PageResult>, r: PageResult, low: set<nat>)
    requires Distinct(front + [r])
    ensures Distinct(front)
    ensures |PagesOf(front + [r]) * low| == |PagesOf(front) * low| + if r.page in low then 1 else 0
  {
    var rs := front + [r];
    assert rs[|front|] == r && forall i | 0 <= i < |front| :: rs[i] == front[i];
    assert r.page !in PagesOf(front);
    assert PagesOf(rs) == PagesOf(front) + {r.page};
    assert PagesOf(rs) * low == PagesOf(front) * low + if r.page in low then {r.page} else {};
  }

  /** Results without an empty page come from pages below `end`, or failed. */
  lemma {:induction false} FewResults(rs: seq<PageResult>, end: nat)
    requires Distinct(rs) && !EmptySeen(rs) && forall i | 0 <= i < |rs| :: Ends(end, rs[i])
    ensures |rs| <= |PagesOf(rs) * Below(end)| + |Failures(rs)|
  {
    if rs != [] {
      var front, r := rs[..|rs| - 1], rs[|rs| - 1];
      assert rs == front + [r];
      MorePages(front, r, Below(end));
      EmptyAppend(front, r);
      FewResults(front, end);
      FailuresAppend(front, r);
      assert Ends(end, r);
    }
  }

  lemma UnionSize(a: set<nat>, b: set<nat>, c: set<nat>)
    requires a !! b !! c
    ensures |a + b + c| == |a| + |b| + |c|
  {}

  /** The pages that were sent are those of the results. */
  lemma SentCount(s: State)
    requires Results(s)
    ensures |s.releasing + s.exiting + s.gone| == |s.absorbed| + |s.buffer|
  {
    var rs, sent := s.absorbed + s.buffer, s.releasing + s.exiting + s.gone;
    DistinctPages(rs);
    assert forall p :: p in PagesOf(rs) <==> PageOf(rs, p);
    assert PagesOf(rs) == sent;
  }

  lemma FirstPages(pages: set<nat>, n: nat)
    requires forall p: nat :: p in pages <==> 1 <= p <= n
    ensures |pages| == n
  {
    assert pages == Below(n + 1) - {0};
  }

  lemma PartsOf(s: State)
    requires s.fetching !! s.sending.Keys !! s.releasing !! s.exiting !! s.gone
    ensures |Launched(s)| == |s.fetching| + |s.sending| + |s.releasing + s.exiting + s.gone|
  {
    var sent := s.releasing + s.exiting + s.gone;
    UnionSize(s.fetching, s.sending.Keys, sent);
    assert Launched(s) == s.fetching + s.sending.Keys + sent;
  }

  /** Launched pages are unabsorbed or absorbed. */
  lemma LaunchedCount(s: State)
    requires Workers(s) && Results(s)
    ensures s.nextPage - 1 == |s.absorbed| + Unabsorbed(s) + if s.main.Acquiring? then 1 else 0
  {
    SentCount(s);
    PartsOf(s);
    FirstPages(Launched(s), s.nextPage - 1 - if s.main.Acquiring? then 1 else 0);
  }

  /** The last page that can be launched when the source ends at page `end`. */
  function LastPage(c: Config, end: nat): nat {
    end + c.maxPageFailures + c.concurrency
  }

  lemma FewPages(c: Config, s: State, end: nat)
    requires c.Ok() && Inv(c, s) && StopsRight(c, s) && Ended(end, s) && s.main.Admitting?
    ensures s.nextPage <= LastPage(c, end)
  {
    LaunchedCount(s);
    assert s.absorbed == (s.absorbed + s.buffer)[..|s.absorbed|];
    assert forall i | 0 <= i < |s.absorbed| :: s.absorbed[i] == (s.absorbed + s.buffer)[i];
    FewResults(s.absorbed, end);
    SubsetSize(PagesOf(s.absorbed) * Below(end), Below(end));
  }

  lemma EndedStep(c: Config, s: State, step: Step, end: nat)
    requires c.Ok() && Inv(c, s) && StopsRight(c, s) && Ended(end, s) && Enabled(c, s, step)
    requires step.FetchDone? ==> Ends(end, step.result)
    ensures var s' := Apply(c, s, step);
      && Inv(c, s') && StopsRight(c, s') && Ended(end, s')
      && Measure(LastPage(c, end), s') < Measure(LastPage(c, end), s)
  {
    if step.Admit? {
      FewPages(c, s, end);
    }
    StepDecreases(c, LastPage(c, end), s, step);
    StepInv(c, s, step);
    StepStops(c, s, step);
    StepEnded(c, s, step, end);
  }

  /** When the source ends, every schedule is finite, also without a page limit. */
  lemma {:induction false} EndedRunsAreBounded(c: Config, s: State, steps: seq<Step>, end: nat)
    requires c.Ok() && Inv(c, s) && StopsRight(c, s) && Ended(end, s) && CanRun(c, s, steps) && SourceEnds(end, steps)
    ensures |steps| + Measure(LastPage(c, end), RunTo(c, s, steps)) <= Measure(LastPage(c, end), s)
    decreases |steps|
  {
    if steps != [] {
      EndedStep(c, s, steps[0], end);
      EndedRunsAreBounded(c, Apply(c, s, steps[0]), steps[1..], end);
    }
  }

  /** And it takes at most so many steps. */
  lemma EndedRunLength(c: Config, steps: seq<Step>, end: nat)
    requires c.Ok() && CanRun(c, Init(), steps) && SourceEnds(end, steps)
    ensures |steps| <= 20 * (end + c.maxPageFailures + c.concurrency) + 10
  {
    InitInv(c);
    EndedRunsAreBounded(c, Init(), steps, end);
  }
}
