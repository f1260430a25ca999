/** go-crawler/internal/stream/stream.go: any number of publishers share the
    `seen:` set, the stream, the `produced` counter and the cursor hash. Each
    Redis script is one atomic step. */
module Stream {
  import opened Wrappers
  import opened Timestamp

  /** `hash` is the URL's; `published` is None for the zero time. */
  datatype Article = Article(hash: string, source: string, published: Option<Time>)

  datatype Redis = Redis(seen: set<string>, entries: seq<Article>, produced: nat, cursor: map<string, string>)

  // ---- the scripts --------------------------------------------------------------------

  /** `dedupScript`, without trimming. */
  function Deduped(r: Redis, a: Article): Redis {
    if a.hash in r.seen then r else r.(seen := r.seen + {a.hash}, entries := r.entries + [a])
  }

  function Counted(r: Redis, ok: bool): Redis {
    r.(produced := r.produced + if ok then 1 else 0)
  }

  function CursorAfter(cursor: map<string, string>, source: string, ts: string): map<string, string> {
    if source !in cursor || Less(cursor[source], ts) then cursor[source := ts] else cursor
  }

  /** `advanceCursor`; ok is false when the call fails. */
  function Advanced(r: Redis, a: Article, ok: bool): Redis {
    if a.published.None? || !ok then r
    else r.(cursor := CursorAfter(r.cursor, a.source, Format(a.published.value)))
  }

  // ---- one publisher --------------------------------------------------------------------

  /** What the client learns of the script: an answer, or an error with or
      without the script having run. */
  datatype Reply = Answer | Lost(executed: bool)

  datatype Outcome = New | Known | Failed

  /** What one `Publish` leaves behind. */
  function Published(r: Redis, a: Article, outcome: Outcome, executed: bool, countOk: bool, cursorOk: bool): Redis {
    match outcome
    case Failed => if executed then Deduped(r, a) else r
    case Known => r
    case New =>
      var counted := Counted(Deduped(r, a), countOk);
      if a.source != "" then Advanced(counted, a, cursorOk) else counted
  }

  class Producer {
    var seen: set<string>
    var entries: seq<Article>
    var produced: nat
    var cursor: map<string, string>

    ghost function Contents(): Redis
      reads this
    {
      Redis(seen, entries, produced, cursor)
    }

    constructor ()
      ensures Contents() == Redis({}, [], 0, map[])
    {
      seen, entries, produced, cursor := {}, [], 0, map[];
    }

    method RunDedup(a: Article) returns (added: bool)
      modifies this
      ensures added <==> a.hash !in old(seen)
      ensures Contents() == Deduped(old(Contents()), a)
    {
      if a.hash in seen {
        return false;
      }
      seen := seen + {a.hash};
      entries := entries + [a];
      added := true;
    }

    method Publish(a: Article, reply: Reply, countOk: bool, cursorOk: bool) returns (outcome: Outcome)
      modifies this
      ensures outcome == if reply.Lost? then Failed else if a.hash in old(seen) then Known else New
      ensures Contents() == Published(old(Contents()), a, outcome, reply == Lost(true), countOk, cursorOk)
    {
      if reply == Lost(false) {
        return Failed;
      }
      var added := RunDedup(a);
      if reply.Lost? {
        return Failed;
      }
      if !added {
        return Known;
      }
      if countOk {
        produced := produced + 1;
      }
      if a.source != "" {
        AdvanceCursor(a, cursorOk);
      }
      outcome := New;
    }

    method AdvanceCursor(a: Article, ok: bool)
      modifies this
      ensures Contents() == Advanced(old(Contents()), a, ok)
    {
      if a.published.None? {
        return;
      }
      var ts := Format(a.published.value);
      if ok {
        if a.source !in cursor || Less(cursor[a.source], ts) {
          cursor := cursor[a.source := ts];
        }
      }
    }
  }

  // ---- interleaved publishers ---------------------------------------------------------------

  /** Redis, the articles whose publishers have yet to count them or to advance
      the cursor, and every advance made. */
  datatype System = System(
    redis: Redis, counting: multiset<Article>, advancing: multiset<Article>, advanced: seq<Article>)

  datatype Step =
    | Script(article: Article, replied: bool)
    | Count(article: Article, ok: bool)
    | Advance(article: Article, ok: bool)

  function Idle(r: Redis): System {
    System(r, multiset{}, multiset{}, [])
  }

  predicate CanTake(sys: System, step: Step) {
    match step
    case Script(_, _) => true
    case Count(a, _) => a in sys.counting
    case Advance(a, _) => a in sys.advancing
  }

  function Take(sys: System, step: Step): System {
    match step
    case Script(a, replied) =>
      sys.(redis := Deduped(sys.redis, a),
           counting := if replied && a.hash !in sys.redis.seen then sys.counting + multiset{a} else sys.counting)
    case Count(a, ok) =>
      sys.(redis := Counted(sys.redis, ok), counting := sys.counting - multiset{a},
           advancing := if a.source != "" then sys.advancing + multiset{a} else sys.advancing)
    case Advance(a, ok) =>
      sys.(redis := Advanced(sys.redis, a, ok), advancing := sys.advancing - multiset{a},
           advanced := if a.published.Some? && ok then sys.advanced + [a] else sys.advanced)
  }

  function Play(sys: System, steps: seq<Step>): System {
    if steps == [] then sys else Take(Play(sys, steps[..|steps| - 1]), steps[|steps| - 1])
  }

  predicate CanPlay(sys: System, steps: seq<Step>) {
    steps == [] ||
    (CanPlay(sys, steps[..|steps| - 1]) && CanTake(Play(sys, steps[..|steps| - 1]), steps[|steps| - 1]))
  }

  /** The steps of one `Publish` without anyone in between. */
  function PublishSteps(a: Article, outcome: Outcome, executed: bool, countOk: bool, cursorOk: bool): seq<Step> {
    match outcome
    case Failed => if executed then [Script(a, false)] else []
    case Known => [Script(a, true)]
    case New => [Script(a, true), Count(a, countOk)] + if a.source != "" then [Advance(a, cursorOk)] else []
  }

  lemma PlayMore(sys: System, steps: seq<Step>, step: Step)
    ensures Play(sys, steps + [step]) == Take(Play(sys, steps), step)
    ensures CanPlay(sys, steps + [step]) <==> CanPlay(sys, steps) && CanTake(Play(sys, steps), step)
  {
    assert (steps + [step])[..|steps|] == steps;
  }

  lemma PlayOne(sys: System, x: Step)
    ensures Play(sys, [x]) == Take(sys, x) && (CanPlay(sys, [x]) <==> CanTake(sys, x))
  {
    PlayMore(sys, [], x);
    assert [] + [x] == [x];
  }

  lemma PlayTwo(sys: System, x: Step, y: Step)
    ensures Play(sys, [x, y]) == Take(Take(sys, x), y)
    ensures CanPlay(sys, [x, y]) <==> CanTake(sys, x) && CanTake(Take(sys, x), y)
  {
    PlayOne(sys, x);
    PlayMore(sys, [x], y);
    assert [x] + [y] == [x, y];
  }

  /** A publisher alone is one interleaving of the shared steps. */
  lemma PublishIsSteps(r: Redis, a: Article, outcome: Outcome, executed: bool, countOk: bool, cursorOk: bool)
    requires outcome == New ==> a.hash !in r.seen
    requires outcome == Known ==> a.hash in r.seen
    ensures var steps := PublishSteps(a, outcome, executed, countOk, cursorOk);
      && CanPlay(Idle(r), steps) && Play(Idle(r), steps).redis == Published(r, a, outcome, executed, countOk, cursorOk)
      && Play(Idle(r), steps).counting == Play(Idle(r), steps).advancing == multiset{}
  {
    match outcome
    case Failed =>
      PlayOne(Idle(r), Script(a, false));
    case Known =>
      PlayOne(Idle(r), Script(a, true));
    case New =>
      NewIsSteps(r, a, countOk, cursorOk);
  }

  lemma NewIsSteps(r: Redis, a: Article, countOk: bool, cursorOk: bool)
    requires a.hash !in r.seen
    ensures var steps := PublishSteps(a, New, true, countOk, cursorOk);
      && CanPlay(Idle(r), steps) && Play(Idle(r), steps).redis == Published(r, a, New, true, countOk, cursorOk)
      && Play(Idle(r), steps).counting == Play(Idle(r), steps).advancing == multiset{}
  {
    var s, c, v := Script(a, true), Count(a, countOk), Advance(a, cursorOk);
    PlayTwo(Idle(r), s, c);
    PlayMore(Idle(r), [s, c], v);
    if a.source == "" {
      assert PublishSteps(a, New, true, countOk, cursorOk) == [s, c];
    } else {
      assert PublishSteps(a, New, true, countOk, cursorOk) == [s, c] + [v];
    }
  }

  predicate IsCount(step: Step, a: Article) {
    step.Count? && step.article == a
  }

  predicate IsAdvance(step: Step, a: Article) {
    step.Advance? && step.article == a
  }

  /** The positions of the steps that count an article, and that advance its cursor. */
  function CountsOf(steps: seq<Step>, a: Article): set<nat> {
    set i: nat | i < |steps| && IsCount(steps[i], a)
  }

  function AdvancesOf(steps: seq<Step>, a: Article): set<nat> {
    set i: nat | i < |steps| && IsAdvance(steps[i], a)
  }

  lemma OneMoreCount(front: seq<Step>, last: Step, a: Article)
    ensures |CountsOf(front + [last], a)| == |CountsOf(front, a)| + if IsCount(last, a) then 1 else 0
  {
    assert CountsOf(front + [last], a) == CountsOf(front, a) + if IsCount(last, a) then {|front|} else {};
  }

  lemma OneMoreAdvance(front: seq<Step>, last: Step, a: Article)
    ensures |AdvancesOf(front + [last], a)| == |AdvancesOf(front, a)| + if IsAdvance(last, a) then 1 else 0
  {
    assert AdvancesOf(front + [last], a) == AdvancesOf(front, a) + if IsAdvance(last, a) then {|front|} else {};
  }

  lemma StepAdvancing(sys: System, step: Step, a: Article)
    requires CanTake(sys, step)
    ensures Take(sys, step).advancing[a] + (if IsAdvance(step, a) then 1 else 0)
         == sys.advancing[a] + if IsCount(step, a) && a.source != "" then 1 else 0
  {}

  /** Whatever the interleaving, the cursor is advanced once for each time an article
      with a source was counted, or is still to be, and never for one without. */
  lemma {:induction false} AdvancedPerCount(r: Redis, steps: seq<Step>, a: Article)
    requires CanPlay(Idle(r), steps)
    ensures |AdvancesOf(steps, a)| + Play(Idle(r), steps).advancing[a]
         == if a.source != "" then |CountsOf(steps, a)| else 0
  {
    if steps != [] {
      var front, last := steps[..|steps| - 1], steps[|steps| - 1];
      AdvancedPerCount(r, front, a);
      assert steps == front + [last];
      StepAdvancing(Play(Idle(r), front), last, a);
      OneMoreCount(front, last, a);
      OneMoreAdvance(front, last, a);
    } else {
      assert CountsOf(steps, a) == {} && AdvancesOf(steps, a) == {};
    }
  }

  // ---- dedup -----------------------------------------------------------------------------------

  ghost predicate DistinctHashes(entries: seq<Article>) {
    forall i, j | 0 <= i < j < |entries| :: entries[i].hash != entries[j].hash
  }

  /** Each hash is in the stream at most once, and the set knows exactly the
      hashes in the stream. */
  ghost predicate Deduplicated(r: Redis) {
    && DistinctHashes(r.entries) && |r.seen| == |r.entries|
    && (forall i | 0 <= i < |r.entries| :: r.entries[i].hash in r.seen)
    && forall h | h in r.seen :: HasHash(r.entries, h)
  }

  ghost predicate HasHash(entries: seq<Article>, h: string) {
    exists i | 0 <= i < |entries| :: entries[i].hash == h
  }

  lemma DedupKeeps(r: Redis, a: Article)
    requires Deduplicated(r)
    ensures Deduplicated(Deduped(r, a))
  {
    if a.hash !in r.seen {
      var r' := Deduped(r, a);
      forall h | h in r'.seen
        ensures HasHash(r'.entries, h)
      {
        if h == a.hash {
          assert r'.entries[|r.entries|].hash == h;
        } else {
          assert HasHash(r.entries, h);
          var i :| 0 <= i < |r.entries| && r.entries[i].hash == h;
          assert r'.entries[i].hash == h;
        }
      }
    }
  }

  /** In every interleaving the stream holds each URL hash at most once, as many
      entries as the set has members, and entries never go away. */
  lemma {:induction false} PublishedOnce(sys: System, steps: seq<Step>)
    requires Deduplicated(sys.redis)
    ensures Deduplicated(Play(sys, steps).redis)
    ensures sys.redis.entries <= Play(sys, steps).redis.entries
  {
    if steps != [] {
      var front, last := steps[..|steps| - 1], steps[|steps| - 1];
      PublishedOnce(sys, front);
      if last.Script? {
        DedupKeeps(Play(sys, front).redis, last.article);
      }
    }
  }

  /** How a step leaves an entry that `produced` will never count: a lost reply
      or a failed increment. */
  predicate Miscounts(sys: System, step: Step) {
    match step
    case Script(a, replied) => !replied && a.hash !in sys.redis.seen
    case Count(_, ok) => !ok
    case Advance(_, _) => false
  }

  function Uncounted(sys: System, steps: seq<Step>): nat {
    if steps == [] then 0
    else
      var front, last := steps[..|steps| - 1], steps[|steps| - 1];
      Uncounted(sys, front) + if Miscounts(Play(sys, front), last) then 1 else 0
  }

  /** Entries that are neither counted nor about to be. */
  function Gap(sys: System): int {
    |sys.redis.entries| - sys.redis.produced - |sys.counting|
  }

  lemma StepGap(sys: System, step: Step)
    requires CanTake(sys, step)
    ensures Gap(Take(sys, step)) == Gap(sys) + if Miscounts(sys, step) then 1 else 0
  {
    match step
    case Script(a, replied) =>
      assert |sys.counting + multiset{a}| == |sys.counting| + 1;
    case Count(a, ok) =>
      assert |sys.counting - multiset{a}| == |sys.counting| - 1;
    case Advance(_, _) =>
  }

  /** The `produced` counter, together with the counts still to come and the
      miscounted steps, is the number of entries. */
  lemma {:induction false} ProducedCounts(sys: System, steps: seq<Step>)
    requires CanPlay(sys, steps)
    ensures Gap(Play(sys, steps)) == Gap(sys) + Uncounted(sys, steps)
  {
    if steps != [] {
      var front, last := steps[..|steps| - 1], steps[|steps| - 1];
      ProducedCounts(sys, front);
      StepGap(Play(sys, front), last);
    }
  }

  // ---- the cursor --------------------------------------------------------------------------------

  /** The source's cursor is the greatest string advanced so far. */
  ghost predicate GreatestString(sys: System, source: string) {
    && (source in sys.redis.cursor ==> Reached(sys, source))
    && forall i | 0 <= i < |sys.advanced| && sys.advanced[i].source == source ::
         && source in sys.redis.cursor && sys.advanced[i].published.Some?
         && !Less(sys.redis.cursor[source], Format(sys.advanced[i].published.value))
  }

  /** Some advance wrote the cursor. */
  ghost predicate Reached(sys: System, source: string) {
    exists i | 0 <= i < |sys.advanced| :: Wrote(sys, source, i)
  }

  predicate Wrote(sys: System, source: string, i: nat) {
    && i < |sys.advanced| && sys.advanced[i].source == source && source in sys.redis.cursor
    && sys.advanced[i].published.Some? && Format(sys.advanced[i].published.value) == sys.redis.cursor[source]
  }

  lemma {:induction false} LessTransitive(a: string, b: string, c: string)
    requires Less(a, b) && Less(b, c)
    ensures Less(a, c)
  {
    if a != "" && a[0] == b[0] == c[0] {
      LessTransitive(a[1..], b[1..], c[1..]);
    }
  }

  lemma {:induction false} LessTotal(a: string, b: string)
    ensures Less(a, b) || Less(b, a) || a == b
    ensures !(Less(a, b) && Less(b, a))
  {
    if a != "" && b != "" {
      LessTotal(a[1..], b[1..]);
      assert a == [a[0]] + a[1..] && b == [b[0]] + b[1..];
    }
  }

  lemma AdvanceKeepsGreatest(sys: System, a: Article, ok: bool, source: string)
    requires GreatestString(sys, source)
    ensures GreatestString(Take(sys, Advance(a, ok)), source)
  {
    var sys' := Take(sys, Advance(a, ok));
    if a.published.Some? && ok && a.source == source {
      var ts, n := Format(a.published.value), |sys.advanced|;
      LessIrreflexive(ts);
      if source !in sys.redis.cursor || Less(sys.redis.cursor[source], ts) {
        assert Wrote(sys', source, n);
        forall i | 0 <= i < n && sys.advanced[i].source == source
          ensures !Less(ts, Format(sys.advanced[i].published.value))
        {
          var f := Format(sys.advanced[i].published.value);
          if Less(ts, f) {
            LessTransitive(sys.redis.cursor[source], ts, f);
          }
        }
      } else {
        OldWrote(sys, sys', source);
      }
    } else if source in sys.redis.cursor {
      OldWrote(sys, sys', source);
    }
  }

  lemma OldWrote(sys: System, sys': System, source: string)
    requires Reached(sys, source) && source in sys.redis.cursor && source in sys'.redis.cursor
    requires sys.advanced <= sys'.advanced && sys.redis.cursor[source] == sys'.redis.cursor[source]
    ensures Reached(sys', source)
  {
    var i :| 0 <= i < |sys.advanced| && Wrote(sys, source, i);
    assert Wrote(sys', source, i);
  }

  lemma {:induction false} CursorIsGreatest(r: Redis, steps: seq<Step>, source: string)
    requires r.cursor == map[]
    ensures GreatestString(Play(Idle(r), steps), source)
  {
    if steps != [] {
      var front, last := steps[..|steps| - 1], steps[|steps| - 1];
      CursorIsGreatest(r, front, source);
      var before := Play(Idle(r), front);
      if last.Advance? {
        AdvanceKeepsGreatest(before, last.article, last.ok, source);
      } else if source in before.redis.cursor {
        OldWrote(before, Take(before, last), source);
      }
    }
  }

  /** The i-th advance is the source's, to time t. */
  predicate AdvancedAt(sys: System, source: string, i: nat, t: Time) {
    i < |sys.advanced| && sys.advanced[i].source == source && sys.advanced[i].published == Some(t)
  }

  /** All times of the source have four-digit years. */
  ghost predicate OrdinaryTimes(sys: System, source: string) {
    forall i | 0 <= i < |sys.advanced| && sys.advanced[i].source == source ::
      sys.advanced[i].published.Some? && Ordinary(sys.advanced[i].published.value)
  }

  /** t is the latest time among the first k advances. */
  ghost predicate LatestOf(sys: System, source: string, k: nat, t: Time) {
    && (exists i: nat | i < k :: AdvancedAt(sys, source, i, t))
    && forall j: nat, u | j < k && AdvancedAt(sys, source, j, u) :: !Before(t, u)
  }

  ghost predicate Latest(sys: System, source: string, t: Time) {
    LatestOf(sys, source, |sys.advanced|, t)
  }

  /** No advanced time of the source is confused with t. */
  ghost predicate Clear(sys: System, source: string, t: Time) {
    forall j: nat, u | AdvancedAt(sys, source, j, u) :: !Confused(t, u)
  }

  lemma NotBeforeSelf(t: Time)
    ensures !Before(t, t)
  {
    NotBeforeItself(Fields(t));
  }

  /** A source that has been advanced has a latest time. */
  lemma {:induction false} LatestExists(sys: System, source: string, k: nat) returns (t: Option<Time>)
    requires k <= |sys.advanced| && OrdinaryTimes(sys, source)
    ensures match t
      case Some(time) => Ordinary(time) && LatestOf(sys, source, k, time)
      case None => forall i | 0 <= i < k :: sys.advanced[i].source != source
  {
    t := None;
    if k > 0 {
      t := LatestExists(sys, source, k - 1);
      var a := sys.advanced[k - 1];
      if a.source == source {
        var u := a.published.value;
        assert AdvancedAt(sys, source, k - 1, u);
        NotBeforeSelf(u);
        if t.None? || Before(t.value, u) {
          LaterOne(sys, source, k - 1, t, u);
          t := Some(u);
        }
      }
    }
  }

  lemma LaterOne(sys: System, source: string, k: nat, t: Option<Time>, u: Time)
    requires match t
      case Some(time) => LatestOf(sys, source, k, time) && Before(time, u)
      case None => k <= |sys.advanced| && forall i | 0 <= i < k :: sys.advanced[i].source != source
    ensures forall j: nat, v | j < k && AdvancedAt(sys, source, j, v) :: !Before(u, v)
  {
    forall j: nat, v | j < k && AdvancedAt(sys, source, j, v)
      ensures !Before(u, v)
    {
      if Before(u, v) && t.Some? {
        BeforeTransitive(t.value, u, v);
      }
    }
  }

  /** In every interleaving, the cursor is the source's latest time if and only if
      no advanced time of the source is confused with that one. */
  lemma CursorExactly(r: Redis, steps: seq<Step>, source: string, t: Time)
    requires r.cursor == map[] && OrdinaryTimes(Play(Idle(r), steps), source) && Latest(Play(Idle(r), steps), source, t)
    ensures var sys := Play(Idle(r), steps);
      && source in sys.redis.cursor
      && (sys.redis.cursor[source] == Format(t) <==> Clear(sys, source, t))
  {
    var sys := Play(Idle(r), steps);
    CursorIsGreatest(r, steps, source);
    var k: nat :| AdvancedAt(sys, source, k, t);
    assert AdvancedAt(sys, source, k, t);
    forall j: nat, u | AdvancedAt(sys, source, j, u)
      ensures !Before(t, u) && Ordinary(u) && !Less(sys.redis.cursor[source], Format(u))
      ensures Less(Format(t), Format(u)) <==> Confused(t, u)
    {
      assert sys.advanced[j].published.value == u;
      OrderExactly(t, u);
    }
    if Clear(sys, source, t) {
      var i :| 0 <= i < |sys.advanced| && Wrote(sys, source, i);
      assert AdvancedAt(sys, source, i, sys.advanced[i].published.value);
      LessTotal(sys.redis.cursor[source], Format(t));
    }
  }

  /** So, as long as no two times of the source are confused, its cursor is the
      latest time advanced so far, and stands for no other. */
  lemma CursorIsLatest(r: Redis, steps: seq<Step>, source: string) returns (t: Time)
    requires r.cursor == map[] && OrdinaryTimes(Play(Idle(r), steps), source)
    requires source in Play(Idle(r), steps).redis.cursor
    requires forall i: nat, u | AdvancedAt(Play(Idle(r), steps), source, i, u) :: Clear(Play(Idle(r), steps), source, u)
    ensures Ordinary(t) && Latest(Play(Idle(r), steps), source, t)
    ensures Play(Idle(r), steps).redis.cursor[source] == Format(t)
    ensures forall u | Ordinary(u) && Format(u) == Play(Idle(r), steps).redis.cursor[source] :: u == t
  {
    var sys := Play(Idle(r), steps);
    CursorIsGreatest(r, steps, source);
    var i :| 0 <= i < |sys.advanced| && Wrote(sys, source, i);
    var found := LatestExists(sys, source, |sys.advanced|);
    t := found.value;
    CursorExactly(r, steps, source, t);
    var k: nat :| AdvancedAt(sys, source, k, t);
    forall u | Ordinary(u) && Format(u) == sys.redis.cursor[source]
      ensures u == t
    {
      FormatInjective(t, u);
    }
  }

  ghost predicate AdvancedTo(sys: System, source: string, ts: string) {
    exists i | 0 <= i < |sys.advanced| ::
      && sys.advanced[i].source == source && sys.advanced[i].published.Some?
      && Format(sys.advanced[i].published.value) == ts
  }

  /** Two interleavings that advance a source to the same strings leave it the
      same cursor, whatever the order. */
  lemma OrderDoesNotMatter(r: Redis, steps: seq<Step>, r': Redis, steps': seq<Step>, source: string)
    requires r.cursor == map[] == r'.cursor
    requires forall ts ::
      AdvancedTo(Play(Idle(r), steps), source, ts) <==> AdvancedTo(Play(Idle(r'), steps'), source, ts)
    ensures var c, c' := Play(Idle(r), steps).redis.cursor, Play(Idle(r'), steps').redis.cursor;
      (source in c <==> source in c') && (source in c ==> c[source] == c'[source])
  {
    var sys, sys' := Play(Idle(r), steps), Play(Idle(r'), steps');
    CursorIsGreatest(r, steps, source);
    CursorIsGreatest(r', steps', source);
    if source in sys.redis.cursor {
      NotAbove(sys, sys', source);
    }
    if source in sys'.redis.cursor {
      NotAbove(sys', sys, source);
    }
    if source in sys.redis.cursor {
      LessTotal(sys.redis.cursor[source], sys'.redis.cursor[source]);
    }
  }

  lemma NotAbove(sys: System, sys': System, source: string)
    requires GreatestString(sys, source) && GreatestString(sys', source) && source in sys.redis.cursor
    requires forall ts :: AdvancedTo(sys, source, ts) ==> AdvancedTo(sys', source, ts)
    ensures source in sys'.redis.cursor && !Less(sys'.redis.cursor[source], sys.redis.cursor[source])
  {
    var i :| 0 <= i < |sys.advanced| && Wrote(sys, source, i);
    assert AdvancedTo(sys, source, sys.redis.cursor[source]);
  }

  /** After advancing to t and then to u the cursor is the later of the two
      exactly when their strings are not confused. */
  lemma TwoAdvances(source: string, t: Time, u: Time)
    requires Ordinary(t) && Ordinary(u)
    ensures var c := CursorAfter(CursorAfter(map[], source, Format(t)), source, Format(u));
      c[source] == Format(if Before(t, u) then u else t) <==> !Confused(t, u)
  {
    OrderExactly(t, u);
    LessIrreflexive(Format(t));
    if Confused(t, u) && Format(t) == Format(u) {
      FormatInjective(t, u);
    }
  }

  /** A whole second and a later half of it: the cursor stays behind. */
  lemma CursorStaysBehind(source: string)
    ensures var t, u := Time(2024, 1, 1, 0, 0, 0, 0), Time(2024, 1, 1, 0, 0, 0, 500000000);
      Before(t, u) && CursorAfter(CursorAfter(map[], source, Format(t)), source, Format(u))[source] == Format(t)
  {
    var t, u := Time(2024, 1, 1, 0, 0, 0, 0), Time(2024, 1, 1, 0, 0, 0, 500000000);
    ZeroFraction(9);
    HalfFraction(u.nano);
    TwoAdvances(source, t, u);
    OrderExactly(t, u);
  }

  lemma {:induction false} ZeroFraction(w: nat)
    ensures DropZeros(Digits(0, w)) == ""
  {
    if w > 0 {
      ZeroFraction(w - 1);
      var s := Digits(0, w);
      assert s[..w - 1] == Digits(0, w - 1);
    }
  }

  lemma HalfFraction(n: nat)
    requires 0 < n < Pow10(9)
    ensures Fraction(n) != ""
  {
    if Fraction(n) == "" {
      ZeroFraction(9);
      SameFraction(n, 0);
    }
  }
}
