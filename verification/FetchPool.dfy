/** The pool of threads in fetch_one of py-processor/fetcher.py: one global
    limiter, one limiter per throttled host, and any interleaving of passes through
    them, requests and replies under a non-decreasing clock. */
module FetchPool {
  import opened Wrappers
  import opened TokenBucket

  /** Where a thread is in its loop: before the global limiter (sleeping until
      `from`), with a grant of it and before the host's, waiting for a reply, or
      back with an outcome. */
  datatype Phase =
    | Waiting(attempt: nat, from: real)
    | Holding(attempt: nat)
    | Sent(attempt: nat)
    | Over(outcome: Outcome)

  datatype Settings = Settings(retries: nat, cooldown: real, hostOf: nat -> Option<nat>)

  datatype Pool = Pool(bucket: Bucket, hosts: map<nat, Bucket>, threads: map<nat, Phase>)

  datatype Act =
    | Pass(thread: nat, now: real) // one pass of the loop in the global acquire
    | Send(thread: nat, now: real) // the host's limiter, then the request
    | Answer(thread: nat, now: real, reply: Reply, backoff: real)

  predicate Hosted(w: Settings, p: Pool, thread: nat) {
    w.hostOf(thread).Some? ==> w.hostOf(thread).value in p.hosts
  }

  predicate Enabled(w: Settings, p: Pool, act: Act) {
    && act.thread in p.threads && Hosted(w, p, act.thread)
    && var phase := p.threads[act.thread];
       match act
       case Pass(_, now) => phase.Waiting? && now >= phase.from
       case Send(_, _) => phase.Holding?
       case Answer(_, _, _, _) => phase.Sent?
  }

  /** The request really goes out. */
  predicate Goes(w: Settings, p: Pool, act: Act)
    requires Enabled(w, p, act)
  {
    act.Send? && (w.hostOf(act.thread).Some? ==> p.hosts[w.hostOf(act.thread).value].Attempt(act.now, 1.0).1)
  }

  function AfterReply(w: Settings, attempt: nat, now: real, reply: Reply, backoff: real): Phase {
    if !Retryable(reply) then Over(Verdict(reply))
    else if attempt >= w.retries then Over(GaveUp)
    else Waiting(attempt + 1, now + SleepAfter(reply, backoff))
  }

  function Apply(w: Settings, p: Pool, act: Act): Pool
    requires Enabled(w, p, act)
  {
    var t, phase, host := act.thread, p.threads[act.thread], w.hostOf(act.thread);
    match act
    case Pass(_, now) =>
      var (bucket, granted) := p.bucket.Attempt(now, 1.0);
      p.(bucket := bucket, threads := if granted then p.threads[t := Holding(phase.attempt)] else p.threads)
    case Send(_, now) =>
      p.(hosts := if host.Some? then p.hosts[host.value := p.hosts[host.value].Attempt(now, 1.0).0] else p.hosts,
         threads := if Goes(w, p, act) then p.threads[t := Sent(phase.attempt)] else p.threads)
    case Answer(_, now, reply, backoff) =>
      Pool(Punished(p.bucket, now, PoolPenalty(reply)),
           if host.Some? then
             p.hosts[host.value := Punished(p.hosts[host.value], now, HostPenalty(reply, phase.attempt, w.cooldown))]
           else p.hosts,
           p.threads[t := AfterReply(w, phase.attempt, now, reply, backoff)])
  }

  /** Another attempt, unless it was the last. */
  function Again(w: Settings, attempt: nat, from: real): Phase {
    if attempt < w.retries then Waiting(attempt + 1, from) else Over(GaveUp)
  }

  /** What each reply does to the thread. */
  lemma AnswerDecides(w: Settings, p: Pool, t: nat, now: real, reply: Reply, backoff: real)
    requires Enabled(w, p, Answer(t, now, reply, backoff))
    ensures var k, phase := p.threads[t].attempt, Apply(w, p, Answer(t, now, reply, backoff)).threads[t];
      match reply
      case NoResponse => phase == Again(w, k, now + backoff)
      case Response(200, body, _) => phase == Over(Text(body))
      case Response(404, _, _) => phase == Over(Gone(404))
      case Response(410, _, _) => phase == Over(Gone(410))
      case Response(429, _, Some(seconds)) => phase == Again(w, k, now + seconds)
      case Response(429, _, None) => phase == Again(w, k, now + backoff)
      case Response(403, _, _) => phase == Again(w, k, now + 2.0)
      case Response(status, _, _) => phase == if status >= 500 then Again(w, k, now + backoff) else Over(GaveUp)
  {}

  lemma BlockedHost(r: Reply, k: nat, cooldown: real)
    requires r.Response? && r.status == 403
    ensures HostPenalty(r, k, cooldown) == Some(cooldown * (k + 1) as real)
  {}

  /** And to the limiters: 429 empties and locks the global one, 403 the host's, and
      no other reply touches them. */
  lemma AnswerPunishes(w: Settings, p: Pool, t: nat, now: real, reply: Reply, backoff: real)
    requires Enabled(w, p, Answer(t, now, reply, backoff))
    ensures var k, p' := p.threads[t].attempt, Apply(w, p, Answer(t, now, reply, backoff));
      if reply.NoResponse? || reply.status !in {429, 403} then p'.bucket == p.bucket && p'.hosts == p.hosts
      else if reply.status == 429 then
        && p'.bucket == p.bucket.(tokens := 0.0,
                                  last := now + (if reply.retryAfter.Some? then reply.retryAfter.value else 5.0))
        && p'.hosts == p.hosts
      else
        && p'.bucket == p.bucket
        && (w.hostOf(t).None? ==> p'.hosts == p.hosts)
        && (w.hostOf(t).Some? ==>
              var h := w.hostOf(t).value;
              && h in p'.hosts && p'.hosts == p.hosts[h := p'.hosts[h]]
              && p'.hosts[h] == p.hosts[h].(tokens := 0.0, last := now + w.cooldown * (k + 1) as real))
  {
    var k, host := p.threads[t].attempt, w.hostOf(t);
    if reply.Response? && reply.status == 403 && host.Some? {
      BlockedHost(reply, k, w.cooldown);
    }
  }

  /** Non-decreasing times from t on; waits asked for are not negative. */
  predicate InOrder(t: real, acts: seq<Act>)
    decreases |acts|
  {
    acts == [] ||
    (&& t <= acts[0].now
     && (acts[0].Answer? ==> acts[0].backoff >= 0.0 && FairReply(acts[0].reply))
     && InOrder(acts[0].now, acts[1..]))
  }

  predicate FairReply(r: Reply) {
    r.Response? && r.retryAfter.Some? ==> r.retryAfter.value >= 0.0
  }

  predicate CanRun(w: Settings, p: Pool, acts: seq<Act>)
    decreases |acts|
  {
    acts == [] || (Enabled(w, p, acts[0]) && CanRun(w, Apply(w, p, acts[0]), acts[1..]))
  }

  // ---- what is counted --------------------------------------------------------------

  predicate Within(now: real, a: real, z: real) {
    a <= now <= z
  }

  /** Requests sent in the window [a, z]. */
  function Requests(w: Settings, p: Pool, acts: seq<Act>, a: real, z: real): nat
    requires CanRun(w, p, acts)
    decreases |acts|
  {
    if acts == [] then 0
    else
      (if Goes(w, p, acts[0]) && Within(acts[0].now, a, z) then 1 else 0)
      + Requests(w, Apply(w, p, acts[0]), acts[1..], a, z)
  }

  /** The same for one host. */
  function RequestsTo(w: Settings, p: Pool, acts: seq<Act>, h: nat, a: real, z: real): nat
    requires CanRun(w, p, acts)
    decreases |acts|
  {
    if acts == [] then 0
    else
      (if Goes(w, p, acts[0]) && w.hostOf(acts[0].thread) == Some(h) && Within(acts[0].now, a, z) then 1 else 0)
      + RequestsTo(w, Apply(w, p, acts[0]), acts[1..], h, a, z)
  }

  /** The same for one thread. */
  function RequestsOf(w: Settings, p: Pool, acts: seq<Act>, t: nat): nat
    requires CanRun(w, p, acts)
    decreases |acts|
  {
    if acts == [] then 0
    else
      (if Goes(w, p, acts[0]) && acts[0].thread == t then 1 else 0)
      + RequestsOf(w, Apply(w, p, acts[0]), acts[1..], t)
  }

  /** Threads with a grant of the global limiter that they have not used. */
  function Holders(p: Pool): set<nat> {
    set t | t in p.threads && p.threads[t].Holding?
  }

  /** Their number when the clock reaches a. */
  function HeldAt(w: Settings, p: Pool, acts: seq<Act>, a: real): nat
    requires CanRun(w, p, acts)
    decreases |acts|
  {
    if acts == [] || acts[0].now >= a then |Holders(p)| else HeldAt(w, Apply(w, p, acts[0]), acts[1..], a)
  }

  /** What an act is for the global limiter. */
  function PoolEvent(act: Act): seq<Event> {
    match act
    case Pass(_, now) => [Try(now, 1.0)]
    case Send(_, _) => []
    case Answer(_, now, reply, _) =>
      var penalty := PoolPenalty(reply);
      if penalty.Some? then [Penalty(now, penalty.value)] else []
  }

  function PoolEvents(acts: seq<Act>): seq<Event>
    decreases |acts|
  {
    if acts == [] then [] else PoolEvent(acts[0]) + PoolEvents(acts[1..])
  }

  /** And for the limiter of host h. */
  function HostEvent(w: Settings, p: Pool, act: Act, h: nat): seq<Event>
    requires Enabled(w, p, act)
  {
    if w.hostOf(act.thread) != Some(h) then []
    else
      match act
      case Pass(_, _) => []
      case Send(_, now) => [Try(now, 1.0)]
      case Answer(_, now, reply, _) =>
        var penalty := HostPenalty(reply, p.threads[act.thread].attempt, w.cooldown);
        if penalty.Some? then [Penalty(now, penalty.value)] else []
  }

  function HostEvents(w: Settings, p: Pool, acts: seq<Act>, h: nat): seq<Event>
    requires CanRun(w, p, acts)
    decreases |acts|
  {
    if acts == [] then [] else HostEvent(w, p, acts[0], h) + HostEvents(w, Apply(w, p, acts[0]), acts[1..], h)
  }

  // ---- one limiter's view -------------------------------------------------------------

  /** At most one event, and what it does. */
  predicate Mirrors(e: seq<Event>, b: Bucket, b': Bucket, now: real) {
    || (e == [] && b' == b)
    || (|e| == 1 && e[0].now == now && b' == After(b, e[0])
        && (if e[0].Try? then e[0].n == 1.0 else e[0].seconds >= 0.0))
  }

  function GrantOf(b: Bucket, e: seq<Event>): real {
    if e == [] then 0.0 else Grant(b, e[0])
  }

  lemma PoolMirrors(w: Settings, p: Pool, act: Act)
    requires Enabled(w, p, act) && InOrder(act.now, [act])
    ensures Mirrors(PoolEvent(act), p.bucket, Apply(w, p, act).bucket, act.now)
  {}

  lemma HostMirrors(w: Settings, p: Pool, act: Act, h: nat)
    requires Enabled(w, p, act) && InOrder(act.now, [act]) && w.cooldown >= 0.0 && h in p.hosts
    ensures h in Apply(w, p, act).hosts
    ensures Mirrors(HostEvent(w, p, act, h), p.hosts[h], Apply(w, p, act).hosts[h], act.now)
    ensures GrantOf(p.hosts[h], HostEvent(w, p, act, h))
         == if Goes(w, p, act) && w.hostOf(act.thread) == Some(h) then 1.0 else 0.0
  {
    if act.Answer? {
      ProductNonNegative(w.cooldown, (p.threads[act.thread].attempt + 1) as real);
    }
  }

  /** One more event in front. */
  lemma InFront(e: seq<Event>, es: seq<Event>, b: Bucket, b': Bucket, t: real, now: real, a: real, z: real)
    requires Mirrors(e, b, b', now) && t <= now && Chronological(now, es)
    ensures Chronological(t, e + es)
    ensures Granted(b, e + es, a, z) == (if Within(now, a, z) then GrantOf(b, e) else 0.0) + Granted(b', es, a, z)
  {
    if e == [] {
      assert e + es == es;
    } else {
      assert (e + es)[1..] == es;
    }
  }

  lemma OneAct(t: real, acts: seq<Act>)
    requires acts != [] && InOrder(t, acts)
    ensures t <= acts[0].now && InOrder(acts[0].now, [acts[0]]) && InOrder(acts[0].now, acts[1..])
  {
    assert [acts[0]][1..] == [];
  }

  lemma {:induction false} PoolChronological(w: Settings, p: Pool, acts: seq<Act>, t: real)
    requires CanRun(w, p, acts) && InOrder(t, acts)
    ensures Chronological(t, PoolEvents(acts))
    decreases |acts|
  {
    if acts != [] {
      OneAct(t, acts);
      PoolMirrors(w, p, acts[0]);
      PoolChronological(w, Apply(w, p, acts[0]), acts[1..], acts[0].now);
      InFront(PoolEvent(acts[0]), PoolEvents(acts[1..]), p.bucket, Apply(w, p, acts[0]).bucket, t, acts[0].now, t, t);
    }
  }

  // ---- conservation of grants ---------------------------------------------------------

  /** A request uses up a grant. */
  lemma HoldersStep(w: Settings, p: Pool, act: Act)
    requires Enabled(w, p, act)
    ensures (|Holders(Apply(w, p, act))| + if Goes(w, p, act) then 1 else 0) as real
         == |Holders(p)| as real + GrantOf(p.bucket, PoolEvent(act))
  {
    var p', t := Apply(w, p, act), act.thread;
    if p'.threads == p.threads {
      assert Holders(p') == Holders(p);
    } else if act.Pass? {
      assert Holders(p') == Holders(p) + {t};
    } else if act.Send? {
      assert Holders(p') == Holders(p) - {t};
    } else {
      assert Holders(p') == Holders(p);
    }
  }

  lemma {:induction false} NoneAfter(w: Settings, p: Pool, acts: seq<Act>, t: real, a: real, z: real)
    requires CanRun(w, p, acts) && InOrder(t, acts) && z < t
    ensures Requests(w, p, acts, a, z) == 0
    decreases |acts|
  {
    if acts != [] {
      NoneAfter(w, Apply(w, p, acts[0]), acts[1..], acts[0].now, a, z);
    }
  }

  lemma HeldNow(w: Settings, p: Pool, acts: seq<Act>, t: real, a: real)
    requires CanRun(w, p, acts) && InOrder(t, acts) && a <= t
    ensures HeldAt(w, p, acts, a) == |Holders(p)|
  {}

  /** Requests in a window come from grants held at its beginning or given in it. */
  lemma {:induction false} RequestsAreGranted(w: Settings, p: Pool, acts: seq<Act>, t: real, a: real, z: real)
    requires p.bucket.OkAt(t) && CanRun(w, p, acts) && InOrder(t, acts) && a <= z
    ensures Requests(w, p, acts, a, z) as real
         <= HeldAt(w, p, acts, a) as real + Granted(p.bucket, PoolEvents(acts), a, z)
    decreases |acts|
  {
    if acts != [] {
      var act, rest := acts[0], acts[1..];
      var p' := Apply(w, p, act);
      OneAct(t, acts);
      PoolMirrors(w, p, act);
      PoolChronological(w, p', rest, act.now);
      StaysOk(p.bucket, PoolEvent(act), p'.bucket, t, act.now);
      InFront(PoolEvent(act), PoolEvents(rest), p.bucket, p'.bucket, t, act.now, a, z);
      if act.now <= z {
        RequestsAreGranted(w, p', rest, act.now, a, z);
        HoldersStep(w, p, act);
        if act.now >= a {
          HeldNow(w, p', rest, act.now, a);
        }
      } else {
        NoneAfter(w, p', rest, act.now, a, z);
        GrantedNonNegative(p'.bucket, PoolEvents(rest), act.now, a, z);
      }
    }
  }

  lemma StaysOk(b: Bucket, e: seq<Event>, b': Bucket, t: real, now: real)
    requires b.OkAt(t) && t <= now && Mirrors(e, b, b', now)
    ensures b'.OkAt(now) && b'.rate == b.rate && b'.capacity == b.capacity
  {
    if e != [] {
      assert e[..1] == e && [e[0]][1..] == [];
      StepOk(b, e[0], t);
    }
  }

  // ---- the bounds ---------------------------------------------------------------------

  /** However many threads share the limiter, whatever the replies: the requests of
      any window [a, z] are at most the grants held unused at its beginning, plus
      capacity + rate * (z - a). */
  lemma RequestBound(w: Settings, p: Pool, acts: seq<Act>, t: real, a: real, z: real)
    requires p.bucket.OkAt(t) && CanRun(w, p, acts) && InOrder(t, acts) && a <= z
    ensures Requests(w, p, acts, a, z) as real
         <= HeldAt(w, p, acts, a) as real + p.bucket.capacity + Gain(p.bucket.rate, a, z)
  {
    RequestsAreGranted(w, p, acts, t, a, z);
    PoolChronological(w, p, acts, t);
    WindowBound(p.bucket, PoolEvents(acts), t, a, z);
  }

  /** Requests to a host are exactly what its limiter grants. */
  lemma {:induction false} HostRequestsAreGrants(w: Settings, p: Pool, acts: seq<Act>, t: real, h: nat,
                                                 a: real, z: real)
    requires h in p.hosts && w.cooldown >= 0.0 && CanRun(w, p, acts) && InOrder(t, acts)
    ensures Chronological(t, HostEvents(w, p, acts, h))
    ensures RequestsTo(w, p, acts, h, a, z) as real == Granted(p.hosts[h], HostEvents(w, p, acts, h), a, z)
    decreases |acts|
  {
    if acts != [] {
      var act, rest := acts[0], acts[1..];
      var p' := Apply(w, p, act);
      OneAct(t, acts);
      HostMirrors(w, p, act, h);
      HostRequestsAreGrants(w, p', rest, act.now, h, a, z);
      InFront(HostEvent(w, p, act, h), HostEvents(w, p', rest, h), p.hosts[h], p'.hosts[h], t, act.now, a, z);
    }
  }

  /** So for a host the plain bound holds. */
  lemma HostBound(w: Settings, p: Pool, acts: seq<Act>, t: real, h: nat, a: real, z: real)
    requires h in p.hosts && p.hosts[h].OkAt(t) && w.cooldown >= 0.0
    requires CanRun(w, p, acts) && InOrder(t, acts) && a <= z
    ensures RequestsTo(w, p, acts, h, a, z) as real <= p.hosts[h].capacity + Gain(p.hosts[h].rate, a, z)
  {
    HostRequestsAreGrants(w, p, acts, t, h, a, z);
    WindowBound(p.hosts[h], HostEvents(w, p, acts, h), t, a, z);
  }

  /** The requests a thread can still send. */
  function Tries(w: Settings, phase: Phase): int {
    match phase
    case Waiting(attempt, _) => w.retries + 1 - attempt
    case Holding(attempt) => w.retries + 1 - attempt
    case Sent(attempt) => w.retries - attempt
    case Over(_) => 0
  }

  /** A call of fetch_one sends at most retries + 1 requests, however the threads
      interleave. */
  lemma {:induction false} RetryBound(w: Settings, p: Pool, acts: seq<Act>, t: nat)
    requires CanRun(w, p, acts) && t in p.threads && Tries(w, p.threads[t]) >= 0
    requires p.threads[t].Waiting? || p.threads[t].Holding? ==> p.threads[t].attempt <= w.retries
    ensures RequestsOf(w, p, acts, t) <= Tries(w, p.threads[t])
    decreases |acts|
  {
    if acts != [] {
      RetryBound(w, Apply(w, p, acts[0]), acts[1..], t);
    }
  }

  // ---- the bound is sharp -----------------------------------------------------------

  function RunTo(w: Settings, p: Pool, acts: seq<Act>): Pool
    requires CanRun(w, p, acts)
    decreases |acts|
  {
    if acts == [] then p else RunTo(w, Apply(w, p, acts[0]), acts[1..])
  }

  predicate AllBefore(acts: seq<Act>, a: real) {
    forall i | 0 <= i < |acts| :: acts[i].now < a
  }

  /** What happens before a window. */
  lemma {:induction false} Prelude(w: Settings, p: Pool, acts: seq<Act>, more: seq<Act>, t: real, a: real, z: real)
    requires CanRun(w, p, acts) && InOrder(t, acts) && AllBefore(acts, a) && t <= a
    requires CanRun(w, RunTo(w, p, acts), more) && InOrder(a, more)
    ensures CanRun(w, p, acts + more) && InOrder(t, acts + more)
    ensures Requests(w, p, acts + more, a, z) == Requests(w, RunTo(w, p, acts), more, a, z)
    ensures HeldAt(w, p, acts + more, a) == |Holders(RunTo(w, p, acts))|
    decreases |acts|
  {
    if acts == [] {
      assert acts + more == more;
    } else {
      assert acts[0].now < a;
      assert (acts + more)[1..] == acts[1..] + more;
      Prelude(w, Apply(w, p, acts[0]), acts[1..], more, acts[0].now, a, z);
    }
  }

  /** Thread t is alone on its host, whose limiter has a token. */
  predicate Open(w: Settings, p: Pool, t: nat, now: real) {
    && w.hostOf(t) == Some(t) && t in p.hosts
    && p.hosts[t].Ok() && p.hosts[t].last <= now && p.hosts[t].tokens >= 1.0
  }

  lemma OpenGoes(w: Settings, p: Pool, t: nat, now: real)
    requires Open(w, p, t, now) && t in p.threads && p.threads[t].Holding?
    ensures Enabled(w, p, Send(t, now)) && Goes(w, p, Send(t, now))
  {
    GainSign(p.hosts[t].rate, p.hosts[t].last, now);
  }

  /** Threads first .. first + k may pass the global limiter. */
  predicate AllWaiting(w: Settings, p: Pool, first: nat, k: nat, now: real) {
    forall t: nat | first <= t < first + k ::
      t in p.threads && p.threads[t].Waiting? && p.threads[t].from <= now && Open(w, p, t, now)
  }

  predicate AllHolding(w: Settings, p: Pool, first: nat, k: nat, now: real) {
    forall t: nat | first <= t < first + k :: t in p.threads && p.threads[t].Holding? && Open(w, p, t, now)
  }

  /** They send at once. */
  function Burst(first: nat, k: nat, now: real): seq<Act>
    decreases k
  {
    if k == 0 then [] else [Send(first, now)] + Burst(first + 1, k - 1, now)
  }

  /** They pass the global limiter and send at once. */
  function Rush(first: nat, k: nat, now: real): seq<Act>
    decreases k
  {
    if k == 0 then [] else [Pass(first, now), Send(first, now)] + Rush(first + 1, k - 1, now)
  }

  /** The first n hold grants; all n + k send at once. */
  function Volley(first: nat, n: nat, k: nat, now: real): seq<Act> {
    Burst(first, n, now) + Rush(first + n, k, now)
  }

  /** They pass it one after the other, each when it has refilled. */
  function Gather(first: nat, k: nat, now: real, step: real): seq<Act>
    decreases k
  {
    if k == 0 then [] else [Pass(first, now)] + Gather(first + 1, k - 1, now + step, step)
  }

  function Later(now: real, k: nat, step: real): real
    decreases k
  {
    if k == 0 then now else Later(now + step, k - 1, step)
  }

  /** What the first thread's pass leaves to the others. */
  lemma PassKeeps(w: Settings, p: Pool, first: nat, k: nat, now: real)
    requires k > 0 && AllWaiting(w, p, first, k, now) && p.bucket.Attempt(now, 1.0).1
    ensures Enabled(w, p, Pass(first, now))
    ensures var p' := Apply(w, p, Pass(first, now));
      && p' == p.(bucket := p.bucket.Attempt(now, 1.0).0, threads := p.threads[first := p'.threads[first]])
      && p'.threads[first].Holding? && Open(w, p', first, now)
      && AllWaiting(w, p', first + 1, k - 1, now)
  {
    assert Open(w, p, first, now);
  }

  /** What its request leaves to them. */
  lemma SendKeeps(w: Settings, p: Pool, first: nat, n: nat, k: nat, now: real)
    requires first in p.threads && p.threads[first].Holding? && Open(w, p, first, now)
    requires AllHolding(w, p, first + 1, n, now) && AllWaiting(w, p, first + 1 + n, k, now)
    ensures Enabled(w, p, Send(first, now)) && Goes(w, p, Send(first, now))
    ensures var p' := Apply(w, p, Send(first, now));
      p'.bucket == p.bucket && AllHolding(w, p', first + 1, n, now) && AllWaiting(w, p', first + 1 + n, k, now)
  {
    OpenGoes(w, p, first, now);
  }

  lemma WaitLater(w: Settings, p: Pool, first: nat, k: nat, now: real, later: real)
    requires AllWaiting(w, p, first, k, now) && now <= later
    ensures AllWaiting(w, p, first, k, later)
  {}

  lemma OneSend(w: Settings, p: Pool, y: Act, rest: seq<Act>, now: real)
    requires y.Send? && y.now == now && InOrder(now, rest)
    requires Enabled(w, p, y) && Goes(w, p, y) && CanRun(w, Apply(w, p, y), rest)
    ensures CanRun(w, p, [y] + rest) && InOrder(now, [y] + rest)
    ensures Requests(w, p, [y] + rest, now, now) == 1 + Requests(w, Apply(w, p, y), rest, now, now)
  {
    assert ([y] + rest)[1..] == rest;
  }

  lemma TwoActs(w: Settings, p: Pool, x: Act, y: Act, rest: seq<Act>, now: real)
    requires x.Pass? && y.Send? && x.now == y.now == now && InOrder(now, rest)
    requires Enabled(w, p, x) && Enabled(w, Apply(w, p, x), y) && Goes(w, Apply(w, p, x), y)
    requires CanRun(w, Apply(w, Apply(w, p, x), y), rest)
    ensures CanRun(w, p, [x, y] + rest) && InOrder(now, [x, y] + rest)
    ensures Requests(w, p, [x, y] + rest, now, now)
         == 1 + Requests(w, Apply(w, Apply(w, p, x), y), rest, now, now)
  {
    var acts := [x, y] + rest;
    assert acts[1..] == [y] + rest && acts[1..][1..] == rest;
  }

  lemma {:induction false} RushSends(w: Settings, p: Pool, first: nat, k: nat, now: real)
    requires p.bucket.OkAt(now) && p.bucket.last <= now && p.bucket.Level(now) >= k as real
    requires AllWaiting(w, p, first, k, now)
    ensures CanRun(w, p, Rush(first, k, now)) && InOrder(now, Rush(first, k, now))
    ensures Requests(w, p, Rush(first, k, now), now, now) == k
    decreases k
  {
    if k > 0 {
      PassKeeps(w, p, first, k, now);
      var p1 := Apply(w, p, Pass(first, now));
      SendKeeps(w, p1, first, 0, k - 1, now);
      var p2 := Apply(w, p1, Send(first, now));
      GainSign(p.bucket.rate, now, now);
      RushSends(w, p2, first + 1, k - 1, now);
      TwoActs(w, p, Pass(first, now), Send(first, now), Rush(first + 1, k - 1, now), now);
    }
  }

  lemma {:induction false} BurstSends(w: Settings, p: Pool, first: nat, n: nat, k: nat, now: real)
    requires p.bucket.OkAt(now) && p.bucket.last <= now && p.bucket.Level(now) >= k as real
    requires AllHolding(w, p, first, n, now) && AllWaiting(w, p, first + n, k, now)
    ensures CanRun(w, p, Volley(first, n, k, now)) && InOrder(now, Volley(first, n, k, now))
    ensures Requests(w, p, Volley(first, n, k, now), now, now) == n + k
    decreases n
  {
    if n == 0 {
      RushSends(w, p, first, k, now);
      assert Volley(first, 0, k, now) == Rush(first, k, now);
    } else {
      SendKeeps(w, p, first, n - 1, k, now);
      BurstSends(w, Apply(w, p, Send(first, now)), first + 1, n - 1, k, now);
      OneSend(w, p, Send(first, now), Volley(first + 1, n - 1, k, now), now);
      VolleyHead(first, n, k, now);
    }
  }

  lemma VolleyHead(first: nat, n: nat, k: nat, now: real)
    requires n > 0
    ensures Volley(first, n, k, now) == [Send(first, now)] + Volley(first + 1, n - 1, k, now)
  {}

  /** One pass, and the bucket is full again when the next thread comes. */
  lemma FullAgain(b: Bucket, now: real, step: real)
    requires b.OkAt(now) && b.last <= now && b.Level(now) == b.capacity >= 1.0 && step == Delay(b.rate, 1.0)
    ensures step > 0.0 && b.Attempt(now, 1.0).1
    ensures var b' := b.Attempt(now, 1.0).0;
      && b'.OkAt(now + step) && b'.last <= now + step && b'.Level(now + step) == b'.capacity
      && b'.capacity == b.capacity && b'.rate == b.rate
  {
    DelayGains(b.rate, 1.0, now);
  }

  /** At time a, n threads hold grants, k wait, and the bucket is full. */
  predicate Gathered(w: Settings, q: Pool, first: nat, n: nat, k: nat, a: real) {
    && q.bucket.OkAt(a) && q.bucket.last <= a && q.bucket.Level(a) == q.bucket.capacity
    && AllHolding(w, q, first, n, a) && AllWaiting(w, q, first + n, k, a)
  }

  lemma {:induction false} GatherHolds(w: Settings, p: Pool, first: nat, n: nat, k: nat, now: real, step: real)
    requires p.bucket.OkAt(now) && p.bucket.last <= now && p.bucket.Level(now) == p.bucket.capacity >= 1.0
    requires step == Delay(p.bucket.rate, 1.0) && AllWaiting(w, p, first, n + k, now)
    ensures var acts, a := Gather(first, n, now, step), Later(now, n, step);
      && now <= a && CanRun(w, p, acts) && InOrder(now, acts) && AllBefore(acts, a)
      && var q := RunTo(w, p, acts);
         && Gathered(w, q, first, n, k, a) && q.bucket.capacity == p.bucket.capacity
         && q.threads.Keys == p.threads.Keys && q.hosts == p.hosts
         && forall t | t in p.threads && t < first :: q.threads[t] == p.threads[t]
    decreases n
  {
    if n > 0 {
      var acts := Gather(first, n, now, step);
      assert acts[0] == Pass(first, now) && acts[1..] == Gather(first + 1, n - 1, now + step, step);
      FullAgain(p.bucket, now, step);
      PassKeeps(w, p, first, n + k, now);
      WaitLater(w, Apply(w, p, acts[0]), first + 1, n - 1 + k, now, now + step);
      GatherHolds(w, Apply(w, p, acts[0]), first + 1, n - 1, k, now + step, step);
    }
  }

  function Below(n: nat): (s: set<nat>)
    ensures |s| == n && forall t: nat :: t in s <==> t < n
  {
    if n == 0 then {} else Below(n - 1) + {n - 1}
  }

  /** A pool whose threads have done nothing yet, each for another host. */
  function Idle(threads: set<nat>, capacity: real, rate: real, start: real): Pool {
    Pool(Bucket(rate, capacity, capacity, start), map t | t in threads :: Bucket(rate, 1.0, 1.0, start),
         map t | t in threads :: Waiting(0, start))
  }

  function Apart(): Settings {
    Settings(0, 0.0, (t: nat) => Some(t))
  }

  lemma IdleWaits(n: nat, k: nat, rate: real, start: real)
    requires rate > 0.0
    ensures var p := Idle(Below(n + k), k as real, rate, start);
      && AllWaiting(Apart(), p, 0, n + k, start)
      && p.bucket.OkAt(start) && p.bucket.last <= start && p.bucket.Level(start) == p.bucket.capacity == k as real
  {
    GainSign(rate, start, start);
  }

  lemma GatheredSend(w: Settings, q: Pool, n: nat, k: nat, a: real)
    requires Gathered(w, q, 0, n, k, a) && q.threads.Keys == Below(n + k) && q.bucket.capacity == k as real
    ensures |Holders(q)| == n
    ensures CanRun(w, q, Volley(0, n, k, a)) && InOrder(a, Volley(0, n, k, a))
    ensures Requests(w, q, Volley(0, n, k, a), a, a) == n + k
  {
    assert Holders(q) == Below(n);
    BurstSends(w, q, 0, n, k, a);
  }

  /** n threads gather their grants, then all n + k send. */
  lemma GatherAndSend(w: Settings, p: Pool, n: nat, k: nat, start: real) returns (acts: seq<Act>, a: real)
    requires p.threads.Keys == Below(n + k) && AllWaiting(w, p, 0, n + k, start) && k > 0
    requires p.bucket.OkAt(start) && p.bucket.last <= start
    requires p.bucket.Level(start) == p.bucket.capacity == k as real
    ensures CanRun(w, p, acts) && InOrder(start, acts) && start <= a
    ensures HeldAt(w, p, acts, a) == n && Requests(w, p, acts, a, a) == n + k
  {
    var step := Delay(p.bucket.rate, 1.0);
    a := Later(start, n, step);
    var before, after := Gather(0, n, start, step), Volley(0, n, k, a);
    acts := before + after;
    GatherHolds(w, p, 0, n, k, start, step);
    var q := RunTo(w, p, before);
    GatheredSend(w, q, n, k, a);
    Prelude(w, p, before, after, start, a, a);
  }

  /** For any number n of threads and any whole capacity k there is a run of an
      idle pool in which n grants are held and n + k requests go out at one
      instant: the grants held count in full, and with a single one the bound
      without them fails. */
  lemma BoundIsSharp(n: nat, k: nat, rate: real, start: real) returns (acts: seq<Act>, a: real)
    requires rate > 0.0 && k > 0
    ensures var w, p := Apart(), Idle(Below(n + k), k as real, rate, start);
      && CanRun(w, p, acts) && InOrder(start, acts) && start <= a
      && HeldAt(w, p, acts, a) == n && Requests(w, p, acts, a, a) == n + k
  {
    IdleWaits(n, k, rate, start);
    acts, a := GatherAndSend(Apart(), Idle(Below(n + k), k as real, rate, start), n, k, start);
  }

  /** A run of a pool with this limiter in which n grants are held at time a. */
  predicate HeldRun(w: Settings, p: Pool, acts: seq<Act>, t: real, a: real, n: nat, k: nat, rate: real) {
    && p.bucket.OkAt(t) && p.bucket.capacity == k as real && p.bucket.rate == rate
    && CanRun(w, p, acts) && InOrder(t, acts) && HeldAt(w, p, acts, a) == n
  }

  /** The bound that counts only the limiter's own tokens holds if and only if no
      grant is held unused when the window begins. */
  lemma PlainBoundExactly(n: nat, k: nat, rate: real)
    requires rate > 0.0 && k > 0
    ensures n == 0 <==>
      forall w, p, acts, t, a, z | HeldRun(w, p, acts, t, a, n, k, rate) && a <= z ::
        Requests(w, p, acts, a, z) as real <= k as real + Gain(rate, a, z)
  {
    if n == 0 {
      forall w, p, acts, t, a, z | HeldRun(w, p, acts, t, a, n, k, rate) && a <= z
        ensures Requests(w, p, acts, a, z) as real <= k as real + Gain(rate, a, z)
      {
        RequestBound(w, p, acts, t, a, z);
      }
    } else {
      var acts, a := BoundIsSharp(n, k, rate, 0.0);
      var w, p := Apart(), Idle(Below(n + k), k as real, rate, 0.0);
      assert HeldRun(w, p, acts, 0.0, a, n, k, rate);
      GainSign(rate, a, a);
    }
  }
}
