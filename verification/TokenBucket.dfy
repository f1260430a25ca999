/** The rate limiter of py-processor/fetcher.py. Under the lock one pass of
    acquire's loop is atomic, so any number of threads is a sequence of attempts
    and penalties under a non-decreasing clock. Time and tokens are reals. */
module TokenBucket {
  import opened Wrappers

  function Min(a: real, b: real): real {
    if a <= b then a else b
  }

  function Max(a: real, b: real): real {
    if a >= b then a else b
  }

  /** What flows in from time x to time y. */
  function Gain(rate: real, x: real, y: real): real {
    rate * (y - x)
  }

  /** How long it takes to gain x. */
  function Delay(rate: real, x: real): real
    requires rate > 0.0
  {
    x / rate
  }

  datatype Bucket = Bucket(rate: real, capacity: real, tokens: real, last: real) {
    predicate Ok() {
      rate > 0.0 && 0.0 <= tokens <= capacity
    }

    /** In order at time `now`: a refill clock in the future means a penalty is
        running, and then the bucket is empty. */
    predicate OkAt(now: real) {
      Ok() && (last > now ==> tokens == 0.0)
    }

    function Level(now: real): real {
      Min(capacity, tokens + Gain(rate, last, now))
    }

    function Attempt(now: real, n: real): (Bucket, bool) {
      if last > now then (this, false)
      else if Level(now) >= n then (this.(tokens := Level(now) - n, last := now), true)
      else (this.(tokens := Level(now), last := now), false)
    }

    function Penalised(now: real, seconds: real): Bucket {
      this.(tokens := 0.0, last := now + seconds)
    }

    /** When a lone caller is served. */
    function GrantTime(now: real, n: real): real
      requires rate > 0.0
    {
      var start := Max(now, last);
      start + Delay(rate, Max(0.0, n - Level(start)))
    }
  }

  datatype Event = Try(now: real, n: real) | Penalty(now: real, seconds: real)

  function After(b: Bucket, e: Event): Bucket {
    match e
    case Try(now, n) => b.Attempt(now, n).0
    case Penalty(now, seconds) => b.Penalised(now, seconds)
  }

  function Grant(b: Bucket, e: Event): real {
    if e.Try? && b.Attempt(e.now, e.n).1 then e.n else 0.0
  }

  /** Non-decreasing times from t on; demands and penalties are not negative. */
  predicate Chronological(t: real, es: seq<Event>)
    decreases |es|
  {
    es == [] ||
    (&& t <= es[0].now
     && (if es[0].Try? then es[0].n >= 0.0 else es[0].seconds >= 0.0)
     && Chronological(es[0].now, es[1..]))
  }

  /** Tokens granted in the window [a, z]. */
  function Granted(b: Bucket, es: seq<Event>, a: real, z: real): real
    decreases |es|
  {
    if es == [] then 0.0
    else (if a <= es[0].now <= z then Grant(b, es[0]) else 0.0) + Granted(After(b, es[0]), es[1..], a, z)
  }

  // ---- arithmetic ---------------------------------------------------------

  lemma GainSign(r: real, x: real, y: real)
    requires r > 0.0
    ensures Gain(r, x, y) >= 0.0 <==> x <= y
    ensures Gain(r, x, y) == 0.0 <==> x == y
  {
    var d := y - x;
    assert Gain(r, x, y) == r * d;
  }

  lemma GainSplit(r: real, x: real, y: real, z: real)
    ensures Gain(r, x, z) == Gain(r, x, y) + Gain(r, y, z)
  {}

  lemma GainIs(r: real, x: real, y: real, d: real)
    requires d == y - x
    ensures Gain(r, x, y) == r * d
  {}

  /** A longer time gains more. */
  lemma GainLess(r: real, x: real, x': real, y: real)
    requires r > 0.0 && x <= x'
    ensures Gain(r, x', y) <= Gain(r, x, y)
  {
    GainSplit(r, x, x', y);
    GainSign(r, x, x');
  }

  lemma DelayGains(r: real, x: real, t: real)
    requires r > 0.0
    ensures Gain(r, t, t + Delay(r, x)) == x
    ensures Delay(r, x) >= 0.0 <==> x >= 0.0
    ensures Delay(r, x) == 0.0 <==> x == 0.0
  {
    var d := x / r;
    assert r * d == x;
    assert t + d - t == d;
    assert Gain(r, t, t + d) == r * d;
    GainSign(r, t, t + d);
  }

  /** Only one delay gains x. */
  lemma DelayIs(r: real, x: real, t: real, u: real)
    requires r > 0.0 && Gain(r, t, u) == x
    ensures u == t + Delay(r, x)
  {
    var v := t + Delay(r, x);
    DelayGains(r, x, t);
    GainSplit(r, t, u, v);
    GainSign(r, u, v);
  }

  // ---- every step ------------------------------------------------------------

  /** Tokens stay within [0, capacity], and the bucket is empty during a penalty. */
  lemma StepOk(b: Bucket, e: Event, t: real)
    requires b.OkAt(t) && Chronological(t, [e])
    ensures After(b, e).OkAt(e.now)
    ensures After(b, e).rate == b.rate && After(b, e).capacity == b.capacity
    ensures Grant(b, e) >= 0.0
  {
    if e.Try? {
      GainSign(b.rate, b.last, e.now);
    }
  }

  lemma {:induction false} NothingAfter(b: Bucket, es: seq<Event>, t: real, a: real, z: real)
    requires Chronological(t, es) && z < t
    ensures Granted(b, es, a, z) == 0.0
    decreases |es|
  {
    if es != [] {
      NothingAfter(After(b, es[0]), es[1..], es[0].now, a, z);
    }
  }

  lemma ChronologicalHead(t: real, es: seq<Event>)
    requires es != [] && Chronological(t, es)
    ensures Chronological(t, [es[0]]) && Chronological(es[0].now, es[1..])
  {
    assert [es[0]][1..] == [];
  }

  // ---- the window bound -----------------------------------------------------

  /** What can still be granted by time z, from a state in order at time t. */
  function Credit(b: Bucket, t: real, z: real): real {
    b.tokens + Gain(b.rate, Min(b.last, t), z)
  }

  lemma CreditAtLeast(b: Bucket, t: real, z: real)
    requires b.Ok() && t <= z
    ensures Credit(b, t, z) >= Gain(b.rate, t, z) >= 0.0
  {
    GainLess(b.rate, Min(b.last, t), t, z);
    GainSign(b.rate, t, z);
  }

  lemma TryCredit(b: Bucket, now: real, n: real, t: real, z: real)
    requires b.OkAt(t) && t <= now <= z && n >= 0.0
    ensures var b', g := b.Attempt(now, n).0, if b.Attempt(now, n).1 then n else 0.0;
      g + Credit(b', now, z) <= Credit(b, t, z)
  {
    if b.last > now {
      GainLess(b.rate, t, now, z);
    } else {
      GainSplit(b.rate, b.last, now, z);
      GainLess(b.rate, Min(b.last, t), b.last, z);
    }
  }

  lemma PenaltyCredit(b: Bucket, now: real, seconds: real, t: real, z: real)
    requires b.OkAt(t) && t <= now <= z && seconds >= 0.0
    ensures Credit(b.Penalised(now, seconds), now, z) <= Credit(b, t, z)
  {
    GainLess(b.rate, Min(b.last, t), now, z);
  }

  lemma CreditStep(b: Bucket, e: Event, t: real, z: real)
    requires b.OkAt(t) && Chronological(t, [e]) && e.now <= z
    ensures Grant(b, e) + Credit(After(b, e), e.now, z) <= Credit(b, t, z)
  {
    match e
    case Try(now, n) => TryCredit(b, now, n, t, z);
    case Penalty(now, seconds) => PenaltyCredit(b, now, seconds, t, z);
  }

  lemma {:induction false} CreditBound(b: Bucket, es: seq<Event>, t: real, a: real, z: real)
    requires b.OkAt(t) && Chronological(t, es) && a <= t <= z
    ensures Granted(b, es, a, z) <= Credit(b, t, z)
    decreases |es|
  {
    CreditAtLeast(b, t, z);
    if es != [] {
      var e := es[0];
      ChronologicalHead(t, es);
      StepOk(b, e, t);
      if e.now <= z {
        CreditStep(b, e, t, z);
        CreditBound(After(b, e), es[1..], e.now, a, z);
      } else {
        NothingAfter(After(b, e), es[1..], e.now, a, z);
      }
    }
  }

  /** The first event inside the window: the refill is capped. */
  lemma CappedStep(b: Bucket, e: Event, t: real, a: real, z: real)
    requires b.OkAt(t) && Chronological(t, [e]) && a <= e.now <= z
    ensures Grant(b, e) + Credit(After(b, e), e.now, z) <= b.capacity + Gain(b.rate, a, z)
  {
    GainLess(b.rate, a, e.now, z);
    FreshCredit(b, e, t, z);
  }

  lemma FreshCredit(b: Bucket, e: Event, t: real, z: real)
    requires b.OkAt(t) && Chronological(t, [e])
    ensures Grant(b, e) + Credit(After(b, e), e.now, z) <= b.capacity + Gain(b.rate, e.now, z)
  {
    assert Min(After(b, e).last, e.now) == e.now;
  }

  lemma FirstInWindow(b: Bucket, e: Event, rest: seq<Event>, t: real, a: real, z: real)
    requires b.OkAt(t) && Chronological(t, [e]) && Chronological(e.now, rest) && a <= e.now <= z
    ensures Grant(b, e) + Granted(After(b, e), rest, a, z) <= b.capacity + Gain(b.rate, a, z)
  {
    StepOk(b, e, t);
    CappedStep(b, e, t, a, z);
    CreditBound(After(b, e), rest, e.now, a, z);
  }

  lemma {:induction false} WindowBoundBy(b: Bucket, es: seq<Event>, t: real, a: real, z: real, all: real)
    requires b.OkAt(t) && Chronological(t, es) && a <= z && Gain(b.rate, a, z) == all >= 0.0
    ensures Granted(b, es, a, z) <= b.capacity + all
    decreases |es|
  {
    if es != [] {
      var e, rest := es[0], es[1..];
      var b' := After(b, e);
      ChronologicalHead(t, es);
      StepOk(b, e, t);
      if e.now < a {
        WindowBoundBy(b', rest, e.now, a, z, all);
      } else if e.now <= z {
        FirstInWindow(b, e, rest, t, a, z);
      } else {
        NothingAfter(b', rest, e.now, a, z);
      }
    }
  }

  /** The rate bound: for any interleaving of attempts and penalties, the tokens
      granted in any window [a, z] are at most capacity + rate * (z - a). */
  lemma WindowBound(b: Bucket, es: seq<Event>, t: real, a: real, z: real)
    requires b.OkAt(t) && Chronological(t, es) && a <= z
    ensures Granted(b, es, a, z) <= b.capacity + Gain(b.rate, a, z)
  {
    GainSign(b.rate, a, z);
    WindowBoundBy(b, es, t, a, z, Gain(b.rate, a, z));
  }

  // ---- after a penalty --------------------------------------------------------

  predicate OnlyTries(es: seq<Event>) {
    forall i | 0 <= i < |es| :: es[i].Try?
  }

  function Recovered(b: Bucket, z: real): real {
    b.tokens + if z <= b.last then 0.0 else Gain(b.rate, b.last, z)
  }

  lemma RecoveredNonNegative(b: Bucket, z: real)
    requires b.Ok()
    ensures Recovered(b, z) >= 0.0
  {
    GainSign(b.rate, b.last, z);
  }

  lemma RecoveryStep(b: Bucket, now: real, n: real, z: real)
    requires b.OkAt(now) && n >= 0.0 && now <= z
    ensures var b', g := b.Attempt(now, n).0, if b.Attempt(now, n).1 then n else 0.0;
      g + Recovered(b', z) <= Recovered(b, z)
  {
    GainSplit(b.rate, b.last, now, z);
    GainSign(b.rate, b.last, now);
    GainSign(b.rate, now, z);
  }

  lemma {:induction false} RecoveryBound(b: Bucket, es: seq<Event>, t: real, a: real, z: real)
    requires b.OkAt(t) && Chronological(t, es) && OnlyTries(es) && a <= t
    ensures Granted(b, es, a, z) <= Recovered(b, z)
    decreases |es|
  {
    RecoveredNonNegative(b, z);
    if es != [] {
      var e, rest := es[0], es[1..];
      ChronologicalHead(t, es);
      StepOk(b, e, t);
      if z < e.now {
        NothingAfter(After(b, e), rest, e.now, a, z);
      } else {
        RecoveryStep(b, e.now, e.n, z);
        RecoveryBound(After(b, e), rest, e.now, a, z);
      }
    }
  }

  lemma {:induction false} GrantedNonNegative(b: Bucket, es: seq<Event>, t: real, a: real, z: real)
    requires b.OkAt(t) && Chronological(t, es)
    ensures Granted(b, es, a, z) >= 0.0
    decreases |es|
  {
    if es != [] {
      ChronologicalHead(t, es);
      StepOk(b, es[0], t);
      GrantedNonNegative(After(b, es[0]), es[1..], es[0].now, a, z);
    }
  }

  /** After the last penalise(seconds) at t0, what is granted by time z is at most
      rate * max(0, z - t0 - seconds): nothing at all inside the penalty. */
  lemma PenaltyBound(b: Bucket, t0: real, seconds: real, es: seq<Event>, z: real)
    requires b.Ok() && seconds >= 0.0 && Chronological(t0, es) && OnlyTries(es)
    ensures Granted(b.Penalised(t0, seconds), es, t0, z) <= b.rate * Max(0.0, z - t0 - seconds)
    ensures z <= t0 + seconds ==> Granted(b.Penalised(t0, seconds), es, t0, z) == 0.0
  {
    var p, d := b.Penalised(t0, seconds), Max(0.0, z - t0 - seconds);
    if z > p.last {
      GainIs(b.rate, p.last, z, d);
    } else {
      GainIs(b.rate, z, z, d);
      GainSign(b.rate, z, z);
    }
    RecoveryBound(p, es, t0, t0, z);
    GrantedNonNegative(p, es, t0, t0, z);
  }

  // ---- when a penalty is honoured --------------------------------------------------

  /** Tokens granted before time g. */
  function GrantedBefore(b: Bucket, es: seq<Event>, g: real): real
    decreases |es|
  {
    if es == [] then 0.0
    else (if es[0].now < g then Grant(b, es[0]) else 0.0) + GrantedBefore(After(b, es[0]), es[1..], g)
  }

  /** The penalties among the events. */
  function PenaltiesOf(es: seq<Event>): seq<Event>
    decreases |es|
  {
    if es == [] then []
    else (if es[0].Penalty? then [es[0]] else []) + PenaltiesOf(es[1..])
  }

  /** Nothing but penalties, in order from t on. */
  predicate Punishments(t: real, ps: seq<Event>) {
    Chronological(t, ps) && PenaltiesOf(ps) == ps
  }

  /** An empty bucket locked until `last` and then by the penalties ps stays
      locked up to time g: each lock lasts until the next one or until g. */
  predicate Covers(last: real, ps: seq<Event>, g: real)
    decreases |ps|
  {
    if ps == [] || ps[0].now >= g then last >= g
    else last >= ps[0].now && ps[0].Penalty? && Covers(ps[0].now + ps[0].seconds, ps[1..], g)
  }

  lemma {:induction false} NothingBefore(b: Bucket, es: seq<Event>, t: real, g: real)
    requires Chronological(t, es) && g <= t
    ensures GrantedBefore(b, es, g) == 0.0
    decreases |es|
  {
    if es != [] {
      NothingBefore(After(b, es[0]), es[1..], es[0].now, g);
    }
  }

  /** The first penalty comes no earlier than the first event. */
  lemma {:induction false} FirstPenalty(t: real, es: seq<Event>)
    requires Chronological(t, es) && PenaltiesOf(es) != []
    ensures t <= PenaltiesOf(es)[0].now && PenaltiesOf(es)[0].Penalty?
    decreases |es|
  {
    if !es[0].Penalty? {
      FirstPenalty(es[0].now, es[1..]);
    }
  }

  /** An attempt on an empty bucket locked up to that time brings nothing. */
  lemma LockedTry(b: Bucket, now: real, n: real)
    requires b.Ok() && b.tokens == 0.0 && b.last >= now && n >= 0.0
    ensures After(b, Try(now, n)) == b && Grant(b, Try(now, n)) == 0.0
  {
    GainSign(b.rate, b.last, now);
  }

  lemma {:induction false} CoveredGrantsNothing(b: Bucket, es: seq<Event>, t: real, g: real)
    requires b.Ok() && b.tokens == 0.0 && Chronological(t, es) && Covers(b.last, PenaltiesOf(es), g)
    ensures GrantedBefore(b, es, g) == 0.0
    decreases |es|
  {
    if es != [] {
      var e, rest := es[0], es[1..];
      if e.now >= g {
        NothingBefore(b, es, e.now, g);
      } else if e.Penalty? {
        assert ([e] + PenaltiesOf(rest))[1..] == PenaltiesOf(rest);
        CoveredGrantsNothing(b.Penalised(e.now, e.seconds), rest, e.now, g);
      } else {
        if PenaltiesOf(rest) != [] {
          FirstPenalty(e.now, rest);
        }
        assert PenaltiesOf(es) == PenaltiesOf(rest);
        LockedTry(b, e.now, e.n);
        CoveredGrantsNothing(b, rest, e.now, g);
      }
    }
  }

  /** An attempt after the lock finds tokens. */
  lemma OpenTry(b: Bucket, now: real)
    requires b.Ok() && b.tokens == 0.0 && b.capacity > 0.0 && b.last < now
    ensures b.Level(now) > 0.0 && Grant(b, Try(now, b.Level(now))) == b.Level(now)
  {
    GainSign(b.rate, b.last, now);
  }

  lemma {:induction false} PenaltiesGrantNothing(b: Bucket, ps: seq<Event>, g: real)
    requires PenaltiesOf(ps) == ps
    ensures GrantedBefore(b, ps, g) == 0.0
    decreases |ps|
  {
    if ps != [] {
      HeadPenalty(ps);
      PenaltiesGrantNothing(After(b, ps[0]), ps[1..], g);
    }
  }

  lemma {:induction false} FewPenalties(es: seq<Event>)
    ensures |PenaltiesOf(es)| <= |es|
    decreases |es|
  {
    if es != [] {
      FewPenalties(es[1..]);
    }
  }

  lemma HeadPenalty(ps: seq<Event>)
    requires ps != [] && PenaltiesOf(ps) == ps
    ensures ps[0].Penalty? && PenaltiesOf(ps[1..]) == ps[1..]
  {
    FewPenalties(ps[1..]);
    assert ps[0].Penalty?;
    assert ([ps[0]] + PenaltiesOf(ps[1..]))[1..] == PenaltiesOf(ps[1..]);
  }

  /** One attempt at time z, then the penalties. */
  lemma TryFirst(b: Bucket, ps: seq<Event>, t: real, z: real, g: real) returns (es: seq<Event>)
    requires b.Ok() && b.tokens == 0.0 && b.capacity > 0.0 && Punishments(t, ps)
    requires t <= z < g && b.last < z && (ps != [] ==> z <= ps[0].now)
    ensures Chronological(t, es) && PenaltiesOf(es) == ps && GrantedBefore(b, es, g) > 0.0
  {
    OpenTry(b, z);
    var e := Try(z, b.Level(z));
    es := [e] + ps;
    assert es[1..] == ps;
    if ps != [] {
      assert Chronological(z, ps);
    }
    PenaltiesGrantNothing(After(b, e), ps, g);
  }

  /** A gap between the locks lets an attempt through. */
  lemma {:induction false} UncoveredGrants(b: Bucket, ps: seq<Event>, t: real, g: real) returns (es: seq<Event>)
    requires b.Ok() && b.tokens == 0.0 && b.capacity > 0.0 && Punishments(t, ps) && t < g
    requires !Covers(b.last, ps, g)
    ensures Chronological(t, es) && PenaltiesOf(es) == ps && GrantedBefore(b, es, g) > 0.0
    decreases |ps|
  {
    if ps == [] || ps[0].now >= g {
      es := TryFirst(b, ps, t, (Max(b.last, t) + g) / 2.0, g);
    } else if b.last < ps[0].now {
      es := TryFirst(b, ps, t, ps[0].now, g);
    } else {
      HeadPenalty(ps);
      var p := ps[0];
      var rest := UncoveredGrants(b.Penalised(p.now, p.seconds), ps[1..], p.now, g);
      es := [p] + rest;
      assert es[1..] == rest;
    }
  }

  /** A penalty that is to last until g is honoured, whatever attempts come in
      between, if and only if the penalties after it leave no gap before g. */
  lemma PenaltyHonouredExactly(b: Bucket, ps: seq<Event>, t: real, g: real)
    requires b.Ok() && b.tokens == 0.0 && b.capacity > 0.0 && Punishments(t, ps) && t < g
    ensures Covers(b.last, ps, g) <==>
      forall es | Chronological(t, es) && PenaltiesOf(es) == ps :: GrantedBefore(b, es, g) == 0.0
  {
    if Covers(b.last, ps, g) {
      forall es | Chronological(t, es) && PenaltiesOf(es) == ps
        ensures GrantedBefore(b, es, g) == 0.0
      {
        CoveredGrantsNothing(b, es, t, g);
      }
    } else {
      var es := UncoveredGrants(b, ps, t, g);
    }
  }

  /** No later penalty ends before g. */
  predicate AllReach(ps: seq<Event>, g: real) {
    forall i | 0 <= i < |ps| && ps[i].now < g :: ps[i].Penalty? && ps[i].now + ps[i].seconds >= g
  }

  lemma {:induction false} ReachingCovers(last: real, ps: seq<Event>, g: real)
    requires last >= g && AllReach(ps, g)
    ensures Covers(last, ps, g)
    decreases |ps|
  {
    if ps != [] && ps[0].now < g {
      ReachingCovers(ps[0].now + ps[0].seconds, ps[1..], g);
    }
  }

  /** After penalise(seconds) at t0 nothing is granted before it ends, as long as
      no later penalty ends earlier. */
  lemma PenaltyHonoured(b: Bucket, t0: real, seconds: real, es: seq<Event>)
    requires b.Ok() && Chronological(t0, es) && AllReach(PenaltiesOf(es), t0 + seconds)
    ensures GrantedBefore(b.Penalised(t0, seconds), es, t0 + seconds) == 0.0
  {
    var p := b.Penalised(t0, seconds);
    ReachingCovers(p.last, PenaltiesOf(es), t0 + seconds);
    CoveredGrantsNothing(p, es, t0, t0 + seconds);
  }

  /** A later penalty during an earlier one: the earlier one is honoured if and
      only if the later one ends no earlier. */
  lemma ShorterPenaltyWins(b: Bucket, t0: real, s0: real, t1: real, s1: real)
    requires b.Ok() && b.capacity > 0.0 && t0 <= t1 < t0 + s0 && s1 >= 0.0
    ensures (forall z, n | t1 <= z < t0 + s0 && n > 0.0 :: !b.Penalised(t0, s0).Penalised(t1, s1).Attempt(z, n).1)
       <==> t1 + s1 >= t0 + s0
  {
    var q := b.Penalised(t0, s0).Penalised(t1, s1);
    if t1 + s1 < t0 + s0 {
      var z := (t1 + s1 + t0 + s0) / 2.0;
      OpenTry(q, z);
      assert q.Attempt(z, q.Level(z)).1;
    }
  }

  // ---- a lone caller ----------------------------------------------------------------

  /** A demand above the capacity is never granted, whatever happens. */
  lemma {:induction false} TooMuchNeverGranted(b: Bucket, es: seq<Event>, t: real, n: real, a: real, z: real)
    requires b.OkAt(t) && Chronological(t, es) && n > b.capacity
    requires forall i | 0 <= i < |es| && es[i].Try? :: es[i].n == n
    ensures Granted(b, es, a, z) == 0.0
    decreases |es|
  {
    if es != [] {
      ChronologicalHead(t, es);
      StepOk(b, es[0], t);
      TooMuchNeverGranted(After(b, es[0]), es[1..], es[0].now, n, a, z);
    }
  }

  /** The number of sleeps, capped at five seconds each, that fill x seconds. */
  function Sleeps(x: real): nat {
    if x <= 0.0 then 0 else (x / 5.0).Floor + 1
  }

  lemma SleepShrinks(x: real)
    requires x > 0.0
    ensures Sleeps(x - Min(x, 5.0)) < Sleeps(x)
  {
    if x > 5.0 {
      assert (x - 5.0) / 5.0 == x / 5.0 - 1.0;
    }
  }

  class TokenBucket {
    const rate: real
    const capacity: real
    var tokens: real
    var last: real

    function State(): Bucket
      reads this
    {
      Bucket(rate, capacity, tokens, last)
    }

    constructor (rate: real, capacity: Option<real>, now: real)
      requires rate > 0.0 && (capacity.Some? ==> capacity.value >= 0.0)
      ensures State().OkAt(now) && last == now && tokens == this.capacity > 0.0 && this.rate == rate
      ensures this.capacity
        == if capacity.Some? && capacity.value != 0.0 then capacity.value else Max(1.0, rate)
    {
      this.rate := rate;
      var full := if capacity.Some? && capacity.value != 0.0 then capacity.value else Max(1.0, rate);
      this.capacity := full;
      tokens := full;
      last := now;
    }

    /** One pass of acquire's loop: granted, or how long to sleep. */
    method TryAcquire(now: real, n: real) returns (granted: bool, wait: real)
      requires rate > 0.0
      modifies this
      ensures (State(), granted) == old(State()).Attempt(now, n)
      ensures !granted ==> wait == Min(5.0, if old(last) > now then old(last) - now else (n - tokens) / rate)
    {
      ghost var b := State();
      wait := last - now;
      if wait <= 0.0 {
        GainIs(rate, last, now, -wait);
        assert (-wait) * rate == rate * (-wait);
        tokens := Min(capacity, tokens + (-wait) * rate);
        assert tokens == b.Level(now);
        last := now;
        if tokens >= n {
          tokens := tokens - n;
          return true, 0.0;
        }
        wait := (n - tokens) / rate;
      } else {
        wait := Min(wait, 5.0);
      }
      return false, Min(wait, 5.0);
    }

    /** acquire by a lone caller whose sleeps are exact: it returns, at exactly
        the grant time, within the bounded number of passes. */
    method Acquire(now: real, n: real) returns (at: real, passes: nat)
      requires State().OkAt(now) && 0.0 <= n <= capacity
      modifies this
      ensures at == old(State()).GrantTime(now, n) >= Max(now, old(last))
      ensures State().OkAt(at) && last == at
      ensures passes <= 1 + Sleeps(old(last) - now) + Sleeps(at - Max(now, old(last)))
    {
      at, passes := now, 0;
      ghost var start := Max(now, last);
      ghost var goal := State().GrantTime(now, n);
      GrantNotEarly(State(), now, n);
      while true
        invariant State().OkAt(at) && now <= at <= goal && start <= goal
        invariant State().GrantTime(at, n) == goal >= Max(at, last)
        invariant Max(at, last) >= start
        invariant passes + Sleeps(last - at) + Sleeps(goal - Max(at, last))
               <= Sleeps(old(last) - now) + Sleeps(goal - start)
        decreases Sleeps(last - at) + Sleeps(goal - Max(at, last))
      {
        ghost var b := State();
        passes := passes + 1;
        var granted, wait := TryAcquire(at, n);
        if granted {
          GrantNow(b, at, n);
          return;
        }
        if b.last > at {
          PenaltyPass(b, at, n, wait);
        } else {
          RefillPass(b, at, n, wait);
        }
        at := at + wait;
      }
    }

    method Penalise(now: real, seconds: real)
      modifies this
      ensures State() == old(State()).Penalised(now, seconds)
    {
      tokens := 0.0;
      last := now + seconds;
    }
  }

  lemma GrantNow(b: Bucket, now: real, n: real)
    requires b.OkAt(now) && b.last <= now && b.Level(now) >= n >= 0.0
    ensures b.GrantTime(now, n) == now && b.Attempt(now, n).0.OkAt(now)
  {
    GainSign(b.rate, b.last, now);
    DelayGains(b.rate, 0.0, now);
  }

  lemma GrantNotEarly(b: Bucket, now: real, n: real)
    requires b.Ok()
    ensures b.GrantTime(now, n) >= Max(now, b.last)
  {
    DelayGains(b.rate, Max(0.0, n - b.Level(Max(now, b.last))), now);
  }

  /** Waiting out the penalty keeps the grant time. */
  lemma PenaltyPass(b: Bucket, now: real, n: real, wait: real)
    requires b.OkAt(now) && b.last > now && wait == Min(5.0, b.last - now)
    ensures b.OkAt(now + wait) && now + wait <= b.last
    ensures b.GrantTime(now + wait, n) == b.GrantTime(now, n)
    ensures Sleeps(b.last - (now + wait)) < Sleeps(b.last - now)
  {
    SleepShrinks(b.last - now);
    assert Max(now + wait, b.last) == b.last == Max(now, b.last);
    assert b.last - (now + wait) == (b.last - now) - Min(b.last - now, 5.0);
  }

  /** Refilling now or later is the same, as long as the bucket does not fill. */
  lemma RefillInSteps(b: Bucket, now: real, later: real)
    requires b.OkAt(now) && b.last <= now <= later
    ensures var b' := b.(tokens := b.Level(now), last := now);
      b'.Ok() && b'.Level(later) == b.Level(later)
  {
    GainSign(b.rate, b.last, now);
    GainSign(b.rate, now, later);
    GainSplit(b.rate, b.last, now, later);
  }

  /** Before the grant time the bucket holds too little, at it just enough. */
  lemma LevelAtGrant(b: Bucket, now: real, n: real)
    requires b.OkAt(now) && b.last <= now && 0.0 <= n <= b.capacity && b.Level(now) < n
    ensures b.GrantTime(now, n) == now + Delay(b.rate, n - b.Level(now)) > now
    ensures b.Level(b.GrantTime(now, n)) == n == b.tokens + Gain(b.rate, b.last, b.GrantTime(now, n))
    ensures forall t | now <= t < b.GrantTime(now, n) :: b.Level(t) < n
  {
    var goal := now + Delay(b.rate, n - b.Level(now));
    DelayGains(b.rate, n - b.Level(now), now);
    GainSplit(b.rate, b.last, now, goal);
    forall t | now <= t < goal
      ensures b.Level(t) < n
    {
      GainSplit(b.rate, b.last, t, goal);
      GainSign(b.rate, t, goal);
    }
  }

  /** Sleeping towards the refill keeps the grant time. */
  lemma RefillPass(b: Bucket, now: real, n: real, wait: real)
    requires b.OkAt(now) && b.last <= now && 0.0 <= n <= b.capacity && b.Level(now) < n
    requires wait == Min(5.0, Delay(b.rate, n - b.Level(now)))
    ensures var b' := b.(tokens := b.Level(now), last := now);
      var goal := b.GrantTime(now, n);
      && b'.OkAt(now + wait) && now < now + wait <= goal
      && b'.GrantTime(now + wait, n) == goal
      && Sleeps(goal - (now + wait)) < Sleeps(goal - now)
  {
    var b' := b.(tokens := b.Level(now), last := now);
    var goal := b.GrantTime(now, n);
    LevelAtGrant(b, now, n);
    SleepShrinks(goal - now);
    assert goal - (now + wait) == (goal - now) - Min(goal - now, 5.0);
    RefillInSteps(b, now, goal);
    GainSplit(b.rate, b.last, now, goal);
    SameGrant(b', now + wait, goal, n);
  }

  /** The time at which the level first reaches n is the grant time. */
  lemma SameGrant(b: Bucket, now: real, goal: real, n: real)
    requires b.Ok() && b.last <= now <= goal && 0.0 <= n <= b.capacity
    requires b.tokens + Gain(b.rate, b.last, goal) == n
    ensures b.GrantTime(now, n) == goal
  {
    GainSplit(b.rate, b.last, now, goal);
    GainSign(b.rate, now, goal);
    DelayIs(b.rate, Gain(b.rate, now, goal), now, goal);
  }

  // ---- fetch_one ----------------------------------------------------------------

  datatype Reply = NoResponse | Response(status: int, body: string, retryAfter: Option<real>)

  datatype Outcome = Text(body: string) | Gone(status: int) | GaveUp

  predicate Retryable(r: Reply) {
    r.NoResponse? || r.status == 429 || r.status == 403 || r.status >= 500
  }

  function Verdict(r: Reply): Outcome
    requires !Retryable(r)
  {
    if r.status == 200 then Text(r.body) else if r.status in {404, 410} then Gone(r.status) else GaveUp
  }

  /** The sleep after a retryable reply. */
  function SleepAfter(r: Reply, backoff: real): real {
    if r.Response? && r.status == 429 && r.retryAfter.Some? then r.retryAfter.value
    else if r.Response? && r.status == 403 then 2.0
    else backoff
  }

  /** The penalty on the global bucket. */
  function PoolPenalty(r: Reply): Option<real> {
    if r.Response? && r.status == 429 then Some(if r.retryAfter.Some? then r.retryAfter.value else 5.0) else None
  }

  /** The penalty on the host's bucket. */
  function HostPenalty(r: Reply, attempt: nat, cooldown: real): Option<real> {
    if r.Response? && r.status == 403 then Some(cooldown * (attempt + 1) as real) else None
  }

  function Punished(b: Bucket, clock: real, penalty: Option<real>): Bucket {
    if penalty.Some? then b.Penalised(clock, penalty.value) else b
  }

  /** How long a reply keeps this URL's next request away. */
  function Penance(r: Reply, attempt: nat, hosted: bool, cooldown: real, backoff: real): real {
    var pool, host := PoolPenalty(r), if hosted then HostPenalty(r, attempt, cooldown) else None;
    Max(SleepAfter(r, backoff), Max(if pool.Some? then pool.value else 0.0, if host.Some? then host.value else 0.0))
  }

  /** In seconds: after 429 what Retry-After asks for, or else the back-off and at
      least five; after 403 two, and the cooldown where a host is limited; otherwise
      the back-off. */
  lemma PenanceIs(r: Reply, attempt: nat, hosted: bool, cooldown: real, backoff: real)
    requires backoff >= 0.0 && cooldown >= 0.0
    requires r.Response? && r.retryAfter.Some? ==> r.retryAfter.value >= 0.0
    ensures Penance(r, attempt, hosted, cooldown, backoff)
         == match r
            case NoResponse => backoff
            case Response(429, _, Some(seconds)) => seconds
            case Response(429, _, None) => Max(backoff, 5.0)
            case Response(403, _, _) => if hosted then Max(2.0, cooldown * (attempt + 1) as real) else 2.0
            case _ => backoff
  {
    ProductNonNegative(cooldown, (attempt + 1) as real);
  }

  /** When the latency, the sleep and the penalties of request k, sent at time t,
      are over. */
  function Free(t: real, k: nat, replies: nat -> Reply, hosted: bool, cooldown: real,
                latency: nat -> real, backoff: nat -> real): real {
    t + latency(k) + Penance(replies(k), k, hosted, cooldown, backoff(k))
  }

  /** When the buckets let the next request through, at the earliest. */
  function Earliest(clock: real, bucket: TokenBucket, host: TokenBucket?): real
    reads bucket, host
  {
    Max(clock, if host == null then bucket.last else Max(bucket.last, host.last))
  }

  predicate Ready(clock: real, bucket: TokenBucket, host: TokenBucket?)
    reads bucket, host
  {
    && host != bucket && bucket.State().OkAt(clock) && bucket.capacity >= 1.0
    && (host != null ==> host.State().OkAt(clock) && host.capacity >= 1.0)
  }

  /** Both limiters, the global one first. */
  method AcquireBoth(bucket: TokenBucket, host: TokenBucket?, clock: real) returns (at: real)
    requires Ready(clock, bucket, host)
    modifies bucket, host
    ensures Ready(at, bucket, host) && at >= old(Earliest(clock, bucket, host))
    ensures var first := old(bucket.State()).GrantTime(clock, 1.0);
      at == if host == null then first else old(host.State()).GrantTime(first, 1.0)
  {
    var passes;
    at, passes := bucket.Acquire(clock, 1.0);
    if host != null {
      at, passes := host.Acquire(at, 1.0);
    }
  }

  /** What one reply at time `clock` leads to: an outcome, or a sleep and
      possibly a penalty before the next attempt. */
  method React(bucket: TokenBucket, host: TokenBucket?, reply: Reply, attempt: nat, cooldown: real,
               backoff: real, clock: real) returns (outcome: Option<Outcome>, later: real)
    requires Ready(clock, bucket, host) && cooldown >= 0.0 && backoff >= 0.0
    requires reply.Response? && reply.retryAfter.Some? ==> reply.retryAfter.value >= 0.0
    modifies bucket, host
    ensures reply.NoResponse? ==>
      && outcome == None && later == clock + backoff
      && bucket.State() == old(bucket.State()) && (host != null ==> host.State() == old(host.State()))
    ensures reply.Response? ==>
      match reply.status
      case 200 => outcome == Some(Text(reply.body))
      case 404 => outcome == Some(Gone(404))
      case 410 => outcome == Some(Gone(410))
      case 429 =>
        && outcome == None
        && later == clock + (if reply.retryAfter.Some? then reply.retryAfter.value else backoff)
      case 403 => outcome == None && later == clock + 2.0
      case status => if status >= 500 then outcome == None && later == clock + backoff else outcome == Some(GaveUp)
    ensures reply.Response? && reply.status == 429 ==>
      var seconds := if reply.retryAfter.Some? then reply.retryAfter.value else 5.0;
      && bucket.State() == old(bucket.State()).(tokens := 0.0, last := clock + seconds)
      && (host != null ==> host.State() == old(host.State()))
    ensures reply.Response? && reply.status == 403 ==>
      && bucket.State() == old(bucket.State())
      && (host != null ==>
            host.State() == old(host.State()).(tokens := 0.0, last := clock + cooldown * (attempt + 1) as real))
    ensures reply.Response? && reply.status != 429 && reply.status != 403 ==>
      bucket.State() == old(bucket.State()) && (host != null ==> host.State() == old(host.State()))
    ensures outcome.Some? ==> later == clock
    ensures outcome.None? <==> Retryable(reply)
    ensures outcome.Some? ==> outcome.value == Verdict(reply)
    ensures later == if outcome.None? then clock + SleepAfter(reply, backoff) else clock
    ensures bucket.State() == Punished(old(bucket.State()), clock, PoolPenalty(reply))
    ensures host != null ==> host.State() == Punished(old(host.State()), clock, HostPenalty(reply, attempt, cooldown))
    ensures later >= clock && Ready(later, bucket, host)
    ensures outcome.None? ==>
      Earliest(later, bucket, host) >= clock + Penance(reply, attempt, host != null, cooldown, backoff)
  {
    outcome, later := None, clock;
    if reply.NoResponse? {
      later := clock + backoff;
    } else if reply.status == 200 {
      outcome := Some(Text(reply.body));
    } else if reply.status == 404 || reply.status == 410 {
      outcome := Some(Gone(reply.status));
    } else if reply.status == 429 {
      var seconds := if reply.retryAfter.Some? then reply.retryAfter.value else 5.0;
      bucket.Penalise(clock, seconds);
      later := clock + if reply.retryAfter.Some? then seconds else backoff;
    } else if reply.status == 403 {
      if host != null {
        var seconds := cooldown * (attempt + 1) as real;
        ProductNonNegative(cooldown, (attempt + 1) as real);
        host.Penalise(clock, seconds);
      }
      later := clock + 2.0;
    } else if reply.status >= 500 {
      later := clock + backoff;
    } else {
      outcome := Some(GaveUp);
    }
  }

  lemma ProductNonNegative(x: real, y: real)
    requires x >= 0.0 && y >= 0.0
    ensures x * y >= 0.0
  {}

  /** fetch_one: at most retries + 1 requests, all but the last answered by a
      retryable reply; the last reply decides; and no request comes before the
      penance of the reply before it is over. `latency` and `backoff` are the
      times a request and the sleep after it take. */
  method FetchOne(bucket: TokenBucket, host: TokenBucket?, replies: nat -> Reply, retries: nat, cooldown: real,
                  latency: nat -> real, backoff: nat -> real, now: real)
      returns (outcome: Outcome, times: seq<real>)
    requires Ready(now, bucket, host) && cooldown >= 0.0
    requires forall k :: latency(k) >= 0.0 && backoff(k) >= 0.0
    requires forall k :: replies(k).Response? && replies(k).retryAfter.Some? ==> replies(k).retryAfter.value >= 0.0
    modifies bucket, host
    ensures 1 <= |times| <= retries + 1
    ensures forall k | 0 <= k < |times| - 1 ::
      replies(k).NoResponse? || replies(k).status == 429 || replies(k).status == 403 || replies(k).status >= 500
    ensures forall k | 0 < k < |times| ::
      times[k] >= Free(times[k - 1], k - 1, replies, host != null, cooldown, latency, backoff)
    ensures var last := replies(|times| - 1);
      match last
      case NoResponse => outcome == GaveUp && |times| == retries + 1
      case Response(200, body, _) => outcome == Text(body)
      case Response(404, _, _) => outcome == Gone(404)
      case Response(410, _, _) => outcome == Gone(410)
      case Response(429, _, _) => outcome == GaveUp && |times| == retries + 1
      case Response(403, _, _) => outcome == GaveUp && |times| == retries + 1
      case Response(status, _, _) => outcome == GaveUp && (status >= 500 ==> |times| == retries + 1)
  {
    times := [];
    var clock := now;
    for attempt := 0 to retries + 1
      invariant |times| == attempt && Ready(clock, bucket, host)
      invariant forall k | 0 <= k < attempt :: Retryable(replies(k))
      invariant forall k | 0 < k < attempt ::
        times[k] >= Free(times[k - 1], k - 1, replies, host != null, cooldown, latency, backoff)
      invariant attempt > 0 ==>
        Free(times[attempt - 1], attempt - 1, replies, host != null, cooldown, latency, backoff)
        <= Earliest(clock, bucket, host)
    {
      clock := AcquireBoth(bucket, host, clock);
      times := times + [clock];
      var reaction;
      reaction, clock := React(bucket, host, replies(attempt), attempt, cooldown, backoff(attempt),
                               clock + latency(attempt));
      if reaction.Some? {
        return reaction.value, times;
      }
    }
    return GaveUp, times;
  }
}
