/** py-processor/neardup.py: the LSH index kept in Redis sets, one set per
    (band, key) pair, against a plain scan of the indexed fingerprints. */
module NearDup {
  import opened Wrappers
  import opened Bits
  import opened Dedupe

  /** The Redis key `simhash:band:{band}:{key}`. */
  datatype Slot = Slot(band: nat, key: nat)

  type Buckets = map<Slot, set<nat>>

  datatype Command = SAdd(slot: Slot, member: nat)

  function Members(m: Buckets, slot: Slot): set<nat> {
    if slot in m then m[slot] else {}
  }

  function Execute(m: Buckets, pipe: seq<Command>): Buckets {
    if pipe == [] then m
    else
      var before := Execute(m, pipe[..|pipe| - 1]);
      var c := pipe[|pipe| - 1];
      before[c.slot := Members(before, c.slot) + {c.member}]
  }

  /** The commands that file `h` under its first k bands. */
  function FileCommands(h: nat, width: nat, bands: nat, k: nat): seq<Command>
    requires k <= bands
  {
    seq(k, i requires 0 <= i < k => SAdd(Slot(i, BandKey(h, width, bands, i)), h))
  }

  ghost predicate Filed(m: Buckets, h: nat, width: nat, bands: nat) {
    forall i: nat | i < bands :: h in Members(m, Slot(i, BandKey(h, width, bands, i)))
  }

  /** x is indexed and belongs into the bucket. */
  predicate Belongs(s: Slot, x: nat, contents: set<nat>, width: nat, bands: nat) {
    s.band < bands && s.key == BandKey(x, width, bands, s.band) && x in contents
  }

  /** Every member of every bucket is an indexed fingerprint with that key, and
      every indexed fingerprint is in all of its buckets. */
  ghost predicate Represents(m: Buckets, contents: set<nat>, width: nat, bands: nat) {
    && (forall s: Slot, x | x in Members(m, s) :: Belongs(s, x, contents, width, bands))
    && (forall x | x in contents :: Filed(m, x, width, bands))
  }

  /** What the nested search looks for: a member of one of `c`'s own buckets
      within the threshold. */
  ghost predicate Hit(m: Buckets, c: nat, width: nat, bands: nat, threshold: nat) {
    exists i: nat, x | i < bands && x in Members(m, Slot(i, BandKey(c, width, bands, i))) ::
      Hamming(c, x) <= threshold
  }

  /** The linear scan. */
  ghost predicate Near(contents: set<nat>, c: nat, threshold: nat) {
    exists x | x in contents :: Hamming(c, x) <= threshold
  }

  lemma {:induction false} ExecuteAppend(m: Buckets, p: seq<Command>, q: seq<Command>)
    ensures Execute(m, p + q) == Execute(Execute(m, p), q)
  {
    if q == [] {
      assert p + q == p;
    } else {
      assert (p + q)[..|p + q| - 1] == p + q[..|q| - 1];
      ExecuteAppend(m, p, q[..|q| - 1]);
    }
  }

  /** After filing `h` under its first k bands, exactly those buckets have
      gained exactly `h`. */
  lemma {:induction false} FileEffect(m: Buckets, h: nat, width: nat, bands: nat, k: nat)
    requires k <= bands
    ensures forall s: Slot ::
      (Members(Execute(m, FileCommands(h, width, bands, k)), s) ==
       Members(m, s) + if s.band < k && s.key == BandKey(h, width, bands, s.band) then {h} else {})
  {
    if k > 0 {
      var pipe := FileCommands(h, width, bands, k);
      assert pipe[..k - 1] == FileCommands(h, width, bands, k - 1);
      FileEffect(m, h, width, bands, k - 1);
    }
  }

  lemma EmptyRepresents(width: nat, bands: nat)
    ensures Represents(map[], {}, width, bands)
  {
    var m: Buckets := map[];
    forall s: Slot
      ensures Members(m, s) == {}
    {
    }
  }

  lemma FileKeepsRepresents(m: Buckets, contents: set<nat>, h: nat, width: nat, bands: nat)
    requires Represents(m, contents, width, bands)
    ensures Represents(Execute(m, FileCommands(h, width, bands, bands)), contents + {h}, width, bands)
  {
    var m' := Execute(m, FileCommands(h, width, bands, bands));
    FileEffect(m, h, width, bands, bands);
    forall s: Slot, x | x in Members(m', s)
      ensures Belongs(s, x, contents + {h}, width, bands)
    {
      FiledMember(m, contents, h, width, bands, m', s, x);
    }
    forall x | x in contents + {h}
      ensures Filed(m', x, width, bands)
    {
      FileKeeps(m, m', x, h, width, bands);
    }
  }

  lemma FiledMember(m: Buckets, contents: set<nat>, h: nat, width: nat, bands: nat, m': Buckets, s: Slot, x: nat)
    requires Represents(m, contents, width, bands) && x in Members(m', s)
    requires Members(m', s)
      == Members(m, s) + if s.band < bands && s.key == BandKey(h, width, bands, s.band) then {h} else {}
    ensures Belongs(s, x, contents + {h}, width, bands)
  {
    assert x in Members(m, s) ==> Belongs(s, x, contents, width, bands);
  }

  lemma FileKeeps(m: Buckets, m': Buckets, x: nat, h: nat, width: nat, bands: nat)
    requires x == h || Filed(m, x, width, bands)
    requires forall s: Slot ::
      (Members(m', s) ==
       Members(m, s) + if s.band < bands && s.key == BandKey(h, width, bands, s.band) then {h} else {})
    ensures Filed(m', x, width, bands)
  {
    forall i: nat | i < bands
      ensures x in Members(m', Slot(i, BandKey(x, width, bands, i)))
    {
      assert x == h || x in Members(m, Slot(i, BandKey(x, width, bands, i)));
    }
  }

  // ---- the index -------------------------------------------------------

  class LshIndex {
    const bits: nat
    const bands: nat
    const threshold: nat
    ghost const width: nat
    var buckets: Buckets
    var warmed: bool // the sentinel key
    ghost var contents: set<nat>

    ghost predicate Valid()
      reads this
    {
      && bands > 0 && bits % bands == 0 && width == bits / bands
      && Represents(buckets, contents, width, bands)
    }

    constructor (bits: nat, bands: nat, threshold: nat)
      requires bands > 0 && bits % bands == 0
      ensures Valid() && contents == {} && !warmed
      ensures this.bits == bits && this.bands == bands && this.threshold == threshold
    {
      this.bits, this.bands, this.threshold, width := bits, bands, threshold, bits / bands;
      buckets, warmed, contents := map[], false, {};
      EmptyRepresents(bits / bands, bands);
    }

    method IsDuplicate<T>(tokens: seq<T>, digest: T -> nat) returns (dup: bool, chash: nat)
      requires Valid()
      ensures chash == Fingerprint(tokens, digest, bits)
      ensures dup <==> Hit(buckets, chash, width, bands, threshold)
      ensures dup ==> Near(contents, chash, threshold)
      ensures threshold < bands ==> (dup <==> Near(contents, chash, threshold))
    {
      chash := Simhash(tokens, digest, bits);
      var keys := BucketKeys(chash, bits, bands);
      HitIsScan(buckets, contents, chash, width, bands, threshold);
      for i := 0 to bands
        invariant forall j: nat, x | j < i && x in Members(buckets, Slot(j, BandKey(chash, width, bands, j))) ::
          Hamming(chash, x) > threshold
      {
        var rest := Members(buckets, Slot(i, keys.value[i]));
        while rest != {}
          invariant rest <= Members(buckets, Slot(i, BandKey(chash, width, bands, i)))
          invariant forall x | x in Members(buckets, Slot(i, BandKey(chash, width, bands, i))) - rest ::
            Hamming(chash, x) > threshold
          decreases rest
        {
          var existing :| existing in rest;
          if Hamming(chash, existing) <= threshold {
            return true, chash;
          }
          rest := rest - {existing};
        }
      }
      return false, chash;
    }

    method Index(chash: nat)
      requires Valid()
      modifies this
      ensures Valid() && contents == old(contents) + {chash} && warmed == old(warmed)
      ensures buckets == Execute(old(buckets), FileCommands(chash, width, bands, bands))
    {
      var pipe := Queue([], chash);
      assert [] + FileCommands(chash, width, bands, bands)
          == FileCommands(chash, width, bands, bands);
      FileKeepsRepresents(buckets, contents, chash, width, bands);
      buckets, contents := Execute(buckets, pipe), contents + {chash};
    }

    /** Queue one fingerprint's SADDs on a pipeline. */
    method Queue(pipe: seq<Command>, chash: nat) returns (longer: seq<Command>)
      requires bands > 0 && bits % bands == 0 && width == bits / bands
      ensures longer == pipe + FileCommands(chash, width, bands, bands)
    {
      var keys := BucketKeys(chash, bits, bands);
      longer := pipe;
      for i := 0 to bands
        invariant longer == pipe + FileCommands(chash, width, bands, i)
      {
        assert FileCommands(chash, width, bands, i + 1)
            == FileCommands(chash, width, bands, i)
               + [SAdd(Slot(i, BandKey(chash, width, bands, i)), chash)];
        longer := longer + [SAdd(Slot(i, keys.value[i]), chash)];
      }
    }

    /** Build the index from the stored rows unless the sentinel is set. The
        cursor raises before row `failAt`, if there is one; `calls` Redis calls
        succeed: the pipelines and the sentinel's SET. */
    method WarmFromDb(rows: seq<Option<nat>>, failAt: nat, calls: nat) returns (ok: bool, left: nat)
      requires Valid()
      modifies this
      ensures Valid()
      ensures old(warmed) ==> ok && left == calls && warmed && contents == old(contents) && buckets == old(buckets)
      ensures !old(warmed) ==> warmed == ok == (failAt >= |rows| && calls >= WarmCalls(rows))
      ensures !old(warmed) && ok ==> contents == old(contents) + Hashes(rows) && left == calls - WarmCalls(rows)
      ensures !ok && failAt >= |rows| ==> left == 0
      ensures old(contents) <= contents <= old(contents) + Hashes(rows)
    {
      left := calls;
      if warmed {
        return true, left;
      }
      var pipe, count: nat := [], 0;
      ghost var queued := {};
      assert old(contents) + {} == old(contents);
      for k := 0 to |rows|
        invariant Valid() && !warmed && k <= failAt
        invariant count == HashCount(rows[..k]) && left + count / 500 == calls
        invariant old(contents) <= contents
        invariant Represents(Execute(buckets, pipe), contents + queued, width, bands)
        invariant contents + queued == old(contents) + Hashes(rows[..k])
      {
        HashesPrefix(rows, k);
        CountPrefix(rows, k);
        if k == failAt {
          return false, left;
        }
        if rows[k].Some? {
          ghost var next := contents + queued + {rows[k].value};
          FileKeepsRepresents(Execute(buckets, pipe), contents + queued, rows[k].value, width, bands);
          ExecuteAppend(buckets, pipe, FileCommands(rows[k].value, width, bands, bands));
          pipe := Queue(pipe, rows[k].value);
          queued := queued + {rows[k].value};
          assert contents + queued == next;
          count := count + 1;
          if count % 500 == 0 {
            if left == 0 {
              return false, 0;
            }
            left := left - 1;
            buckets, contents, pipe, queued := Execute(buckets, pipe), next, [], {};
            assert contents + queued == contents;
          }
        }
      }
      assert rows[..|rows|] == rows;
      if left == 0 {
        return false, 0;
      }
      buckets, contents := Execute(buckets, pipe), contents + queued;
      if left == 1 {
        return false, 0;
      }
      warmed := true;
      return true, left - 2;
    }

    /** Interrupted warm-ups followed by one that completes leave exactly the
        index of an uninterrupted one. An interruption is a failing cursor or too
        few calls. */
    method WarmAfterRestarts(rows: seq<Option<nat>>, interruptions: seq<(nat, nat)>)
      requires Valid() && !warmed
      requires forall f | f in interruptions :: f.0 < |rows| || f.1 < WarmCalls(rows)
      modifies this
      ensures Valid() && warmed && contents == old(contents) + Hashes(rows)
    {
      var ok, left;
      for k := 0 to |interruptions|
        invariant Valid() && !warmed
        invariant old(contents) <= contents <= old(contents) + Hashes(rows)
      {
        assert interruptions[k] in interruptions;
        ok, left := WarmFromDb(rows, interruptions[k].0, interruptions[k].1);
      }
      ok, left := WarmFromDb(rows, |rows|, WarmCalls(rows));
    }
  }

  /** How many rows have a fingerprint. */
  function HashCount(rows: seq<Option<nat>>): nat {
    if rows == [] then 0
    else HashCount(rows[..|rows| - 1]) + if rows[|rows| - 1].Some? then 1 else 0
  }

  /** A pipeline for every 500 fingerprints, one for the rest, and the SET. */
  function WarmCalls(rows: seq<Option<nat>>): nat {
    HashCount(rows) / 500 + 2
  }

  lemma WarmCallsAre(rows: seq<Option<nat>>)
    ensures WarmCalls(rows) == |set k: nat | k < |rows| && rows[k].Some?| / 500 + 2
  {
    HashedRows(rows);
  }

  lemma {:induction false} HashedRows(rows: seq<Option<nat>>)
    ensures HashCount(rows) == |set k: nat | k < |rows| && rows[k].Some?|
  {
    if rows != [] {
      var n := |rows| - 1;
      HashedRows(rows[..n]);
      assert (set k: nat | k < |rows| && rows[k].Some?)
          == (set k: nat | k < n && rows[..n][k].Some?) + if rows[n].Some? then {n} else {};
    }
  }

  lemma {:induction false} CountPrefix(rows: seq<Option<nat>>, k: nat)
    requires k < |rows|
    ensures HashCount(rows[..k + 1]) == HashCount(rows[..k]) + if rows[k].Some? then 1 else 0
    ensures HashCount(rows[..k + 1]) <= HashCount(rows)
  {
    assert rows[..k + 1][..k] == rows[..k];
    var n := |rows| - 1;
    if k < n {
      CountPrefix(rows[..n], k);
      assert rows[..n][..k + 1] == rows[..k + 1];
    } else {
      assert rows[..k + 1] == rows;
    }
  }

  /** The fingerprints among the rows; a NULL content_hash is None. */
  ghost function Hashes(rows: seq<Option<nat>>): set<nat> {
    set r | r in rows && r.Some? :: r.value
  }

  lemma HashesPrefix(rows: seq<Option<nat>>, k: nat)
    requires k < |rows|
    ensures Hashes(rows[..k + 1])
         == Hashes(rows[..k]) + if rows[k].Some? then {rows[k].value} else {}
    ensures Hashes(rows[..k]) <= Hashes(rows)
  {
    assert rows[..k + 1] == rows[..k] + [rows[k]];
  }

  // ---- recall --------------------------------------------------------------

  /** The bucket search is the linear scan when fewer bits may flip than there
      are bands; a hit is always a scan hit. */
  lemma HitIsScan(m: Buckets, contents: set<nat>, c: nat, width: nat, bands: nat, threshold: nat)
    requires bands > 0 && Represents(m, contents, width, bands)
    ensures Hit(m, c, width, bands, threshold) ==> Near(contents, c, threshold)
    ensures threshold < bands ==>
      (Hit(m, c, width, bands, threshold) <==> Near(contents, c, threshold))
  {
    if threshold < bands && Near(contents, c, threshold) {
      var x :| x in contents && Hamming(c, x) <= threshold;
      HammingIsBandDistance(c, x, width, bands);
      var i := Pigeonhole(BandKeys(c, width, bands), BandKeys(x, width, bands));
      assert Filed(m, x, width, bands);
      assert x in Members(m, Slot(i, BandKey(c, width, bands, i)));
    }
  }

  /** The bound on the threshold is exact: from `bands` flips on, some index
      misses a document that the scan finds. */
  lemma RecallExact(width: nat, bands: nat, threshold: nat)
    requires width > 0 && bands > 0
    ensures (forall m: Buckets, contents, c | Represents(m, contents, width, bands) ::
               Hit(m, c, width, bands, threshold) <==> Near(contents, c, threshold))
            <==> threshold < bands
  {
    if threshold < bands {
      forall m: Buckets, contents, c | Represents(m, contents, width, bands)
        ensures Hit(m, c, width, bands, threshold) <==> Near(contents, c, threshold)
      {
        HitIsScan(m, contents, c, width, bands, threshold);
      }
    } else {
      var m := Execute(map[], FileCommands(0, width, bands, bands));
      FileKeepsRepresents(map[], {}, 0, width, bands);
      FileEffect(map[], 0, width, bands, bands);
      assert {} + {0} == {0};
      var c := Comb(width, bands);
      CombFar(width, bands);
      assert Near({0}, c, threshold);
      forall i: nat | i < bands
        ensures Members(m, Slot(i, BandKey(c, width, bands, i))) == {}
      {
        CombKey(width, bands, i);
        ZeroKey(width, bands, i);
      }
      assert !Hit(m, c, width, bands, threshold);
      assert Represents(m, {0}, width, bands);
    }
  }

  /** One bit set in every band. */
  function Comb(width: nat, bands: nat): nat {
    if bands == 0 then 0 else Shl(Comb(width, bands - 1), width) + 1
  }

  lemma {:induction false} ShrZero(n: nat)
    ensures Shr(0, n) == 0 && Mask(0, n) == 0
  {
    if n > 0 {
      ShrZero(n - 1);
    }
  }

  lemma ZeroKey(width: nat, bands: nat, i: nat)
    requires i < bands
    ensures BandKey(0, width, bands, i) == 0
  {
    ShrZero(Offset(bands - 1 - i, width));
    ShrZero(width);
  }

  lemma {:induction false} ShlPlusOne(x: nat, width: nat)
    requires width > 0
    ensures Shr(Shl(x, width) + 1, width) == x && Mask(Shl(x, width) + 1, width) == 1
  {
    var y := Shl(x, width) + 1;
    assert y / 2 == Shl(x, width - 1) && y % 2 == 1;
    ShrOfShl(x, width - 1, width - 1);
    MaskOfShl(x, width - 1, width - 1);
    ShlIsMul(0, width - 1);
  }

  lemma {:induction false} CombFar(width: nat, bands: nat)
    requires width > 0
    ensures Hamming(Comb(width, bands), 0) == bands
  {
    if bands > 0 {
      HammingSplit(Comb(width, bands), 0, width);
      ShlPlusOne(Comb(width, bands - 1), width);
      ShrZero(width);
      CombFar(width, bands - 1);
      HammingBit(1, 0);
    } else {
      HammingZero(0, 0);
    }
  }

  lemma {:induction false} CombShift(width: nat, bands: nat, k: nat)
    requires width > 0 && k <= bands
    ensures Shr(Comb(width, bands), Offset(k, width)) == Comb(width, bands - k)
  {
    if k > 0 {
      ShrAdd(Comb(width, bands), width, Offset(k - 1, width));
      ShlPlusOne(Comb(width, bands - 1), width);
      CombShift(width, bands - 1, k - 1);
    }
  }

  lemma CombKey(width: nat, bands: nat, i: nat)
    requires width > 0 && i < bands
    ensures BandKey(Comb(width, bands), width, bands, i) == 1
  {
    CombShift(width, bands, bands - 1 - i);
    ShlPlusOne(Comb(width, i), width);
    ShlIsMul(0, width);
  }

  /** Near-duplicates of an indexed text are caught by what the edit puts at
      risk: with at most `threshold` bits at risk the edited text is a hit. */
  lemma EditedDocumentCaught<T>(m: Buckets, contents: set<nat>, bits: nat, width: nat, bands: nat, threshold: nat,
                                xs: seq<T>, ys: seq<T>, common: seq<T>, gone: seq<T>, added: seq<T>,
                                digest: T -> nat)
    requires bands > 0 && Represents(m, contents, width, bands) && threshold < bands
    requires Fingerprint(xs, digest, bits) in contents
    requires multiset(xs) == multiset(common + gone) && multiset(ys) == multiset(common + added)
    requires AtRisk(xs, digest, |gone| + |added|, bits) <= threshold
    ensures Hit(m, Fingerprint(ys, digest, bits), width, bands, threshold)
  {
    var (a, b) := (Fingerprint(xs, digest, bits), Fingerprint(ys, digest, bits));
    SimhashStable(xs, ys, common, gone, added, digest, bits);
    HammingSymmetric(a, b);
    assert Near(contents, b, threshold);
    HitIsScan(m, contents, b, width, bands, threshold);
  }

  /** `index` is not transactional: a fingerprint that reached its top bucket
      only is already reported as a duplicate of itself, so it is never filed
      again, while a neighbour one bit away goes unnoticed. */
  lemma PartialIndexSticks(width: nat, bands: nat, threshold: nat)
    requires width > 0 && bands > 1 && threshold > 0
    ensures var m := Execute(map[], FileCommands(0, width, bands, 1));
      && Hit(m, 0, width, bands, threshold)
      && exists c :: Hamming(c, 0) == 1 && !Hit(m, c, width, bands, threshold)
  {
    var m := Execute(map[], FileCommands(0, width, bands, 1));
    FileEffect(map[], 0, width, bands, 1);
    HammingZero(0, 0);
    ZeroKey(width, bands, 0);
    assert 0 in Members(m, Slot(0, BandKey(0, width, bands, 0)));
    var off := Offset(bands - 1, width);
    var c := Shl(1, off);
    HammingSplit(c, 0, off);
    ShrOfShl(1, off, off);
    MaskOfShl(1, off, off);
    ShrZero(off);
    ShlIsMul(0, off);
    HammingBit(1, 0);
    assert Hamming(c, 0) == 1;
    assert BandKey(c, width, bands, 0) == 1;
    assert !Hit(m, c, width, bands, threshold);
  }
}
