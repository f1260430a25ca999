/** py-processor/dedupe.py: the voting fingerprint and its LSH bands.
    A text enters as the list of its tokens, and the 64-bit blake2b digest of
    a token is the parameter `digest`. */
module Dedupe {
  import opened Wrappers
  import opened Bits

  // ---- bucket_keys -----------------------------------------------------

  datatype BandError = ZeroDivision | NotDivisible

  /** k * width */
  function Offset(k: nat, width: nat): nat {
    if k == 0 then 0 else Offset(k - 1, width) + width
  }

  lemma {:induction false} OffsetIsProduct(k: nat, width: nat)
    ensures Offset(k, width) == k * width
  {
    if k > 0 {
      OffsetIsProduct(k - 1, width);
    }
  }

  lemma {:induction false} OffsetAdd(j: nat, k: nat, width: nat)
    ensures Offset(j + k, width) == Offset(j, width) + Offset(k, width)
  {
    if k > 0 {
      OffsetAdd(j, k - 1, width);
    }
  }

  /** Band i of `bands` bands of `width` bits, counted from the top. The top
      band is not masked: `h` may be wider than the bands. */
  function BandKey(h: nat, width: nat, bands: nat, i: nat): nat
    requires i < bands
  {
    var slice := Shr(h, Offset(bands - 1 - i, width));
    if i == 0 then slice else Mask(slice, width)
  }

  function BandKeys(h: nat, width: nat, bands: nat): (keys: seq<nat>)
    ensures |keys| == bands
    ensures forall i :: 0 <= i < bands ==> keys[i] == BandKey(h, width, bands, i)
  {
    seq(bands, i requires 0 <= i < bands => BandKey(h, width, bands, i))
  }

  method BucketKeys(h: nat, bits: nat, bands: nat) returns (r: Result<seq<nat>, BandError>)
    ensures bands == 0 ==> r == Err(ZeroDivision)
    ensures bands > 0 && bits % bands != 0 ==> r == Err(NotDivisible)
    ensures bands > 0 && bits % bands == 0 ==> r == Ok(BandKeys(h, bits / bands, bands))
  {
    if bands == 0 {
      return Err(ZeroDivision);
    }
    if bits % bands != 0 {
      return Err(NotDivisible);
    }
    var width := bits / bands;
    OffsetIsProduct(bands, width);
    var shift := bits - width;
    var keys, cur := [], h;
    for k := 0 to bands
      invariant |keys| == k
      invariant cur == LoopState(h, width, bits, k)
      invariant forall i :: 0 <= i < k ==> keys[i] == BandKey(h, width, bands, i)
    {
      OffsetAdd(k, bands - k, width);
      LoopKey(h, width, bands, bits, k);
      keys := keys + [Shr(cur, shift)];
      LoopShift(h, width, bits, k);
      cur := Shl(cur, width);
      cur := Mask(cur, bits);
    }
    assert keys == BandKeys(h, width, bands);
    return Ok(keys);
  }

  /** What the loop variable holds before iteration k. */
  function LoopState(h: nat, width: nat, bits: nat, k: nat): nat {
    if k == 0 then h else Mask(Shl(h, Offset(k, width)), bits)
  }

  lemma LoopKey(h: nat, width: nat, bands: nat, bits: nat, k: nat)
    requires k < bands && bits == Offset(bands, width)
    ensures width <= bits
    ensures Shr(LoopState(h, width, bits, k), bits - width) == BandKey(h, width, bands, k)
  {
    OffsetAdd(k, bands - k, width);
    if k > 0 {
      ShrOfMask(Shl(h, Offset(k, width)), bits, bits - width);
      ShrOfShl(h, Offset(k, width), bits - width);
    }
  }

  lemma LoopShift(h: nat, width: nat, bits: nat, k: nat)
    requires Offset(k + 1, width) <= bits
    ensures Mask(Shl(LoopState(h, width, bits, k), width), bits) == LoopState(h, width, bits, k + 1)
  {
    if k > 0 {
      var x := Shl(h, Offset(k, width));
      MaskOfShl(Mask(x, bits), width, bits);
      MaskOfMask(x, bits, bits - width);
      MaskOfShl(x, width, bits);
      ShlAdd(h, Offset(k, width), width);
    }
  }

  lemma {:induction false} ShlAdd(h: nat, i: nat, j: nat)
    ensures Shl(Shl(h, i), j) == Shl(h, i + j)
  {
    if j > 0 {
      ShlAdd(h, i, j - 1);
    }
  }

  /** `reassembled = (reassembled << width) | k` over the keys. */
  function Reassemble(keys: seq<nat>, width: nat): nat {
    if keys == [] then 0
    else Shl(Reassemble(keys[..|keys| - 1], width), width) + keys[|keys| - 1]
  }

  lemma {:induction false} ShrSmall(h: nat, n: nat, w: nat)
    requires h < Pow2(n + w)
    ensures Shr(h, n) < Pow2(w)
  {
    if n > 0 {
      ShrSmall(h / 2, n - 1, w);
    }
  }

  /** For fingerprints of at most bands * width bits the keys are the digits to
      base 2^width, the top one first. */
  lemma BandKeyIsDigit(h: nat, width: nat, bands: nat, i: nat)
    requires i < bands && h < Pow2(bands * width)
    ensures BandKey(h, width, bands, i) == h / Pow2((bands - 1 - i) * width) % Pow2(width)
  {
    var n := Offset(bands - 1 - i, width);
    OffsetIsProduct(bands - 1 - i, width);
    OffsetIsProduct(bands, width);
    ShiftIsDivision(h, n);
    ShiftIsDivision(Shr(h, n), width);
    if i == 0 {
      ShrSmall(h, n, width);
      MaskSmall(Shr(h, n), width);
    }
  }

  /** Splitting into bands loses nothing: the keys read top-down are `h`. */
  lemma BandsReassemble(h: nat, width: nat, bands: nat)
    requires bands > 0
    ensures Reassemble(BandKeys(h, width, bands), width) == h
  {
    ReassemblePrefix(h, width, bands, bands);
    var keys := BandKeys(h, width, bands);
    assert keys[..bands] == keys;
  }

  lemma {:induction false} ReassemblePrefix(h: nat, width: nat, bands: nat, k: nat)
    requires 0 < k <= bands
    ensures Reassemble(BandKeys(h, width, bands)[..k], width) == Shr(h, Offset(bands - k, width))
  {
    var keys := BandKeys(h, width, bands);
    assert keys[..k][..k - 1] == keys[..k - 1];
    if k > 1 {
      ReassemblePrefix(h, width, bands, k - 1);
      var x := Shr(h, Offset(bands - k, width));
      ShrAdd(h, Offset(bands - k, width), width);
      ShiftParts(x, width);
      ShlIsMul(Shr(x, width), width);
    } else {
      assert keys[..0] == [];
      ShlIsMul(0, width);
    }
  }

  /** The sum of the per-band Hamming distances over the first k bands. */
  function BandDistance(xs: seq<nat>, ys: seq<nat>): nat
    requires |xs| == |ys|
  {
    if xs == [] then 0
    else BandDistance(xs[..|xs| - 1], ys[..|xs| - 1]) + Hamming(xs[|xs| - 1], ys[|xs| - 1])
  }

  /** The distance of two fingerprints is the sum over their bands. */
  lemma HammingIsBandDistance(a: nat, b: nat, width: nat, bands: nat)
    requires bands > 0
    ensures Hamming(a, b) == BandDistance(BandKeys(a, width, bands), BandKeys(b, width, bands))
  {
    BandDistancePrefix(a, b, width, bands, bands);
    var (xs, ys) := (BandKeys(a, width, bands), BandKeys(b, width, bands));
    assert xs[..bands] == xs && ys[..bands] == ys;
  }

  lemma {:induction false} BandDistancePrefix(a: nat, b: nat, width: nat, bands: nat, k: nat)
    requires 0 < k <= bands
    ensures BandDistance(BandKeys(a, width, bands)[..k], BandKeys(b, width, bands)[..k])
         == Hamming(Shr(a, Offset(bands - k, width)), Shr(b, Offset(bands - k, width)))
  {
    var (xs, ys) := (BandKeys(a, width, bands), BandKeys(b, width, bands));
    assert xs[..k][..k - 1] == xs[..k - 1] && ys[..k][..k - 1] == ys[..k - 1];
    if k > 1 {
      BandDistancePrefix(a, b, width, bands, k - 1);
      var s := Offset(bands - k, width);
      ShrAdd(a, s, width);
      ShrAdd(b, s, width);
      HammingSplit(Shr(a, s), Shr(b, s), width);
    }
  }

  /** Fewer flipped bits than bands leave some band untouched. */
  lemma {:induction false} Pigeonhole(xs: seq<nat>, ys: seq<nat>) returns (i: nat)
    requires |xs| == |ys| && BandDistance(xs, ys) < |xs|
    ensures i < |xs| && xs[i] == ys[i]
  {
    var last := |xs| - 1;
    HammingZero(xs[last], ys[last]);
    if xs[last] == ys[last] {
      i := last;
    } else {
      i := Pigeonhole(xs[..last], ys[..last]);
    }
  }

  // ---- simhash -----------------------------------------------------------

  /** The vote of one token digest on bit i. */
  function Vote(d: nat, i: nat): int {
    if Bit(d, i) then 1 else -1
  }

  function Tally<T>(tokens: seq<T>, digest: T -> nat, i: nat): int {
    if tokens == [] then 0
    else Tally(tokens[..|tokens| - 1], digest, i) + Vote(digest(tokens[|tokens| - 1]), i)
  }

  /** The number whose bit i, for every i below `bits`, is the strict majority
      vote of the tokens. */
  function Fingerprint<T>(tokens: seq<T>, digest: T -> nat, bits: nat): nat {
    if bits == 0 then 0
    else Fingerprint(tokens, digest, bits - 1)
         + if Tally(tokens, digest, bits - 1) > 0 then Pow2(bits - 1) else 0
  }

  /** The positions of the tokens whose digest has bit i. */
  function Voters<T>(tokens: seq<T>, digest: T -> nat, i: nat): set<nat> {
    set t: nat | t < |tokens| && Bit(digest(tokens[t]), i)
  }

  /** The tokens with the bit less those without it. */
  lemma {:induction false} TallyIsMargin<T>(tokens: seq<T>, digest: T -> nat, i: nat)
    ensures Tally(tokens, digest, i) == 2 * |Voters(tokens, digest, i)| - |tokens|
  {
    if tokens != [] {
      var n := |tokens| - 1;
      TallyIsMargin(tokens[..n], digest, i);
      assert Voters(tokens, digest, i)
          == Voters(tokens[..n], digest, i) + if Bit(digest(tokens[n]), i) then {n} else {};
    }
  }

  /** The loops compute the number below 2^bits whose bit i is set if and only if
      more than half of the tokens have it. */
  method Simhash<T>(tokens: seq<T>, digest: T -> nat, bits: nat) returns (out: nat)
    ensures out == Fingerprint(tokens, digest, bits) < Pow2(bits)
    ensures forall i | 0 <= i < bits :: Bit(out, i) <==> 2 * |Voters(tokens, digest, i)| > |tokens|
  {
    FingerprintBits(tokens, digest, bits);
    var v := new int[bits](_ => 0);
    for t := 0 to |tokens|
      invariant forall i :: 0 <= i < bits ==> v[i] == Tally(tokens[..t], digest, i)
    {
      assert tokens[..t + 1][..t] == tokens[..t];
      var h := Mask(digest(tokens[t]), bits);
      for i := 0 to bits
        invariant forall j :: 0 <= j < i ==> v[j] == Tally(tokens[..t + 1], digest, j)
        invariant forall j :: i <= j < bits ==> v[j] == Tally(tokens[..t], digest, j)
      {
        BitOfMask(digest(tokens[t]), bits, i);
        if Bit(h, i) {
          v[i] := v[i] + 1;
        } else {
          v[i] := v[i] - 1;
        }
      }
    }
    assert tokens[..|tokens|] == tokens;
    out := 0;
    for i := 0 to bits
      invariant out == Fingerprint(tokens, digest, i)
    {
      if v[i] > 0 {
        out := out + Pow2(i); // `out |= 1 << i`; out is below 2^i here
      }
    }
  }

  /** The fingerprint fits in `bits` bits, and bit i is set if and only if more
      than half of the tokens have it. */
  lemma FingerprintBits<T>(tokens: seq<T>, digest: T -> nat, bits: nat)
    ensures Fingerprint(tokens, digest, bits) < Pow2(bits)
    ensures forall i | 0 <= i < bits ::
      Bit(Fingerprint(tokens, digest, bits), i) <==> 2 * |Voters(tokens, digest, i)| > |tokens|
  {
    BitsAreTallies(tokens, digest, bits);
    forall i | 0 <= i < bits
      ensures Tally(tokens, digest, i) == 2 * |Voters(tokens, digest, i)| - |tokens|
    {
      TallyIsMargin(tokens, digest, i);
    }
  }

  lemma {:induction false} BitsAreTallies<T>(tokens: seq<T>, digest: T -> nat, bits: nat)
    ensures Fingerprint(tokens, digest, bits) < Pow2(bits)
    ensures forall i | 0 <= i < bits ::
      Bit(Fingerprint(tokens, digest, bits), i) <==> Tally(tokens, digest, i) > 0
  {
    if bits > 0 {
      var low := Fingerprint(tokens, digest, bits - 1);
      var n := bits - 1;
      var out := Fingerprint(tokens, digest, bits);
      BitsAreTallies(tokens, digest, n);
      SetTop(low, n, Tally(tokens, digest, n) > 0);
      forall i | 0 <= i < n
        ensures Bit(out, i) == Bit(low, i)
      {
        BitOfMask(out, n, i);
      }
    }
  }

  lemma {:induction false} SetTop(low: nat, n: nat, top: bool)
    requires low < Pow2(n)
    ensures var out := low + if top then Pow2(n) else 0;
      out < Pow2(n + 1) && Mask(out, n) == low && Bit(out, n) == top
  {
    var out := low + if top then Pow2(n) else 0;
    if n > 0 {
      SetTop(low / 2, n - 1, top);
      assert out / 2 == low / 2 + if top then Pow2(n - 1) else 0;
    }
  }

  lemma {:induction false} TallyAppend<T>(xs: seq<T>, ys: seq<T>, digest: T -> nat, i: nat)
    ensures Tally(xs + ys, digest, i) == Tally(xs, digest, i) + Tally(ys, digest, i)
  {
    if ys == [] {
      assert xs + ys == xs;
    } else {
      var n := |ys| - 1;
      assert (xs + ys)[..|xs + ys| - 1] == xs + ys[..n];
      TallyAppend(xs, ys[..n], digest, i);
    }
  }

  lemma {:induction false} TallyBound<T>(xs: seq<T>, digest: T -> nat, i: nat)
    ensures -|xs| <= Tally(xs, digest, i) <= |xs|
  {
    if xs != [] {
      TallyBound(xs[..|xs| - 1], digest, i);
    }
  }

  /** Token order does not matter. */
  lemma {:induction false} TallyPermutation<T>(xs: seq<T>, ys: seq<T>, digest: T -> nat, i: nat)
    requires multiset(xs) == multiset(ys)
    ensures Tally(xs, digest, i) == Tally(ys, digest, i)
    decreases |xs|
  {
    if xs == [] {
      assert |multiset(ys)| == |ys|;
    } else {
      var n := |xs| - 1;
      var t := xs[n];
      assert xs == xs[..n] + [t];
      assert t in multiset(ys);
      var k :| 0 <= k < |ys| && ys[k] == t;
      var rest := ys[..k] + ys[k + 1..];
      assert ys == ys[..k] + [t] + ys[k + 1..];
      assert multiset(rest) == multiset(ys) - multiset{t};
      assert multiset(xs[..n]) == multiset(xs) - multiset{t};
      TallyPermutation(xs[..n], rest, digest, i);
      TallyAppend(ys[..k], [t], digest, i);
      TallyAppend(ys[..k] + [t], ys[k + 1..], digest, i);
      TallyAppend(ys[..k], ys[k + 1..], digest, i);
      assert [t][..0] == [];
    }
  }

  lemma {:induction false} FingerprintPermutation<T>(xs: seq<T>, ys: seq<T>, digest: T -> nat, bits: nat)
    requires multiset(xs) == multiset(ys)
    ensures Fingerprint(xs, digest, bits) == Fingerprint(ys, digest, bits)
  {
    if bits > 0 {
      FingerprintPermutation(xs, ys, digest, bits - 1);
      TallyPermutation(xs, ys, digest, bits - 1);
    }
  }

  /** How many of the first `bits` vote counts lie in (-d, d]: the bits an edit
      of d tokens can turn over. */
  function AtRisk<T>(tokens: seq<T>, digest: T -> nat, d: int, bits: nat): nat {
    if bits == 0 then 0
    else AtRisk(tokens, digest, d, bits - 1)
         + if -d < Tally(tokens, digest, bits - 1) <= d then 1 else 0
  }

  /** Stability: taking the tokens `gone` out of a text and putting `added` in,
      anywhere, moves the fingerprint by at most the bits at risk. */
  lemma SimhashStable<T>(xs: seq<T>, ys: seq<T>, common: seq<T>, gone: seq<T>, added: seq<T>,
                         digest: T -> nat, bits: nat)
    requires multiset(xs) == multiset(common + gone)
    requires multiset(ys) == multiset(common + added)
    ensures Hamming(Fingerprint(xs, digest, bits), Fingerprint(ys, digest, bits))
         <= AtRisk(xs, digest, |gone| + |added|, bits)
  {
    var (a, b) := (Fingerprint(xs, digest, bits), Fingerprint(ys, digest, bits));
    BitsAreTallies(xs, digest, bits);
    BitsAreTallies(ys, digest, bits);
    MaskSmall(a, bits);
    MaskSmall(b, bits);
    HammingCountsBits(a, b, bits);
    DifferingBitsAreAtRisk(xs, ys, common, gone, added, digest, bits, bits);
  }

  lemma EditMovesTally<T>(xs: seq<T>, ys: seq<T>, common: seq<T>, gone: seq<T>, added: seq<T>,
                          digest: T -> nat, i: nat)
    requires multiset(xs) == multiset(common + gone)
    requires multiset(ys) == multiset(common + added)
    ensures -(|gone| + |added|) <= Tally(xs, digest, i) - Tally(ys, digest, i) <= |gone| + |added|
  {
    TallyPermutation(xs, common + gone, digest, i);
    TallyPermutation(ys, common + added, digest, i);
    TallyAppend(common, gone, digest, i);
    TallyAppend(common, added, digest, i);
    TallyBound(gone, digest, i);
    TallyBound(added, digest, i);
  }

  lemma {:induction false} DifferingBitsAreAtRisk<T>(
    xs: seq<T>, ys: seq<T>, common: seq<T>, gone: seq<T>, added: seq<T>,
    digest: T -> nat, bits: nat, n: nat)
    requires multiset(xs) == multiset(common + gone)
    requires multiset(ys) == multiset(common + added)
    requires n <= bits
    ensures CountDiff(Fingerprint(xs, digest, bits), Fingerprint(ys, digest, bits), n)
         <= AtRisk(xs, digest, |gone| + |added|, n)
  {
    if n > 0 {
      DifferingBitsAreAtRisk(xs, ys, common, gone, added, digest, bits, n - 1);
      EditMovesTally(xs, ys, common, gone, added, digest, n - 1);
      BitsAreTallies(xs, digest, bits);
      BitsAreTallies(ys, digest, bits);
    }
  }
}
