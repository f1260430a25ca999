/** The heading stack of chunker.py against the ancestor chain of a heading. A
    document is the list of its lines' headings, None for a line of text. */
module Outline {
  import opened Wrappers

  type Depth = n: nat | n >= 1 witness 1

  datatype Heading = Heading(level: Depth, title: string)

  type Doc = seq<Option<Heading>>

  predicate IsHeading(doc: Doc, i: nat) {
    i < |doc| && doc[i].Some?
  }

  function Level(doc: Doc, i: nat): nat {
    if IsHeading(doc, i) then doc[i].value.level else 0
  }

  /** `path[: level - 1]` */
  function Cut<T>(path: seq<T>, level: Depth): seq<T> {
    if level - 1 < |path| then path[..level - 1] else path
  }

  /** The heading stack after k lines, as line numbers. */
  function Stack(doc: Doc, k: nat): (stack: seq<nat>)
    requires k <= |doc|
    ensures forall q | 0 <= q < |stack| :: stack[q] < k && IsHeading(doc, stack[q])
  {
    if k == 0 then []
    else
      var before := Stack(doc, k - 1);
      if doc[k - 1].Some? then Cut(before, doc[k - 1].value.level) + [k - 1] else before
  }

  /** What heading i leaves of the stack it meets. */
  function Kept(doc: Doc, i: nat): seq<nat>
    requires IsHeading(doc, i)
  {
    Cut(Stack(doc, i), doc[i].value.level)
  }

  /** The path is never longer than the heading is deep. */
  lemma PathWithinLevel(doc: Doc, i: nat)
    requires IsHeading(doc, i)
    ensures 1 <= |Stack(doc, i + 1)| <= Level(doc, i)
  {}

  /** The nearest heading before line i whose level is below `level`. */
  function Nearest(doc: Doc, i: nat, level: nat): (r: Option<nat>)
    requires i <= |doc|
    ensures r.Some? ==> r.value < i && IsHeading(doc, r.value) && Level(doc, r.value) < level
  {
    if i == 0 then None
    else if IsHeading(doc, i - 1) && Level(doc, i - 1) < level then Some(i - 1)
    else Nearest(doc, i - 1, level)
  }

  /** Nearest is the last such heading, if there is one. */
  lemma {:induction false} NearestIs(doc: Doc, i: nat, level: nat, t: Option<nat>)
    requires i <= |doc|
    requires t.Some? ==> t.value < i && IsHeading(doc, t.value) && Level(doc, t.value) < level
    requires forall j: nat | j < i && IsHeading(doc, j) && Level(doc, j) < level :: t.Some? && j <= t.value
    ensures Nearest(doc, i, level) == t
  {
    if i > 0 && !(IsHeading(doc, i - 1) && Level(doc, i - 1) < level) {
      NearestIs(doc, i - 1, level, t);
    }
  }

  /** The declarative reading: a heading under its ancestors, each the nearest
      preceding heading of strictly smaller level. */
  function Chain(doc: Doc, i: nat): (chain: seq<nat>)
    requires IsHeading(doc, i)
    ensures chain != [] && chain[|chain| - 1] == i
  {
    var up := Nearest(doc, i, Level(doc, i));
    if up.None? then [i] else Chain(doc, up.value) + [i]
  }

  /** The deepest entry kept is above `level` in the outline. */
  predicate TopAbove(doc: Doc, kept: seq<nat>, level: nat) {
    kept == [] || Level(doc, kept[|kept| - 1]) < level
  }

  predicate KeepsAncestor(doc: Doc, i: nat)
    requires IsHeading(doc, i)
  {
    TopAbove(doc, Kept(doc, i), Level(doc, i))
  }

  ghost predicate AllKeepAncestors(doc: Doc, k: nat) {
    forall i: nat {:trigger KeepsAncestor(doc, i)} | i < k && IsHeading(doc, i) :: KeepsAncestor(doc, i)
  }

  predicate ShadowedBy(doc: Doc, stack: seq<nat>, j: nat, q: nat) {
    q < |stack| && stack[q] >= j && Level(doc, stack[q]) <= Level(doc, j)
  }

  /** Some stack entry at or after j is no deeper than j. */
  ghost predicate Shadowed(doc: Doc, stack: seq<nat>, j: nat) {
    exists q: nat :: ShadowedBy(doc, stack, j, q)
  }

  ghost predicate AllShadowed(doc: Doc, stack: seq<nat>, k: nat) {
    forall j: nat | j < k && IsHeading(doc, j) :: Shadowed(doc, stack, j)
  }

  ghost predicate Monotone(doc: Doc, stack: seq<nat>, k: nat) {
    && (forall q | 0 <= q < |stack| :: stack[q] < k && IsHeading(doc, stack[q]) && Level(doc, stack[q]) >= q + 1)
    && (forall p, q | 0 <= p < q < |stack| ::
          stack[p] < stack[q] && Level(doc, stack[p]) < Level(doc, stack[q]))
  }

  /** The stack up to entry q is the chain of that entry. */
  predicate ChainedAt(doc: Doc, stack: seq<nat>, q: nat) {
    q < |stack| && IsHeading(doc, stack[q]) && Chain(doc, stack[q]) == stack[..q + 1]
  }

  ghost predicate Chained(doc: Doc, stack: seq<nat>) {
    forall q: nat | q < |stack| :: ChainedAt(doc, stack, q)
  }

  ghost predicate Outlined(doc: Doc, stack: seq<nat>, k: nat) {
    Monotone(doc, stack, k) && Chained(doc, stack) && AllShadowed(doc, stack, k)
  }

  lemma PushMonotone(doc: Doc, before: seq<nat>, kept: seq<nat>, i: nat)
    requires IsHeading(doc, i) && Monotone(doc, before, i) && kept == Cut(before, doc[i].value.level)
    requires TopAbove(doc, kept, Level(doc, i))
    ensures Monotone(doc, kept + [i], i + 1)
  {
    forall q | 0 <= q < |kept|
      ensures kept[q] < i && Level(doc, kept[q]) < Level(doc, i)
    {
      if q < |kept| - 1 {
        assert Level(doc, before[q]) < Level(doc, before[|kept| - 1]);
      }
    }
  }

  lemma PushShadows(doc: Doc, before: seq<nat>, kept: seq<nat>, i: nat)
    requires IsHeading(doc, i) && Monotone(doc, before, i) && kept == Cut(before, doc[i].value.level)
    requires AllShadowed(doc, before, i)
    ensures AllShadowed(doc, kept + [i], i + 1)
  {
    var after := kept + [i];
    forall j: nat | j < i && IsHeading(doc, j)
      ensures Shadowed(doc, after, j)
    {
      assert Shadowed(doc, before, j);
      var q: nat :| ShadowedBy(doc, before, j, q);
      if q < |kept| {
        assert ShadowedBy(doc, after, j, q);
      } else {
        assert Level(doc, i) <= q + 1 <= Level(doc, before[q]);
        assert ShadowedBy(doc, after, j, |kept|);
      }
    }
    assert ShadowedBy(doc, after, i, |kept|);
  }

  /** The parent of heading i is the top of what it keeps. */
  lemma ParentIsTop(doc: Doc, before: seq<nat>, kept: seq<nat>, i: nat)
    requires IsHeading(doc, i) && Monotone(doc, before, i) && kept == Cut(before, doc[i].value.level)
    requires TopAbove(doc, kept, Level(doc, i)) && AllShadowed(doc, before, i)
    ensures Nearest(doc, i, Level(doc, i)) == if kept == [] then None else Some(kept[|kept| - 1])
  {
    forall j: nat | j < i && IsHeading(doc, j) && Level(doc, j) < Level(doc, i)
      ensures kept != [] && j <= kept[|kept| - 1]
    {
      assert Shadowed(doc, before, j);
      var q: nat :| ShadowedBy(doc, before, j, q);
      assert q < |kept|;
      if q < |kept| - 1 {
        assert before[q] < before[|kept| - 1];
      }
    }
    NearestIs(doc, i, Level(doc, i), if kept == [] then None else Some(kept[|kept| - 1]));
  }

  lemma PushChained(doc: Doc, before: seq<nat>, kept: seq<nat>, i: nat)
    requires IsHeading(doc, i) && Monotone(doc, before, i) && kept == Cut(before, doc[i].value.level)
    requires TopAbove(doc, kept, Level(doc, i)) && AllShadowed(doc, before, i) && Chained(doc, before)
    ensures Chained(doc, kept + [i])
  {
    var after := kept + [i];
    PushedChain(doc, before, kept, i);
    assert after[..|kept| + 1] == after;
    KeptChains(doc, before, kept, i);
  }

  lemma KeptChains(doc: Doc, before: seq<nat>, kept: seq<nat>, i: nat)
    requires Chained(doc, before) && |kept| <= |before| && kept == before[..|kept|]
    ensures forall q: nat | q < |kept| :: ChainedAt(doc, kept + [i], q)
  {
    forall q: nat | q < |kept|
      ensures ChainedAt(doc, kept + [i], q)
    {
      assert ChainedAt(doc, before, q);
      assert (kept + [i])[..q + 1] == before[..q + 1];
      SameChain(doc, before, kept + [i], q);
    }
  }

  lemma SameChain(doc: Doc, before: seq<nat>, after: seq<nat>, q: nat)
    requires ChainedAt(doc, before, q) && q < |after| && before[..q + 1] == after[..q + 1]
    ensures ChainedAt(doc, after, q)
  {
    assert before[..q + 1][q] == after[..q + 1][q];
  }

  lemma PushedChain(doc: Doc, before: seq<nat>, kept: seq<nat>, i: nat)
    requires IsHeading(doc, i) && Monotone(doc, before, i) && kept == Cut(before, doc[i].value.level)
    requires TopAbove(doc, kept, Level(doc, i)) && AllShadowed(doc, before, i) && Chained(doc, before)
    ensures Chain(doc, i) == kept + [i]
  {
    ParentIsTop(doc, before, kept, i);
    if kept != [] {
      var top := |kept| - 1;
      assert ChainedAt(doc, before, top) && before[..top + 1] == kept;
    }
  }

  lemma PushOutlined(doc: Doc, before: seq<nat>, kept: seq<nat>, i: nat)
    requires IsHeading(doc, i) && kept == Cut(before, doc[i].value.level)
    requires Outlined(doc, before, i) && TopAbove(doc, kept, Level(doc, i))
    ensures Outlined(doc, kept + [i], i + 1)
  {
    PushMonotone(doc, before, kept, i);
    PushShadows(doc, before, kept, i);
    PushChained(doc, before, kept, i);
  }

  lemma SkipOutlined(doc: Doc, stack: seq<nat>, i: nat)
    requires Outlined(doc, stack, i) && !IsHeading(doc, i)
    ensures Outlined(doc, stack, i + 1)
  {}

  lemma StackNext(doc: Doc, i: nat)
    requires i < |doc|
    ensures Stack(doc, i + 1) == if IsHeading(doc, i) then Kept(doc, i) + [i] else Stack(doc, i)
  {}

  /** One line: from the stack before it to the stack after it. */
  lemma StackStep(doc: Doc, i: nat, before: seq<nat>, after: seq<nat>)
    requires i < |doc| && Outlined(doc, before, i)
    requires if IsHeading(doc, i) then var kept := Cut(before, doc[i].value.level);
               after == kept + [i] && TopAbove(doc, kept, Level(doc, i))
             else after == before
    ensures Outlined(doc, after, i + 1)
  {
    if IsHeading(doc, i) {
      PushOutlined(doc, before, Cut(before, doc[i].value.level), i);
    } else {
      SkipOutlined(doc, before, i);
    }
  }

  lemma {:induction false} StackInvariant(doc: Doc, k: nat)
    requires k <= |doc| && AllKeepAncestors(doc, k)
    ensures Outlined(doc, Stack(doc, k), k)
  {
    if k > 0 {
      StackInvariant(doc, k - 1);
      assert IsHeading(doc, k - 1) ==> KeepsAncestor(doc, k - 1);
      StackNext(doc, k - 1);
      StackStep(doc, k - 1, Stack(doc, k - 1), Stack(doc, k));
    }
  }

  /** The heading stack is the ancestor chain, for every heading, exactly when
      no heading keeps an entry that is not above it. */
  lemma StackIsChainExactly(doc: Doc)
    ensures AllKeepAncestors(doc, |doc|) <==>
      forall i: nat | IsHeading(doc, i) :: Stack(doc, i + 1) == Chain(doc, i)
  {
    if AllKeepAncestors(doc, |doc|) {
      forall i: nat | IsHeading(doc, i)
        ensures Stack(doc, i + 1) == Chain(doc, i)
      {
        StackIsChain(doc, i);
      }
    }
    if forall i: nat | IsHeading(doc, i) :: Stack(doc, i + 1) == Chain(doc, i) {
      forall i: nat | i < |doc| && IsHeading(doc, i)
        ensures KeepsAncestor(doc, i)
      {
        ChainKeepsAncestor(doc, i);
      }
    }
  }

  lemma StackIsChain(doc: Doc, i: nat)
    requires IsHeading(doc, i) && AllKeepAncestors(doc, i + 1)
    ensures Stack(doc, i + 1) == Chain(doc, i)
  {
    StackInvariant(doc, i + 1);
    var stack := Stack(doc, i + 1);
    var top := |stack| - 1;
    assert ChainedAt(doc, stack, top) && stack[..top + 1] == stack && stack[top] == i;
  }

  lemma ChainKeepsAncestor(doc: Doc, i: nat)
    requires IsHeading(doc, i) && Stack(doc, i + 1) == Chain(doc, i)
    ensures KeepsAncestor(doc, i)
  {
    var kept := Kept(doc, i);
    var up := Nearest(doc, i, Level(doc, i));
    assert kept + [i] == Chain(doc, i);
    if up.Some? {
      assert (kept + [i])[..|kept|] == kept;
      assert (Chain(doc, up.value) + [i])[..|kept|] == Chain(doc, up.value);
    } else {
      assert |kept + [i]| == 1;
    }
  }

  /** The level of the last heading before line i, or 0. */
  function LastLevel(doc: Doc, i: nat): nat
    requires i <= |doc|
  {
    if i == 0 then 0
    else if IsHeading(doc, i - 1) then Level(doc, i - 1)
    else LastLevel(doc, i - 1)
  }

  /** No heading is more than one level below the heading before it. */
  ghost predicate NeverSkips(doc: Doc) {
    forall i: nat | IsHeading(doc, i) :: Level(doc, i) <= LastLevel(doc, i) + 1
  }

  lemma {:induction false} NeverSkipsStack(doc: Doc, k: nat)
    requires NeverSkips(doc) && k <= |doc|
    ensures |Stack(doc, k)| == LastLevel(doc, k)
    ensures forall q | 0 <= q < |Stack(doc, k)| :: Level(doc, Stack(doc, k)[q]) == q + 1
  {
    if k > 0 {
      NeverSkipsStack(doc, k - 1);
      if IsHeading(doc, k - 1) {
        assert Level(doc, k - 1) <= LastLevel(doc, k - 1) + 1;
        assert Stack(doc, k) == Kept(doc, k - 1) + [k - 1];
      }
    }
  }

  lemma NeverSkipsKeeps(doc: Doc, j: nat)
    requires NeverSkips(doc) && IsHeading(doc, j)
    ensures KeepsAncestor(doc, j)
  {
    NeverSkipsStack(doc, j);
    var kept := Kept(doc, j);
    if kept != [] {
      assert kept[|kept| - 1] == Stack(doc, j)[|kept| - 1];
    }
  }

  /** In documents that never skip a level the path is the ancestor chain. */
  lemma NeverSkipsIsChain(doc: Doc, i: nat)
    requires NeverSkips(doc) && IsHeading(doc, i)
    ensures Stack(doc, i + 1) == Chain(doc, i) && |Stack(doc, i + 1)| == Level(doc, i)
  {
    forall j: nat | j < i + 1 && IsHeading(doc, j)
      ensures KeepsAncestor(doc, j)
    {
      NeverSkipsKeeps(doc, j);
    }
    StackIsChain(doc, i);
    NeverSkipsStack(doc, i + 1);
  }

  /** A skipped level makes siblings nest: under #A, the second of two ### is
      filed under the first. */
  lemma SkippedSiblingsNest(a: string, b: string, c: string)
    ensures var doc := [Some(Heading(1, a)), Some(Heading(3, b)), Some(Heading(3, c))];
      Stack(doc, 3) == [0, 1, 2] && Chain(doc, 2) == [0, 2]
  {
    var doc := [Some(Heading(1, a)), Some(Heading(3, b)), Some(Heading(3, c))];
    assert Stack(doc, 1) == [0];
    assert Stack(doc, 2) == [0, 1];
    assert Nearest(doc, 1, 3) == Some(0);
    assert Nearest(doc, 2, 3) == Some(0);
    assert Chain(doc, 0) == [0];
  }
}
