/** py-processor/embed_chunks.py: the resumable embedding run and the archive it
    leaves on disk. The API is an oracle: a batch fails as a whole after its
    retries, or every text in it gets the vector `embed` assigns to it. */
module Embedding {
  import opened Wrappers

  type Vector = seq<real>

  datatype Item = Item(id: string, text: string)

  /** The files: the archive's two columns, the count in the metadata, the list
      of failed ids. */
  datatype Disk = Disk(ids: seq<string>, vecs: seq<Vector>, count: Option<nat>, failed: Option<seq<string>>)

  /** Killed leaves the run half way; NoVectors is the IndexError that
      `matrix.shape[1]` raises on an archive without rows. */
  datatype Status = Killed | NoVectors | Finished

  function Ids(items: seq<Item>): (ids: seq<string>)
    ensures |ids| == |items|
  {
    seq(|items|, i requires 0 <= i < |items| => items[i].id)
  }

  function Vectors(embed: string -> Vector, items: seq<Item>): (vecs: seq<Vector>)
    ensures |vecs| == |items|
  {
    seq(|items|, i requires 0 <= i < |items| => embed(items[i].text))
  }

  /** `[it for it in items if it["chunk_id"] not in seen]` */
  function Missing(items: seq<Item>, ids: seq<string>): seq<Item> {
    if items == [] then []
    else (if items[0].id in ids then [] else [items[0]]) + Missing(items[1..], ids)
  }

  // ---- what the first k batches do ----------------------------------------------------

  type Positive = n: int | n > 0 witness 1

  /** `batch_texts`, with the items instead of their texts. */
  function Batches(todo: seq<Item>, size: Positive): seq<seq<Item>> {
    if todo == [] then []
    else if |todo| <= size then [todo]
    else [todo[..size]] + Batches(todo[size..], size)
  }

  /** The items of the first k batches. */
  function Flat(bs: seq<seq<Item>>, k: nat): seq<Item>
    requires k <= |bs|
  {
    if k == 0 then [] else Flat(bs, k - 1) + bs[k - 1]
  }

  /** The items embedded by the first k batches, with `ok` the API's answers. */
  function Stored(bs: seq<seq<Item>>, ok: nat -> bool, k: nat): seq<Item>
    requires k <= |bs|
  {
    if k == 0 then [] else Stored(bs, ok, k - 1) + if ok(k - 1) then bs[k - 1] else []
  }

  /** The items given up on by the first k batches. */
  function Skipped(bs: seq<seq<Item>>, ok: nat -> bool, k: nat): seq<Item>
    requires k <= |bs|
  {
    if k == 0 then [] else Skipped(bs, ok, k - 1) + if ok(k - 1) then [] else bs[k - 1]
  }

  /** The archive d with more items appended. */
  ghost predicate Appended(embed: string -> Vector, d: Disk, more: seq<Item>, d': Disk) {
    d'.ids == d.ids + Ids(more) && d'.vecs == d.vecs + Vectors(embed, more)
  }

  datatype Setup = Setup(embed: string -> Vector, size: Positive, saveEvery: int)

  ghost predicate SavedUpTo(s: Setup, d: Disk, done: seq<Item>, n: nat, d': Disk) {
    n <= |done| && Appended(s.embed, d, done[..n], d')
  }

  /** Saved but for a tail shorter than the save interval. */
  ghost predicate SavedPart(s: Setup, d: Disk, done: seq<Item>, d': Disk) {
    exists n: nat :: SavedUpTo(s, d, done, n, d') && (n == |done| || |done| - n < s.saveEvery)
  }

  /** Where the process dies: before a batch (the number of batches stands for
      the point before the last save) or between the last save and the files
      written after it. */
  datatype Kill = Never | AtBatch(k: nat) | AfterSave

  /** What one run does to the files. */
  ghost predicate RunStep(s: Setup, d: Disk, items: seq<Item>, ok: nat -> bool, kill: Kill, d': Disk, status: Status) {
    var bs := Batches(Missing(items, d.ids), s.size);
    var done, skipped := Stored(bs, ok, |bs|), Skipped(bs, ok, |bs|);
    match status
    case Killed =>
      && d'.count == d.count && d'.failed == d.failed
      && (kill.AtBatch? ==> kill.k <= |bs| && SavedPart(s, d, Stored(bs, ok, kill.k), d'))
      && (kill.AfterSave? ==> Appended(s.embed, d, done, d'))
      && !kill.Never?
    case NoVectors =>
      && d'.vecs == [] && Appended(s.embed, d, done, d')
      && d'.count == None && d'.failed == d.failed
    case Finished =>
      && d'.vecs != [] && Appended(s.embed, d, done, d')
      && d'.count == Some(|d'.vecs|)
      && d'.failed == if skipped == [] then d.failed else Some(Ids(skipped))
  }

  class Archive {
    var ids: seq<string>
    var vecs: seq<Vector>
    var count: Option<nat>
    var failed: Option<seq<string>>

    ghost function Files(): Disk
      reads this
    {
      Disk(ids, vecs, count, failed)
    }

    constructor ()
      ensures Files() == Disk([], [], None, None)
    {
      ids, vecs, count, failed := [], [], None, None;
    }

    method Run(s: Setup, items: seq<Item>, ok: nat -> bool, kill: Kill) returns (status: Status)
      modifies this
      ensures RunStep(s, old(Files()), items, ok, kill, Files(), status)
    {
      ghost var before := Files();
      var todo := Missing(items, ids);
      ghost var bs := Batches(todo, s.size);
      var newIds, newVecs := ids, vecs;
      var failedIds: seq<string> := [];
      var saved, offset, k := |ids|, 0, 0;
      ghost var kept: nat := 0;
      assert todo[0..] == todo && bs[0..] == bs;
      while offset < |todo|
        invariant offset <= |todo| && k <= |bs| && bs[k..] == Batches(todo[offset..], s.size)
        invariant Working(s, before, bs, ok, k, newIds, newVecs, failedIds)
        invariant count == before.count && failed == before.failed
        invariant SavedUpTo(s, before, Stored(bs, ok, k), kept, Files())
        invariant saved == |ids| == |before.ids| + kept
        invariant |newIds| == saved || |newIds| - saved < s.saveEvery
        invariant kill.AtBatch? ==> k <= kill.k
        decreases |todo| - offset
      {
        if kill == AtBatch(k) {
          return Killed;
        }
        var next := if offset + s.size < |todo| then offset + s.size else |todo|;
        var batch := todo[offset..next];
        NextBatch(todo, s.size, offset, next, bs, k);
        WorkBatch(s, before, bs, ok, k, newIds, newVecs, failedIds);
        StillSaved(s, before, bs, ok, k, kept, Files());
        if ok(k) {
          newIds, newVecs := newIds + Ids(batch), newVecs + Vectors(s.embed, batch);
          if |newIds| - saved >= s.saveEvery || |newIds| == |items| {
            ids, vecs, saved := newIds, newVecs, |newIds|;
            kept := |Stored(bs, ok, k + 1)|;
            WorkSaved(s, before, bs, ok, k + 1, ids, vecs, failedIds, Files());
          }
        } else {
          failedIds := failedIds + Ids(batch);
        }
        offset, k := next, k + 1;
      }
      assert k == |bs|;
      if kill == AtBatch(k) {
        return Killed;
      }
      status := WriteResults(newIds, newVecs, failedIds, kill == AfterSave);
    }

    /** The last save and the files beside the archive. */
    method WriteResults(newIds: seq<string>, newVecs: seq<Vector>, failedIds: seq<string>, die: bool)
        returns (status: Status)
      modifies this
      ensures ids == newIds && vecs == newVecs
      ensures status == if die then Killed else if newVecs == [] then NoVectors else Finished
      ensures count == match status
        case Killed => old(count)
        case NoVectors => None
        case Finished => Some(|newVecs|)
      ensures failed == if status == Finished && failedIds != [] then Some(failedIds) else old(failed)
    {
      ids, vecs := newIds, newVecs;
      if die {
        return Killed;
      }
      if vecs == [] {
        count := None; // the metadata file is already open for writing
        return NoVectors;
      }
      count := Some(|vecs|);
      if failedIds != [] {
        failed := Some(failedIds);
      }
      status := Finished;
    }
  }

  lemma NextBatch(todo: seq<Item>, size: Positive, offset: nat, next: nat, bs: seq<seq<Item>>, k: nat)
    requires offset < |todo| && next == if offset + size < |todo| then offset + size else |todo|
    requires k <= |bs| && bs[k..] == Batches(todo[offset..], size)
    ensures k < |bs| && bs[k] == todo[offset..next] && bs[k + 1..] == Batches(todo[next..], size)
  {
    var rest := todo[offset..];
    assert bs[k..][0] == bs[k] && bs[k..][1..] == bs[k + 1..];
    if |rest| > size {
      assert rest[..size] == todo[offset..next] && rest[size..] == todo[next..];
    } else {
      assert rest == todo[offset..next] && todo[next..] == [];
    }
  }

  /** The working columns after k batches. */
  ghost predicate Working(s: Setup, d: Disk, bs: seq<seq<Item>>, ok: nat -> bool, k: nat,
                          ids: seq<string>, vecs: seq<Vector>, failedIds: seq<string>)
    requires k <= |bs|
  {
    && ids == d.ids + Ids(Stored(bs, ok, k))
    && vecs == d.vecs + Vectors(s.embed, Stored(bs, ok, k))
    && failedIds == Ids(Skipped(bs, ok, k))
  }

  lemma WorkBatch(s: Setup, d: Disk, bs: seq<seq<Item>>, ok: nat -> bool, k: nat,
                  ids: seq<string>, vecs: seq<Vector>, failedIds: seq<string>)
    requires k < |bs| && Working(s, d, bs, ok, k, ids, vecs, failedIds)
    ensures
      if ok(k) then Working(s, d, bs, ok, k + 1, ids + Ids(bs[k]), vecs + Vectors(s.embed, bs[k]), failedIds)
      else Working(s, d, bs, ok, k + 1, ids, vecs, failedIds + Ids(bs[k]))
  {
    if ok(k) {
      JoinColumns(s.embed, Stored(bs, ok, k), bs[k]);
    } else {
      JoinColumns(s.embed, Skipped(bs, ok, k), bs[k]);
    }
  }

  lemma StillSaved(s: Setup, d: Disk, bs: seq<seq<Item>>, ok: nat -> bool, k: nat, n: nat, d': Disk)
    requires k < |bs| && SavedUpTo(s, d, Stored(bs, ok, k), n, d')
    ensures SavedUpTo(s, d, Stored(bs, ok, k + 1), n, d')
  {
    assert Stored(bs, ok, k + 1)[..n] == Stored(bs, ok, k)[..n];
  }

  lemma WorkSaved(s: Setup, d: Disk, bs: seq<seq<Item>>, ok: nat -> bool, k: nat,
                  ids: seq<string>, vecs: seq<Vector>, failedIds: seq<string>, d': Disk)
    requires k <= |bs| && Working(s, d, bs, ok, k, ids, vecs, failedIds) && d'.ids == ids && d'.vecs == vecs
    ensures SavedUpTo(s, d, Stored(bs, ok, k), |Stored(bs, ok, k)|, d')
  {
    var done := Stored(bs, ok, k);
    assert done[..|done|] == done;
  }

  lemma JoinColumns(embed: string -> Vector, a: seq<Item>, b: seq<Item>)
    ensures Ids(a + b) == Ids(a) + Ids(b)
    ensures Vectors(embed, a + b) == Vectors(embed, a) + Vectors(embed, b)
  {
  }

  lemma {:induction false} FlatCons(b: seq<Item>, bs: seq<seq<Item>>, k: nat)
    requires k <= |bs|
    ensures Flat([b] + bs, k + 1) == b + Flat(bs, k)
  {
    if k == 0 {
      assert Flat([b] + bs, 0) == [] && ([b] + bs)[0] == b;
    } else {
      FlatCons(b, bs, k - 1);
      calc {
        Flat([b] + bs, k + 1);
        Flat([b] + bs, k) + ([b] + bs)[k];
        (b + Flat(bs, k - 1)) + bs[k - 1];
        b + (Flat(bs, k - 1) + bs[k - 1]);
        b + Flat(bs, k);
      }
    }
  }

  /** The batches are the list, cut. */
  lemma {:induction false} BatchesFlat(todo: seq<Item>, size: Positive)
    ensures Flat(Batches(todo, size), |Batches(todo, size)|) == todo
  {
    if |todo| > size {
      BatchesFlat(todo[size..], size);
      var rest := Batches(todo[size..], size);
      FlatCons(todo[..size], rest, |rest|);
    } else if todo != [] {
      FlatCons(todo, [], 0);
      assert [todo] + [] == [todo];
    }
  }

  // ---- what the archive keeps ---------------------------------------------------------------

  ghost predicate NoDup(ids: seq<string>) {
    forall i, j | 0 <= i < j < |ids| :: ids[i] != ids[j]
  }

  /** How many items carry the id x. */
  function Count(items: seq<Item>, x: string): nat {
    if items == [] then 0
    else Count(items[..|items| - 1], x) + if items[|items| - 1].id == x then 1 else 0
  }

  /** Ids and vectors aligned, no id twice, every vector the one for its text. */
  ghost predicate Sound(s: Setup, textOf: string -> string, d: Disk) {
    && |d.ids| == |d.vecs| && NoDup(d.ids)
    && forall i | 0 <= i < |d.ids| :: d.vecs[i] == s.embed(textOf(d.ids[i]))
  }

  /** A chunk file: unique ids that determine the text. */
  ghost predicate ChunkFile(items: seq<Item>, textOf: string -> string) {
    (forall x :: Count(items, x) <= 1) && forall it | it in items :: it.text == textOf(it.id)
  }

  lemma {:induction false} CountConcat(a: seq<Item>, b: seq<Item>, x: string)
    ensures Count(a + b, x) == Count(a, x) + Count(b, x)
  {
    if b == [] {
      assert a + b == a;
    } else {
      assert (a + b)[..|a + b| - 1] == a + b[..|b| - 1];
      CountConcat(a, b[..|b| - 1], x);
    }
  }

  lemma CountCons(it: Item, rest: seq<Item>, x: string)
    ensures Count([it] + rest, x) == Count(rest, x) + if it.id == x then 1 else 0
  {
    CountConcat([it], rest, x);
    assert Count([it][..0], x) == 0;
  }

  lemma {:induction false} CountAt(items: seq<Item>, i: nat, x: string)
    requires i < |items|
    ensures Count(items, x) >= Count(items[..i], x) + if items[i].id == x then 1 else 0
  {
    var front := items[..|items| - 1];
    if i < |front| {
      CountAt(front, i, x);
      assert front[..i] == items[..i];
    }
  }

  lemma CountIn(items: seq<Item>, it: Item)
    requires it in items
    ensures Count(items, it.id) > 0 && it.id in Ids(items)
  {
    var i :| 0 <= i < |items| && items[i] == it;
    CountAt(items, i, it.id);
    assert Ids(items)[i] == it.id;
  }

  lemma DistinctItems(items: seq<Item>, i: nat, j: nat)
    requires i < j < |items| && forall x :: Count(items, x) <= 1
    ensures items[i].id != items[j].id
  {
    var x := items[i].id;
    CountAt(items, j, x);
    CountAt(items[..j], i, x);
  }

  lemma MissingCons(it: Item, rest: seq<Item>, ids: seq<string>)
    ensures Missing([it] + rest, ids) == if it.id in ids then Missing(rest, ids) else [it] + Missing(rest, ids)
  {
    assert ([it] + rest)[1..] == rest;
  }

  lemma {:induction false} MissingCount(items: seq<Item>, ids: seq<string>, x: string)
    ensures Count(Missing(items, ids), x) == if x in ids then 0 else Count(items, x)
  {
    if items != [] {
      var it, rest := items[0], items[1..];
      assert items == [it] + rest;
      MissingCount(rest, ids, x);
      MissingCons(it, rest, ids);
      CountCons(it, rest, x);
      CountCons(it, Missing(rest, ids), x);
    }
  }

  lemma {:induction false} MissingIn(items: seq<Item>, ids: seq<string>)
    ensures forall it | it in Missing(items, ids) :: it in items
  {
    if items != [] {
      MissingIn(items[1..], ids);
    }
  }

  /** Each item of the first k batches is stored or skipped, once. */
  lemma {:induction false} BatchesSplit(bs: seq<seq<Item>>, ok: nat -> bool, k: nat, x: string)
    requires k <= |bs|
    ensures Count(Stored(bs, ok, k), x) + Count(Skipped(bs, ok, k), x) == Count(Flat(bs, k), x)
  {
    if k > 0 {
      BatchesSplit(bs, ok, k - 1, x);
      CountConcat(Flat(bs, k - 1), bs[k - 1], x);
      CountConcat(Stored(bs, ok, k - 1), if ok(k - 1) then bs[k - 1] else [], x);
      CountConcat(Skipped(bs, ok, k - 1), if ok(k - 1) then [] else bs[k - 1], x);
    }
  }

  lemma {:induction false} StoredIn(bs: seq<seq<Item>>, ok: nat -> bool, k: nat)
    requires k <= |bs|
    ensures forall it | it in Stored(bs, ok, k) :: it in Flat(bs, k)
  {
    if k > 0 {
      StoredIn(bs, ok, k - 1);
    }
  }

  lemma {:induction false} Prefixes(bs: seq<seq<Item>>, ok: nat -> bool, k: nat, m: nat)
    requires k <= m <= |bs|
    ensures Flat(bs, k) <= Flat(bs, m)
    ensures Stored(bs, ok, k) <= Stored(bs, ok, m)
    ensures Skipped(bs, ok, k) <= Skipped(bs, ok, m)
    decreases m
  {
    if k < m {
      Prefixes(bs, ok, k, m - 1);
    }
  }

  lemma CountPrefix(a: seq<Item>, b: seq<Item>, x: string)
    requires a <= b
    ensures Count(a, x) <= Count(b, x)
  {
    assert b == a + b[|a|..];
    CountConcat(a, b[|a|..], x);
  }

  /** New items for the archive: from the file, distinct, not yet stored. */
  ghost predicate NewItems(textOf: string -> string, d: Disk, more: seq<Item>) {
    && (forall it | it in more :: it.text == textOf(it.id))
    && forall x :: Count(more, x) <= if x in d.ids then 0 else 1
  }

  lemma StoredAreNew(s: Setup, textOf: string -> string, d: Disk, items: seq<Item>, ok: nat -> bool, k: nat)
    requires ChunkFile(items, textOf) && k <= |Batches(Missing(items, d.ids), s.size)|
    ensures NewItems(textOf, d, Stored(Batches(Missing(items, d.ids), s.size), ok, k))
  {
    var todo := Missing(items, d.ids);
    var bs := Batches(todo, s.size);
    BatchesFlat(todo, s.size);
    Prefixes(bs, ok, k, |bs|);
    StoredIn(bs, ok, k);
    MissingIn(items, d.ids);
    forall x
      ensures Count(Stored(bs, ok, k), x) <= if x in d.ids then 0 else 1
    {
      BatchesSplit(bs, ok, k, x);
      CountPrefix(Flat(bs, k), todo, x);
      MissingCount(items, d.ids, x);
    }
  }

  lemma FewerAreNew(textOf: string -> string, d: Disk, more: seq<Item>, n: nat)
    requires NewItems(textOf, d, more) && n <= |more|
    ensures NewItems(textOf, d, more[..n])
  {
    forall x {
      CountPrefix(more[..n], more, x);
    }
  }

  lemma AppendKeepsSound(s: Setup, textOf: string -> string, d: Disk, more: seq<Item>, d': Disk)
    requires Sound(s, textOf, d) && NewItems(textOf, d, more) && Appended(s.embed, d, more, d')
    ensures Sound(s, textOf, d')
  {
    var n := |d.ids|;
    forall i, j | 0 <= i < j < |d'.ids|
      ensures d'.ids[i] != d'.ids[j]
    {
      if i >= n {
        DistinctItems(more, i - n, j - n);
      } else if j >= n {
        CountIn(more, more[j - n]);
      }
    }
    forall i | 0 <= i < |d'.ids|
      ensures d'.vecs[i] == s.embed(textOf(d'.ids[i]))
    {
      if i >= n {
        assert more[i - n] in more;
      }
    }
  }

  /** What a run leaves, however it ends: a sound archive that extends the one it
      found. */
  lemma RunKeepsSound(s: Setup, textOf: string -> string, d: Disk, items: seq<Item>, ok: nat -> bool, kill: Kill,
                      d': Disk, status: Status)
    requires Sound(s, textOf, d) && ChunkFile(items, textOf) && RunStep(s, d, items, ok, kill, d', status)
    ensures Sound(s, textOf, d') && d.ids <= d'.ids && d.vecs <= d'.vecs
  {
    var bs := Batches(Missing(items, d.ids), s.size);
    if kill.AtBatch? && status == Killed {
      var done := Stored(bs, ok, kill.k);
      StoredAreNew(s, textOf, d, items, ok, kill.k);
      var n: nat :| SavedUpTo(s, d, done, n, d');
      FewerAreNew(textOf, d, done, n);
      AppendKeepsSound(s, textOf, d, done[..n], d');
    } else {
      StoredAreNew(s, textOf, d, items, ok, |bs|);
      AppendKeepsSound(s, textOf, d, Stored(bs, ok, |bs|), d');
    }
  }

  // ---- sequences of runs --------------------------------------------------------------------

  datatype Outcome = Outcome(items: seq<Item>, ok: nat -> bool, kill: Kill, after: Disk, status: Status)

  function Last(d: Disk, runs: seq<Outcome>): Disk {
    if runs == [] then d else runs[|runs| - 1].after
  }

  /** Runs one after the other on the same files, each ending in any way. */
  ghost predicate Runs(s: Setup, textOf: string -> string, d: Disk, runs: seq<Outcome>) {
    runs == [] ||
    var r := runs[|runs| - 1];
    var front := runs[..|runs| - 1];
    && Runs(s, textOf, d, front) && ChunkFile(r.items, textOf)
    && RunStep(s, Last(d, front), r.items, r.ok, r.kill, r.after, r.status)
  }

  lemma {:induction false} RunsKeepSound(s: Setup, textOf: string -> string, d: Disk, runs: seq<Outcome>)
    requires Sound(s, textOf, d) && Runs(s, textOf, d, runs)
    ensures Sound(s, textOf, Last(d, runs)) && d.ids <= Last(d, runs).ids && d.vecs <= Last(d, runs).vecs
  {
    if runs != [] {
      var r, front := runs[|runs| - 1], runs[..|runs| - 1];
      RunsKeepSound(s, textOf, d, front);
      RunKeepsSound(s, textOf, Last(d, front), r.items, r.ok, r.kill, r.after, r.status);
    }
  }

  // ---- what a rerun retries -----------------------------------------------------------------

  lemma {:induction false} MissingTwice(items: seq<Item>, a: seq<string>, b: seq<string>)
    ensures Missing(items, a + b) == Missing(Missing(items, a), b)
  {
    if items != [] {
      var it, rest := items[0], items[1..];
      assert items == [it] + rest;
      MissingTwice(rest, a, b);
      MissingCons(it, rest, a + b);
      MissingCons(it, rest, a);
      MissingCons(it, Missing(rest, a), b);
    }
  }

  lemma {:induction false} MissingConcat(a: seq<Item>, b: seq<Item>, ids: seq<string>)
    ensures Missing(a + b, ids) == Missing(a, ids) + Missing(b, ids)
  {
    if a == [] {
      assert a + b == b;
    } else {
      assert (a + b)[1..] == a[1..] + b;
      MissingConcat(a[1..], b, ids);
    }
  }

  lemma {:induction false} MissingAll(items: seq<Item>, ids: seq<string>)
    requires forall it | it in items :: it.id !in ids
    ensures Missing(items, ids) == items
  {
    if items != [] {
      MissingAll(items[1..], ids);
    }
  }

  lemma {:induction false} MissingNone(items: seq<Item>, ids: seq<string>)
    requires forall it | it in items :: it.id in ids
    ensures Missing(items, ids) == []
  {
    if items != [] {
      assert items[0] in items;
      MissingNone(items[1..], ids);
    }
  }

  lemma InPrefix(front: seq<Item>, batch: seq<Item>, all: seq<Item>)
    requires front + batch <= all
    ensures forall it | it in batch :: it in all
  {
    forall it | it in batch
      ensures it in all
    {
      assert it in front + batch;
    }
  }

  lemma BatchIn(bs: seq<seq<Item>>, ok: nat -> bool, k: nat)
    requires k < |bs|
    ensures forall it | it in bs[k] :: it in if ok(k) then Stored(bs, ok, |bs|) else Skipped(bs, ok, |bs|)
  {
    Prefixes(bs, ok, k + 1, |bs|);
    if ok(k) {
      InPrefix(Stored(bs, ok, k), bs[k], Stored(bs, ok, |bs|));
    } else {
      InPrefix(Skipped(bs, ok, k), bs[k], Skipped(bs, ok, |bs|));
    }
  }

  /** Items that were stored are not missing, the others are. */
  lemma BatchMissing(done: seq<Item>, skipped: seq<Item>, batch: seq<Item>, ok: bool)
    requires forall x :: Count(done, x) + Count(skipped, x) <= 1
    requires forall it | it in batch :: it in if ok then done else skipped
    ensures Missing(batch, Ids(done)) == if ok then [] else batch
  {
    forall it | it in batch
      ensures it.id in Ids(done) <==> ok
    {
      CountIn(if ok then done else skipped, it);
      if !ok && it.id in Ids(done) {
        var i :| 0 <= i < |done| && Ids(done)[i] == it.id;
        CountIn(done, done[i]);
      }
    }
    if ok {
      MissingNone(batch, Ids(done));
    } else {
      MissingAll(batch, Ids(done));
    }
  }

  /** What is missing from batch k is all of it if it failed, else nothing. */
  ghost predicate Explains(bs: seq<seq<Item>>, ok: nat -> bool, k: nat, ids: seq<string>) {
    k < |bs| && Missing(bs[k], ids) == if ok(k) then [] else bs[k]
  }

  lemma {:induction false} MissingPrefix(bs: seq<seq<Item>>, ok: nat -> bool, k: nat, ids: seq<string>)
    requires k <= |bs| && forall j: nat | j < k :: Explains(bs, ok, j, ids)
    ensures Missing(Flat(bs, k), ids) == Skipped(bs, ok, k)
  {
    if k > 0 {
      MissingPrefix(bs, ok, k - 1, ids);
      MissingConcat(Flat(bs, k - 1), bs[k - 1], ids);
      assert Explains(bs, ok, k - 1, ids);
    }
  }

  lemma MissingSkipped(bs: seq<seq<Item>>, ok: nat -> bool)
    requires forall x :: Count(Flat(bs, |bs|), x) <= 1
    ensures Missing(Flat(bs, |bs|), Ids(Stored(bs, ok, |bs|))) == Skipped(bs, ok, |bs|)
  {
    var done, skipped := Stored(bs, ok, |bs|), Skipped(bs, ok, |bs|);
    forall x
      ensures Count(done, x) + Count(skipped, x) <= 1
    {
      BatchesSplit(bs, ok, |bs|, x);
    }
    forall k: nat | k < |bs|
      ensures Explains(bs, ok, k, Ids(done))
    {
      BatchIn(bs, ok, k);
      BatchMissing(done, skipped, bs[k], ok(k));
    }
    MissingPrefix(bs, ok, |bs|, Ids(done));
  }

  /** A run that completes its batches leaves exactly the skipped items for the
      next one, in order; stored and skipped together are the whole list. */
  lemma RerunRetriesSkipped(s: Setup, textOf: string -> string, d: Disk, items: seq<Item>, ok: nat -> bool, kill: Kill,
                            d': Disk, status: Status)
    requires ChunkFile(items, textOf)
    requires RunStep(s, d, items, ok, kill, d', status) && (status == Killed ==> kill == AfterSave)
    ensures var todo := Missing(items, d.ids);
      var bs := Batches(todo, s.size);
      var done, skipped := Stored(bs, ok, |bs|), Skipped(bs, ok, |bs|);
      && d'.ids == d.ids + Ids(done)
      && Missing(items, d'.ids) == skipped
      && (forall x :: Count(done, x) + Count(skipped, x) == Count(todo, x))
      && (status == Finished && skipped != [] ==> d'.failed == Some(Ids(Missing(items, d'.ids))))
  {
    var todo := Missing(items, d.ids);
    var bs := Batches(todo, s.size);
    BatchesFlat(todo, s.size);
    forall x
      ensures Count(Stored(bs, ok, |bs|), x) + Count(Skipped(bs, ok, |bs|), x) == Count(todo, x) <= 1
    {
      BatchesSplit(bs, ok, |bs|, x);
      MissingCount(items, d.ids, x);
    }
    MissingSkipped(bs, ok);
    MissingTwice(items, d.ids, Ids(Stored(bs, ok, |bs|)));
  }

  /** The failure list on disk names exactly what a rerun retries, if and only
      if the rerun retries something: a clean run leaves an older list behind. */
  lemma FailureListIsCurrent(s: Setup, textOf: string -> string, d: Disk, items: seq<Item>, ok: nat -> bool, kill: Kill,
                             d': Disk)
    requires ChunkFile(items, textOf) && RunStep(s, d, items, ok, kill, d', Finished)
    requires d.failed != Some([])
    ensures d'.failed == Some(Ids(Missing(items, d'.ids))) <==> Missing(items, d'.ids) != []
    ensures d'.failed != Some([])
  {
    RerunRetriesSkipped(s, textOf, d, items, ok, kill, d', Finished);
  }

  /** A run that is not killed raises exactly when the archive was empty and no
      batch succeeded; then the rerun faces the same list, and the failure list
      that should name it was not written. */
  lemma NoVectorsExactly(s: Setup, d: Disk, items: seq<Item>, ok: nat -> bool, kill: Kill, d': Disk, status: Status)
    requires RunStep(s, d, items, ok, kill, d', status) && status != Killed
    ensures var bs := Batches(Missing(items, d.ids), s.size);
      status == NoVectors <==> d.vecs == [] && Stored(bs, ok, |bs|) == []
    ensures status == NoVectors ==> Missing(items, d'.ids) == Missing(items, d.ids) && d'.failed == d.failed
  {
    var bs := Batches(Missing(items, d.ids), s.size);
    if status == NoVectors {
      assert d'.ids == d.ids;
    }
  }

  lemma {:induction false} NoneSkipped(bs: seq<seq<Item>>, ok: nat -> bool, k: nat)
    requires k <= |bs| && forall i: nat | i < k :: ok(i)
    ensures Skipped(bs, ok, k) == []
  {
    if k > 0 {
      NoneSkipped(bs, ok, k - 1);
    }
  }

  /** One run in which the API answers every batch stores every chunk left. */
  lemma CleanRunCompletes(s: Setup, textOf: string -> string, d: Disk, items: seq<Item>, ok: nat -> bool,
                          d': Disk, status: Status)
    requires ChunkFile(items, textOf) && RunStep(s, d, items, ok, Never, d', status) && forall k: nat :: ok(k)
    ensures forall it | it in items :: it.id in d'.ids
  {
    var bs := Batches(Missing(items, d.ids), s.size);
    NoneSkipped(bs, ok, |bs|);
    RerunRetriesSkipped(s, textOf, d, items, ok, Never, d', status);
    forall it | it in items
      ensures it.id in d'.ids
    {
      CountIn(items, it);
      MissingCount(items, d'.ids, it.id);
    }
  }
}
