/** The host's shared data, the log of committed shard writes, and what each write means.

    Host rule: a write that names a version succeeds only if the shard still has that version; a
    write that names none, because the key was absent when it was read, always succeeds.  Versions
    are never reused.
 */
module SharedStore {
  import opened Wrappers
  import opened Cache
  import opened CacheKey

  datatype Cell = Cell(shard: Shard, version: nat)

  datatype Store = Store(cells: map<nat, Cell>, nextVersion: nat)

  const EMPTY_STORE: Store := Store(map[], 1)

  /** An absent key decodes to the empty shard. */
  function GetShard(st: Store, id: nat): Shard {
    if id in st.cells then st.cells[id].shard else map[]
  }

  function GetCas(st: Store, id: nat): Option<nat> {
    if id in st.cells then Some(st.cells[id].version) else None
  }

  predicate Accepts(st: Store, id: nat, cas: Option<nat>) {
    cas.None? || id !in st.cells || st.cells[id].version == cas.value
  }

  function Write(st: Store, id: nat, value: Shard): Store {
    Store(st.cells[id := Cell(value, st.nextVersion)], st.nextVersion + 1)
  }

  // --- the log -----------------------------------------------------------------------------------

  datatype Op = StoreOp(key: string, entry: CacheEntry) | PurgeKeyOp(key: string) | PurgeAllOp

  /** A committed write: `versioned` says whether it named a version, `readAt` how many writes had been
      committed when it read the shard, `now` is the clock reading its eviction used, `value` the
      shard it wrote. */
  datatype Commit = Commit(worker: nat, op: Op, shardId: nat, versioned: bool, readAt: nat, now: u64, value: Shard)

  function Transform(op: Op, m: Shard, now: u64, quota: nat): Shard {
    match op
    case StoreOp(key, entry) => StoreTransform(m, now, key, entry, quota)
    case PurgeKeyOp(key) => PurgeKeyTransform(m, key)
    case PurgeAllOp => map[]
  }

  predicate RightShard(op: Op, id: nat) {
    match op
    case StoreOp(key, _) => id == ShardId(key)
    case PurgeKeyOp(key) => id == ShardId(key)
    case PurgeAllOp => id < NUM_SHARDS
  }

  /** The shard's value after the writes in `log`. */
  ghost function ValueAt(log: seq<Commit>, id: nat): Shard {
    if log == [] then map[]
    else if log[|log| - 1].shardId == id then log[|log| - 1].value
    else ValueAt(log[..|log| - 1], id)
  }

  /** The write is its transform, applied to the shard as it was at that moment, or, when it named no
      version, applied to the empty shard. */
  ghost predicate Atomic(c: Commit, before: Shard, quota: nat) {
    RightShard(c.op, c.shardId) && c.value == Transform(c.op, if c.versioned then before else map[], c.now, quota)
  }

  /** None of the writes `lo`, .., `hi - 1` was made to shard `id`. */
  ghost predicate Quiet(log: seq<Commit>, lo: nat, hi: nat, id: nat) {
    forall i :: lo <= i < hi && i < |log| ==> log[i].shardId != id
  }

  /** A write that named a version was committed before any other write to the shard that it read; a
      write that named none read the shard before the first write to it. */
  ghost predicate Timely(log: seq<Commit>, i: nat)
    requires i < |log|
  {
    var c := log[i];
    c.readAt <= i && if c.versioned then Quiet(log, c.readAt, i, c.shardId) else Quiet(log, 0, c.readAt, c.shardId)
  }

  predicate OtherOn(c: Commit, id: nat, me: nat) {
    c.shardId == id && c.worker != me
  }

  /** How many of the writes `lo`, .., `hi - 1` other workers made to shard `id`. */
  function OthersBetween(log: seq<Commit>, lo: nat, hi: nat, id: nat, me: nat): nat
    requires hi <= |log|
  {
    if hi <= lo then 0
    else OthersBetween(log, lo, hi - 1, id, me) + if OtherOn(log[hi - 1], id, me) then 1 else 0
  }

  ghost predicate NoneOf(log: seq<Commit>, lo: nat, me: nat) {
    forall i :: lo <= i < |log| ==> log[i].worker != me
  }

  ghost predicate StoreMatchesLog(st: Store, log: seq<Commit>) {
    && (forall id :: GetShard(st, id) == ValueAt(log, id))
    && (forall id :: id in st.cells ==> st.cells[id].version < st.nextVersion)
    && (forall id :: id !in st.cells <==> Quiet(log, 0, |log|, id))
  }

  lemma ValueAtSnoc(log: seq<Commit>, c: Commit, id: nat)
    ensures ValueAt(log + [c], id) == if c.shardId == id then c.value else ValueAt(log, id)
  {
    assert (log + [c])[..|log|] == log;
  }

  lemma WriteMatchesLog(st: Store, log: seq<Commit>, c: Commit)
    requires StoreMatchesLog(st, log)
    ensures StoreMatchesLog(Write(st, c.shardId, c.value), log + [c])
  {
    forall id ensures GetShard(Write(st, c.shardId, c.value), id) == ValueAt(log + [c], id) {
      ValueAtSnoc(log, c, id);
    }
    forall id ensures id !in Write(st, c.shardId, c.value).cells <==> Quiet(log + [c], 0, |log| + 1, id) {
      assert Quiet(log + [c], 0, |log| + 1, id) <==> Quiet(log, 0, |log|, id) && c.shardId != id by {
        assert (log + [c])[|log|] == c;
        assert forall i :: 0 <= i < |log| ==> (log + [c])[i] == log[i];
      }
    }
  }

  /** A count depends only on the part of the log it ranges over. */
  lemma {:induction false} OthersPrefix(a: seq<Commit>, b: seq<Commit>, lo: nat, hi: nat, id: nat, me: nat)
    requires a <= b && hi <= |a|
    ensures OthersBetween(a, lo, hi, id, me) == OthersBetween(b, lo, hi, id, me)
    decreases hi
  {
    if lo < hi { OthersPrefix(a, b, lo, hi - 1, id, me); }
  }

  lemma {:induction false} OthersSplit(log: seq<Commit>, lo: nat, mid: nat, hi: nat, id: nat, me: nat)
    requires lo <= mid <= hi <= |log|
    ensures OthersBetween(log, lo, hi, id, me)
            == OthersBetween(log, lo, mid, id, me) + OthersBetween(log, mid, hi, id, me)
    decreases hi
  {
    if mid < hi { OthersSplit(log, lo, mid, hi - 1, id, me); }
  }

  /** Appending one write never lowers a count that ends at the end of the log. */
  lemma OthersGrow(log: seq<Commit>, c: Commit, lo: nat, id: nat, me: nat)
    ensures OthersBetween(log + [c], lo, |log| + 1, id, me)
            == OthersBetween(log, lo, |log|, id, me) + if lo <= |log| && OtherOn(c, id, me) then 1 else 0
  {
    OthersPrefix(log, log + [c], lo, |log|, id, me);
  }

  /** What a read of `(snapshot, cas)` at log position `readAt` still tells at the end of the log. */
  ghost predicate SnapshotHolds(st: Store, log: seq<Commit>, id: nat, me: nat, readAt: nat, snapshot: Shard, cas: Option<nat>) {
    && readAt <= |log|
    && (cas.None? ==> snapshot == map[] && Quiet(log, 0, readAt, id))
    && (cas.None? && id in st.cells ==> OthersBetween(log, readAt, |log|, id, me) > 0)
    && (cas.Some? ==> id in st.cells && cas.value <= st.cells[id].version)
    && (cas.Some? && cas.value == st.cells[id].version ==> GetShard(st, id) == snapshot && Quiet(log, readAt, |log|, id))
    && (cas.Some? && cas.value < st.cells[id].version ==> OthersBetween(log, readAt, |log|, id, me) > 0)
  }

  lemma SnapshotSurvives(st: Store, log: seq<Commit>, c: Commit, id: nat, me: nat, readAt: nat, snapshot: Shard, cas: Option<nat>)
    requires StoreMatchesLog(st, log) && SnapshotHolds(st, log, id, me, readAt, snapshot, cas)
    requires c.worker != me
    ensures SnapshotHolds(Write(st, c.shardId, c.value), log + [c], id, me, readAt, snapshot, cas)
  {
    OthersGrow(log, c, readAt, id, me);
  }

  /** A write that is accepted although it named a version saw the shard as it now is, and nobody has
      written it since; one that named none read the shard before the first write to it. */
  lemma AcceptedSawCurrent(st: Store, log: seq<Commit>, id: nat, me: nat, readAt: nat, snapshot: Shard, cas: Option<nat>)
    requires StoreMatchesLog(st, log) && SnapshotHolds(st, log, id, me, readAt, snapshot, cas)
    ensures Accepts(st, id, cas) && cas.Some? ==> snapshot == ValueAt(log, id) && Quiet(log, readAt, |log|, id)
    ensures cas.None? ==> snapshot == map[] && Accepts(st, id, cas) && Quiet(log, 0, readAt, id)
    ensures !Accepts(st, id, cas) ==> OthersBetween(log, readAt, |log|, id, me) > 0
  {
  }
}
