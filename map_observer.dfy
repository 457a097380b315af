/**
 * The wrapped map: the generic `M: MapObserver<Entry = u8>` that the hashing
 * observer owns.  Its code is not part of this model, so it is given a
 * reference meaning here, that of a plain byte map: a name, a buffer of
 * entries and the entry value that means "not set".  Its own execution
 * hooks are not visible at all; the effect a hook had is passed in as a
 * `HookEffect`.
 */
module MapObserver {
  import opened Types

  /** The errors a hook can return (`libafl::Error`). */
  datatype Error =
    | BaseFailure(reason: string)
      // raised by the wrapped map's own hook and passed on untouched
    | HashesEqual(mapName: string, preHash: bv32, postHash: bv32)
      // the hashing observer's recoverable verification error

  /** Rust's `Result<(), Error>`. */
  datatype Outcome = Ok | Err(error: Error)

  /** What one of the wrapped map's own hooks did: it left `entries` in the map, or it failed. */
  datatype HookEffect = Proceed(entries: seq<u8>) | Abort(error: Error)

  /** The map after a hook, and what the hook returned. */
  datatype HookStep = HookStep(after: BaseMap, outcome: Outcome)

  /** An operation that changes the wrapped map. */
  datatype MapOp =
    | Hook(effect: HookEffect)
    | Reset
    | Truncate(newLen: nat)
    | Overwrite(contents: seq<u8>)

  /** Number of entries of `s` that differ from `initial`. */
  function CountSet(s: seq<u8>, initial: u8): (n: nat)
    ensures n <= |s|
    ensures n == |s| ==> forall k :: 0 <= k < |s| ==> s[k] != initial
  {
    if s == [] then 0
    else (if s[0] != initial then 1 else 0) + CountSet(s[1..], initial)
  }

  /** Number of the positions in `indexes` (counted with repetition) that are in range and set. */
  function HowMany(s: seq<u8>, initial: u8, indexes: seq<nat>): (n: nat)
    ensures n <= |indexes|
  {
    if indexes == [] then 0
    else (if indexes[0] < |s| && s[indexes[0]] != initial then 1 else 0)
         + HowMany(s, initial, indexes[1..])
  }

  /** The index list `lo, lo + 1, ..., hi - 1`. */
  function Range(lo: nat, hi: nat): (r: seq<nat>)
    ensures |r| == if lo <= hi then hi - lo else 0
    ensures forall k :: 0 <= k < |r| ==> r[k] == lo + k
    decreases hi - lo
  {
    if hi <= lo then [] else [lo] + Range(lo + 1, hi)
  }

  /**
   * Stand-in for the wrapped map's own 64-bit hash of its entries: the
   * algorithm belongs to the wrapped map and is not modelled; only that it
   * is a function of the entries matters to the forwarding.  The seed and
   * the recurrence are arbitrary and follow no published hash.
   */
  function ContentHash(s: seq<u8>): nat
    decreases |s|
  {
    if s == [] then 0
    else (ContentHash(s[..|s| - 1]) * 0x100 + s[|s| - 1] as int) % 0x1_0000_0000_0000_0000
  }

  datatype BaseMap = BaseMap(name: string, entries: seq<u8>, initial: u8) {

    function Len(): nat { |entries| }

    /** All entries are usable in a plain byte map. */
    function UsableCount(): nat { |entries| }

    function Get(idx: nat): u8
      requires idx < Len()
    {
      entries[idx]
    }

    function CountBytes(): nat { CountSet(entries, initial) }

    function Hash(): nat { ContentHash(entries) }

    function ToVec(): seq<u8> { entries }

    function HowManySet(indexes: seq<nat>): nat { HowMany(entries, initial, indexes) }

    /** A write through the reference `get_mut(idx)` hands out. */
    function SetEntry(idx: nat, value: u8): (m: BaseMap)
      requires idx < Len()
      ensures m.name == name && m.initial == initial && m.Len() == Len()
      ensures m.Get(idx) == value
      ensures forall k :: 0 <= k < Len() && k != idx ==> m.entries[k] == entries[k]
    {
      this.(entries := entries[idx := value])
    }

    /** `reset_map`: every entry back to the initial value. */
    function ResetMap(): (m: BaseMap)
      ensures m.name == name && m.initial == initial && m.Len() == Len()
      ensures forall k :: 0 <= k < |m.entries| ==> m.entries[k] == initial
    {
      this.(entries := seq(|entries|, _ => initial))
    }

    /** `truncate`: keeps the first `newLen` entries; a longer length changes nothing. */
    function Truncate(newLen: nat): (m: BaseMap)
      ensures m.name == name && m.initial == initial
      ensures m.Len() == if newLen < Len() then newLen else Len()
      ensures m.entries == entries[..m.Len()]
    {
      if newLen < |entries| then this.(entries := entries[..newLen]) else this
    }

    /** The contents written through the slice that `as_mut_slice` hands out. */
    function Overwrite(contents: seq<u8>): (m: BaseMap)
      ensures m.name == name && m.initial == initial && m.entries == contents
    {
      this.(entries := contents)
    }

    /** One of the map's own hooks, with the effect it had. */
    function RunHook(effect: HookEffect): (step: HookStep)
      ensures step.after.name == name && step.after.initial == initial
      ensures effect.Proceed? ==> step == HookStep(this.(entries := effect.entries), Ok)
      ensures effect.Abort? ==> step == HookStep(this, Err(effect.error))
    {
      match effect
      case Proceed(contents) => HookStep(Overwrite(contents), Ok)
      case Abort(e) => HookStep(this, Err(e))
    }

    function Apply(op: MapOp): BaseMap {
      match op
      case Hook(effect) => RunHook(effect).after
      case Reset => ResetMap()
      case Truncate(n) => Truncate(n)
      case Overwrite(contents) => Overwrite(contents)
    }

    /** The map after `ops`, applied in order. */
    function RunOps(ops: seq<MapOp>): (m: BaseMap)
      ensures m.name == name && m.initial == initial
      decreases |ops|
    {
      if ops == [] then this else Apply(ops[0]).RunOps(ops[1..])
    }
  }

  /** `count_bytes` is zero exactly when every entry holds the initial value. */
  lemma {:induction false} CountSetZero(s: seq<u8>, initial: u8)
    ensures CountSet(s, initial) == 0 <==> forall k :: 0 <= k < |s| ==> s[k] == initial
    decreases |s|
  {
    if s != [] {
      CountSetZero(s[1..], initial);
      assert forall k :: 1 <= k < |s| ==> s[k] == s[1..][k - 1];
    }
  }

  /** After `reset_map`, `count_bytes` is zero. */
  lemma ResetClearsCount(m: BaseMap)
    ensures m.ResetMap().CountBytes() == 0
  {
    CountSetZero(m.ResetMap().entries, m.initial);
  }

  /** Asking `how_many_set` about the positions `lo..|s|` counts the set entries of `s[lo..]`. */
  lemma {:induction false} HowManySuffix(s: seq<u8>, initial: u8, lo: nat)
    requires lo <= |s|
    ensures HowMany(s, initial, Range(lo, |s|)) == CountSet(s[lo..], initial)
    decreases |s| - lo
  {
    if lo < |s| {
      HowManySuffix(s, initial, lo + 1);
      assert Range(lo, |s|)[1..] == Range(lo + 1, |s|);
      assert s[lo..][1..] == s[lo + 1..];
    }
  }

  /** `how_many_set` over every index of the map agrees with `count_bytes`. */
  lemma HowManyAllIsCount(m: BaseMap)
    ensures m.HowManySet(Range(0, m.Len())) == m.CountBytes()
  {
    HowManySuffix(m.entries, m.initial, 0);
    assert m.entries[0..] == m.entries;
  }
}
