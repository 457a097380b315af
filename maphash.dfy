/**
 * `MapHashingObserver`: wraps a byte map, takes a CRC-32 of it before and
 * after every execution, and reports, rejects or aborts on an execution that
 * left the fingerprint unchanged.  Everything else is forwarded to the
 * wrapped map.
 */
module MapHash {
  import opened Types
  import Crc32
  import opened MapObserver

  /** `MapHashingObserverSettings`: four independent switches; every combination is legal. */
  datatype Settings = Settings(assertDifferent: bool, errIfSame: bool, printCrcs: bool, logCrcs: bool)

  /** `MapHashingObserverSettings::new`: stores each flag in its own field. */
  function NewSettings(assertDifferent: bool, errIfSame: bool, printCrcs: bool, logCrcs: bool): (s: Settings)
    ensures s.assertDifferent == assertDifferent && s.errIfSame == errIfSame
    ensures s.printCrcs == printCrcs && s.logCrcs == logCrcs
  {
    Settings(assertDifferent, errIfSame, printCrcs, logCrcs)
  }

  /** Where a fingerprint report goes: `println!` or the `info!` log. */
  datatype Sink = Stdout | Log

  /** Which fingerprint is reported: `pre_hash` or `post_hash`. */
  datatype Phase = PreHash | PostHash

  /** One report line: the sink, the phase, the map's name and the fingerprint. */
  datatype Report = Report(sink: Sink, phase: Phase, mapName: string, hash: bv32)

  /**
   * The reports one hook emits: a line on standard output when `print_crcs`
   * is set, then a log record when `log_crcs` is set.
   */
  function Reports(settings: Settings, phase: Phase, mapName: string, hash: bv32): (r: seq<Report>)
    ensures |r| == (if settings.printCrcs then 1 else 0) + (if settings.logCrcs then 1 else 0)
    ensures forall i :: 0 <= i < |r| ==> r[i].phase == phase && r[i].mapName == mapName && r[i].hash == hash
    ensures settings.printCrcs <==> |r| > 0 && r[0].sink == Stdout
    ensures settings.logCrcs <==> |r| > 0 && r[|r| - 1].sink == Log
  {
    (if settings.printCrcs then [Report(Stdout, phase, mapName, hash)] else [])
    + (if settings.logCrcs then [Report(Log, phase, mapName, hash)] else [])
  }

  /** How `post_exec` ends: it returns, or the `assert_ne!` panics. */
  datatype PostOutcome =
    | Returned(outcome: Outcome)
    | Panicked(mapName: string, preHash: bv32, postHash: bv32)

  /**
   * The decision `post_exec` takes once the post-execution fingerprint is
   * known.  Only an unchanged fingerprint is ever flagged; the recoverable
   * error takes precedence over the assertion; with no recorded pre-hash
   * nothing is compared.
   */
  function Verdict(settings: Settings, lastPreHash: Option<bv32>, postHash: bv32, mapName: string): (r: PostOutcome)
    ensures r == Returned(Err(HashesEqual(mapName, postHash, postHash)))
            <==> lastPreHash == Some(postHash) && settings.errIfSame
    ensures r == Panicked(mapName, postHash, postHash)
            <==> lastPreHash == Some(postHash) && !settings.errIfSame && settings.assertDifferent
    ensures r == Returned(Ok)
            <==> lastPreHash != Some(postHash) || (!settings.errIfSame && !settings.assertDifferent)
  {
    match lastPreHash
    case None => Returned(Ok)
    case Some(preHash) =>
      if settings.errIfSame && postHash == preHash then
        Returned(Err(HashesEqual(mapName, preHash, postHash)))
      else if settings.assertDifferent && postHash == preHash then
        Panicked(mapName, preHash, postHash)
      else
        Returned(Ok)
  }

  /** The observer's state: the owned map, the settings and the recorded pre-execution hash. */
  datatype ObserverState = ObserverState(base: BaseMap, settings: Settings, lastPreHash: Option<bv32>)

  /** What one hook call leaves behind: the new state, how it ended and what it reported. */
  datatype Step<R> = Step(state: ObserverState, result: R, reports: seq<Report>)

  /**
   * `pre_exec` on state values.  A failing base hook is passed on and nothing
   * else happens; otherwise the map is fingerprinted after the base hook has
   * run, and that fingerprint is recorded.
   */
  function PreExecStep(s: ObserverState, effect: HookEffect): (t: Step<Outcome>)
    ensures t.state.settings == s.settings
    ensures t.state.base == s.base.RunHook(effect).after
    ensures t.result == s.base.RunHook(effect).outcome
    ensures effect.Abort? ==> t.state == s && t.reports == []
    ensures effect.Proceed? ==>
              && t.state.lastPreHash == Some(Crc32.Hash(effect.entries))
              && t.reports == Reports(s.settings, PreHash, s.base.name, Crc32.Hash(effect.entries))
  {
    var step := s.base.RunHook(effect);
    if step.outcome.Err? then
      Step(s, step.outcome, [])
    else
      var preHash := Crc32.Hash(step.after.entries);
      Step(s.(base := step.after, lastPreHash := Some(preHash)), Ok,
           Reports(s.settings, PreHash, step.after.name, preHash))
  }

  /** `post_exec` on state values: the state is left exactly as it was. */
  function PostExecStep(s: ObserverState): (t: Step<PostOutcome>)
    ensures t.state == s
    ensures t.result == Verdict(s.settings, s.lastPreHash, Crc32.Hash(s.base.entries), s.base.name)
    ensures t.reports == Reports(s.settings, PostHash, s.base.name, Crc32.Hash(s.base.entries))
  {
    var postHash := Crc32.Hash(s.base.entries);
    Step(s, Verdict(s.settings, s.lastPreHash, postHash, s.base.name),
         Reports(s.settings, PostHash, s.base.name, postHash))
  }

  /** With no recorded pre-hash, `post_exec` returns `Ok` under all sixteen settings. */
  lemma NoPreHashAlwaysOk(base: BaseMap)
    ensures forall settings: Settings :: PostExecStep(ObserverState(base, settings, None)).result == Returned(Ok)
  {
  }

  /** A fingerprint that changed is never flagged, whatever the settings. */
  lemma ChangedHashAlwaysOk(settings: Settings, preHash: bv32, postHash: bv32, mapName: string)
    requires preHash != postHash
    ensures Verdict(settings, Some(preHash), postHash, mapName) == Returned(Ok)
  {
  }

  class MapHashingObserver {
    var base: BaseMap
    var settings: Settings
    var lastPreHash: Option<bv32>

    function State(): ObserverState
      reads this
    {
      ObserverState(base, settings, lastPreHash)
    }

    /** `MapHashingObserver::new`: nothing has been fingerprinted yet. */
    constructor (base: BaseMap, settings: Settings)
      ensures this.base == base && this.settings == settings && lastPreHash == None
    {
      this.base := base;
      this.settings := settings;
      lastPreHash := None;
    }

    /** `Observer::pre_exec`. */
    method PreExec(effect: HookEffect) returns (r: Outcome, reports: seq<Report>)
      modifies this
      ensures Step(State(), r, reports) == PreExecStep(old(State()), effect)
      ensures settings == old(settings)
      ensures r.Err? ==> r == Err(effect.error) && unchanged(this) && reports == []
      ensures r.Ok? ==> lastPreHash == Some(Crc32.Hash(base.entries)) && base.name == old(base.name)
    {
      var step := base.RunHook(effect);
      if step.outcome.Err? {
        return step.outcome, [];
      }
      base := step.after;
      var preHash := Crc32.Hash(base.entries);
      reports := Reports(settings, PreHash, Name(), preHash);
      lastPreHash := Some(preHash);
      r := Ok;
    }

    /**
     * `Observer::post_exec`.  It has no `modifies` clause: it never writes
     * the recorded pre-hash, the map or the settings, and it does not call
     * the wrapped map's own post-execution hook.
     */
    method PostExec() returns (r: PostOutcome, reports: seq<Report>)
      ensures Step(State(), r, reports) == PostExecStep(State())
      ensures r.Panicked? ==> settings.assertDifferent && !settings.errIfSame
      ensures r.Returned? && r.outcome.Err? ==> settings.errIfSame && lastPreHash == Some(Crc32.Hash(base.entries))
    {
      var postHash := Crc32.Hash(base.entries);
      reports := Reports(settings, PostHash, Name(), postHash);
      if lastPreHash.Some? {
        var preHash := lastPreHash.value;
        if settings.errIfSame && postHash == preHash {
          return Returned(Err(HashesEqual(Name(), preHash, postHash))), reports;
        }
        if settings.assertDifferent {
          if postHash == preHash {
            return Panicked(Name(), preHash, postHash), reports;
          }
        }
      }
      r := Returned(Ok);
    }

    /** `Named::name`. */
    function Name(): (n: string)
      reads this
      ensures n == base.name
    {
      base.name
    }

    /** `HasLen::len`. */
    function Len(): (n: nat)
      reads this
      ensures n == base.Len() && n == |base.entries|
    {
      base.Len()
    }

    /** `MapObserver::initial`. */
    function Initial(): (v: u8)
      reads this
      ensures v == base.initial
    {
      base.initial
    }

    /** `MapObserver::usable_count`. */
    function UsableCount(): (n: nat)
      reads this
      ensures n == base.UsableCount() && n <= Len()
    {
      base.UsableCount()
    }

    /** `MapObserver::get`. */
    function Get(idx: nat): (v: u8)
      reads this
      requires idx < Len()
      ensures v == base.Get(idx) && v == base.entries[idx]
    {
      base.Get(idx)
    }

    /** `MapObserver::count_bytes`. */
    function CountBytes(): (n: nat)
      reads this
      ensures n == base.CountBytes() && n <= Len()
    {
      base.CountBytes()
    }

    /** `MapObserver::hash`: the wrapped map's own hash, not the CRC-32. */
    function Hash(): (h: nat)
      reads this
      ensures h == base.Hash()
    {
      base.Hash()
    }

    /** `MapObserver::to_vec`. */
    function ToVec(): (v: seq<u8>)
      reads this
      ensures v == base.ToVec() && |v| == Len()
    {
      base.ToVec()
    }

    /** `MapObserver::how_many_set`. */
    function HowManySet(indexes: seq<nat>): (n: nat)
      reads this
      ensures n == base.HowManySet(indexes) && n <= |indexes|
    {
      base.HowManySet(indexes)
    }

    /** `AsSlice::as_slice`: the entries, in order. */
    function AsSlice(): (s: seq<u8>)
      reads this
      ensures s == base.entries
    {
      base.entries
    }

    /** `MapObserver::get_mut`, followed by a write of `value` through the reference. */
    method SetEntry(idx: nat, value: u8)
      requires idx < Len()
      modifies this
      ensures base == old(base).SetEntry(idx, value)
      ensures settings == old(settings) && lastPreHash == old(lastPreHash)
    {
      base := base.SetEntry(idx, value);
    }

    /** `AsMutSlice::as_mut_slice`, followed by writing `contents` through the slice. */
    method OverwriteSlice(contents: seq<u8>)
      requires |contents| == Len()
      modifies this
      ensures base == old(base).Overwrite(contents)
      ensures settings == old(settings) && lastPreHash == old(lastPreHash)
    {
      base := base.Overwrite(contents);
    }

    /** `MapObserver::reset_map`. */
    method ResetMap() returns (r: Outcome)
      modifies this
      ensures base == old(base).ResetMap() && r == Ok
      ensures settings == old(settings) && lastPreHash == old(lastPreHash)
    {
      base := base.ResetMap();
      r := Ok;
    }

    /** `Truncate::truncate`. */
    method Truncate(newLen: nat)
      modifies this
      ensures base == old(base).Truncate(newLen)
      ensures settings == old(settings) && lastPreHash == old(lastPreHash)
    {
      base := base.Truncate(newLen);
    }

    /** Shared body of the four differential hooks: the wrapped map's hook, nothing added. */
    method ForwardHook(effect: HookEffect) returns (r: Outcome)
      modifies this
      ensures HookStep(base, r) == old(base).RunHook(effect)
      ensures settings == old(settings) && lastPreHash == old(lastPreHash)
    {
      var step := base.RunHook(effect);
      base := step.after;
      r := step.outcome;
    }

    /** `DifferentialObserver::pre_observe_first`. */
    method PreObserveFirst(effect: HookEffect) returns (r: Outcome)
      modifies this
      ensures HookStep(base, r) == old(base).RunHook(effect)
      ensures settings == old(settings) && lastPreHash == old(lastPreHash)
    {
      r := ForwardHook(effect);
    }

    /** `DifferentialObserver::post_observe_first`. */
    method PostObserveFirst(effect: HookEffect) returns (r: Outcome)
      modifies this
      ensures HookStep(base, r) == old(base).RunHook(effect)
      ensures settings == old(settings) && lastPreHash == old(lastPreHash)
    {
      r := ForwardHook(effect);
    }

    /** `DifferentialObserver::pre_observe_second`. */
    method PreObserveSecond(effect: HookEffect) returns (r: Outcome)
      modifies this
      ensures HookStep(base, r) == old(base).RunHook(effect)
      ensures settings == old(settings) && lastPreHash == old(lastPreHash)
    {
      r := ForwardHook(effect);
    }

    /** `DifferentialObserver::post_observe_second`. */
    method PostObserveSecond(effect: HookEffect) returns (r: Outcome)
      modifies this
      ensures HookStep(base, r) == old(base).RunHook(effect)
      ensures settings == old(settings) && lastPreHash == old(lastPreHash)
    {
      r := ForwardHook(effect);
    }
  }

  /**
   * Two `post_exec` calls with no `pre_exec` between them compare against the
   * same recorded pre-hash and so end the same way.
   */
  method PostTwice(o: MapHashingObserver) returns (first: PostOutcome, second: PostOutcome)
    ensures first == second
    ensures first == Verdict(o.settings, o.lastPreHash, Crc32.Hash(o.base.entries), o.base.name)
  {
    var reports;
    first, reports := o.PostExec();
    second, reports := o.PostExec();
  }
}
