/**
 * Runs of the hashing observer: what the harness, the target and the
 * observer's own hooks do to it over many execution cycles, and what stays
 * true across them.
 */
module MapHashRuns {
  import opened Types
  import Crc32
  import opened MapObserver
  import opened MapHash

  /** One thing that happens to the observer. */
  datatype Event =
    | Pre(effect: HookEffect)            // `pre_exec`, with what the wrapped map's own hook did
    | Post                               // `post_exec`
    | Differential(effect: HookEffect)   // one of the four forwarded differential hooks
    | Execute(contents: seq<u8>)         // the target writes the map while it runs
    | ResetMap                           // `reset_map`
    | TruncateMap(newLen: nat)           // `truncate`

  function Apply(s: ObserverState, e: Event): ObserverState {
    match e
    case Pre(effect) => PreExecStep(s, effect).state
    case Post => PostExecStep(s).state
    case Differential(effect) => s.(base := s.base.RunHook(effect).after)
    case Execute(contents) => s.(base := s.base.Overwrite(contents))
    case ResetMap => s.(base := s.base.ResetMap())
    case TruncateMap(n) => s.(base := s.base.Truncate(n))
  }

  /** The state after `events`, in order. */
  function Run(s: ObserverState, events: seq<Event>): ObserverState
    decreases |events|
  {
    if events == [] then s else Run(Apply(s, events[0]), events[1..])
  }

  /**
   * Reference definition of the recorded pre-hash: the CRC-32 of what the
   * most recent successful base `pre_exec` left in the map, or `prev` when
   * there was none.
   */
  function LastPreHash(prev: Option<bv32>, events: seq<Event>): Option<bv32>
    decreases |events|
  {
    if events == [] then prev
    else
      var next := if events[0].Pre? && events[0].effect.Proceed?
                  then Some(Crc32.Hash(events[0].effect.entries)) else prev;
      LastPreHash(next, events[1..])
  }

  /** Whether some event of `events` is a `pre_exec` whose base hook succeeded. */
  predicate HasSuccessfulPre(events: seq<Event>) {
    exists i :: 0 <= i < |events| && events[i].Pre? && events[i].effect.Proceed?
  }

  /** The operations the wrapped map itself sees: `post_exec` is not passed on. */
  function Forwarded(events: seq<Event>): (ops: seq<MapOp>)
    ensures |ops| <= |events|
    decreases |events|
  {
    if events == [] then []
    else
      var head := match events[0]
        case Pre(effect) => [Hook(effect)]
        case Post => []
        case Differential(effect) => [Hook(effect)]
        case Execute(contents) => [Overwrite(contents)]
        case ResetMap => [Reset]
        case TruncateMap(n) => [Truncate(n)];
      head + Forwarded(events[1..])
  }

  /** The recorded pre-hash after a run is the one `LastPreHash` names. */
  lemma {:induction false} RunRecordsLastPreHash(s: ObserverState, events: seq<Event>)
    ensures Run(s, events).lastPreHash == LastPreHash(s.lastPreHash, events)
    decreases |events|
  {
    if events != [] {
      RunRecordsLastPreHash(Apply(s, events[0]), events[1..]);
    }
  }

  /** The settings and the map's name never change. */
  lemma {:induction false} RunKeepsSettings(s: ObserverState, events: seq<Event>)
    ensures Run(s, events).settings == s.settings
    ensures Run(s, events).base.name == s.base.name
    decreases |events|
  {
    if events != [] {
      RunKeepsSettings(Apply(s, events[0]), events[1..]);
    }
  }

  /**
   * The wrapped map ends up exactly as it would have, had the same
   * operations been applied to it directly, without `post_exec`.
   */
  lemma {:induction false} RunForwardsToBase(s: ObserverState, events: seq<Event>)
    ensures Run(s, events).base == s.base.RunOps(Forwarded(events))
    decreases |events|
  {
    if events != [] {
      var t := Apply(s, events[0]);
      RunForwardsToBase(t, events[1..]);
      var rest := Forwarded(events[1..]);
      if events[0].Post? {
        assert Forwarded(events) == rest;
      } else {
        var op := Forwarded(events)[0];
        assert Forwarded(events) == [op] + rest;
        assert ([op] + rest)[1..] == rest;
        assert t.base == s.base.Apply(op);
      }
    }
  }

  /** Without a successful `pre_exec`, the reference pre-hash stays where it started. */
  lemma {:induction false} NoPreKeepsHash(prev: Option<bv32>, events: seq<Event>)
    requires !HasSuccessfulPre(events)
    ensures LastPreHash(prev, events) == prev
    decreases |events|
  {
    if events != [] {
      assert !HasSuccessfulPre(events[1..]) by {
        forall i | 0 <= i < |events[1..]|
          ensures !(events[1..][i].Pre? && events[1..][i].effect.Proceed?)
        {
          assert events[1..][i] == events[i + 1];
        }
      }
      NoPreKeepsHash(prev, events[1..]);
    }
  }

  /**
   * From a fresh observer, `post_exec` succeeds under every setting until a
   * `pre_exec` has succeeded, however the map changed meanwhile.
   */
  lemma PostBeforeAnyPreIsOk(base: BaseMap, settings: Settings, events: seq<Event>)
    requires !HasSuccessfulPre(events)
    ensures PostExecStep(Run(ObserverState(base, settings, None), events)).result == Returned(Ok)
  {
    RunRecordsLastPreHash(ObserverState(base, settings, None), events);
    NoPreKeepsHash(None, events);
  }

  /**
   * A `post_exec` right after another sees the same stale pre-hash and ends
   * the same way.
   */
  lemma RepeatedPostSameResult(s: ObserverState)
    ensures PostExecStep(Run(s, [Post])).result == PostExecStep(s).result
  {
    assert Run(s, [Post]) == Run(Apply(s, Post), []);
  }

  /**
   * One execution cycle: `pre_exec` whose base hook leaves `before` in the
   * map, the target leaves `after`, then `post_exec`.  Returns how the
   * cycle ended and every report it produced.
   */
  function Cycle(s: ObserverState, before: seq<u8>, after: seq<u8>): Step<PostOutcome> {
    var pre := PreExecStep(s, Proceed(before));
    var post := PostExecStep(pre.state.(base := pre.state.base.Overwrite(after)));
    Step(post.state, post.result, pre.reports + post.reports)
  }

  /** A target that did not touch the map: the settings alone decide the outcome. */
  lemma UnchangedMapCycle(s: ObserverState, entries: seq<u8>)
    ensures var r := Cycle(s, entries, entries).result;
            && (s.settings.errIfSame ==> r.Returned? && r.outcome.Err? && r.outcome.error.HashesEqual?)
            && (!s.settings.errIfSame && s.settings.assertDifferent ==> r.Panicked?)
            && (!s.settings.errIfSame && !s.settings.assertDifferent ==> r == Returned(Ok))
  {
  }

  /** A cycle whose fingerprint changed succeeds under every setting. */
  lemma ChangedMapCycle(s: ObserverState, before: seq<u8>, after: seq<u8>)
    requires Crc32.Hash(before) != Crc32.Hash(after)
    ensures Cycle(s, before, after).result == Returned(Ok)
  {
    ChangedHashAlwaysOk(s.settings, Crc32.Hash(before), Crc32.Hash(after), s.base.name);
  }

  /** Number of reports in `r` that went to `sink`. */
  function CountSink(r: seq<Report>, sink: Sink): (n: nat)
    ensures n <= |r|
    decreases |r|
  {
    if r == [] then 0 else (if r[0].sink == sink then 1 else 0) + CountSink(r[1..], sink)
  }

  lemma {:induction false} CountSinkAppend(a: seq<Report>, b: seq<Report>, sink: Sink)
    ensures CountSink(a + b, sink) == CountSink(a, sink) + CountSink(b, sink)
    decreases |a|
  {
    if a == [] {
      assert a + b == b;
    } else {
      assert (a + b)[1..] == a[1..] + b;
      CountSinkAppend(a[1..], b, sink);
    }
  }

  /** The reports of one hook: at most one per sink, and one exactly when its flag is set. */
  lemma ReportsPerSink(settings: Settings, phase: Phase, mapName: string, hash: bv32)
    ensures CountSink(Reports(settings, phase, mapName, hash), Stdout) == if settings.printCrcs then 1 else 0
    ensures CountSink(Reports(settings, phase, mapName, hash), Log) == if settings.logCrcs then 1 else 0
  {
    var r := Reports(settings, phase, mapName, hash);
    if |r| == 2 {
      assert r[1..][1..] == [];
    } else if |r| == 1 {
      assert r[1..] == [];
    }
  }

  /**
   * A completed cycle prints exactly two lines when `print_crcs` is set and
   * none otherwise, and independently logs two records exactly when
   * `log_crcs` is set.
   */
  lemma CycleReportCount(s: ObserverState, before: seq<u8>, after: seq<u8>)
    ensures CountSink(Cycle(s, before, after).reports, Stdout) == if s.settings.printCrcs then 2 else 0
    ensures CountSink(Cycle(s, before, after).reports, Log) == if s.settings.logCrcs then 2 else 0
  {
    var pre := PreExecStep(s, Proceed(before));
    var mid := pre.state.(base := pre.state.base.Overwrite(after));
    var post := PostExecStep(mid);
    var preHash := Crc32.Hash(before);
    var postHash := Crc32.Hash(after);
    assert pre.reports == Reports(s.settings, PreHash, s.base.name, preHash);
    assert post.reports == Reports(s.settings, PostHash, s.base.name, postHash);
    ReportsPerSink(s.settings, PreHash, s.base.name, preHash);
    ReportsPerSink(s.settings, PostHash, s.base.name, postHash);
    CountSinkAppend(pre.reports, post.reports, Stdout);
    CountSinkAppend(pre.reports, post.reports, Log);
  }
}
