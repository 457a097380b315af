# MapHashingObserver, modelled in Dafny

`MapHashingObserver` (libafl_extra, `src/observers/maphash.rs`) wraps a LibAFL
byte map observer. Before every execution it runs the wrapped map's own
`pre_exec`, then takes the CRC-32 of the map and records it in `last_pre_hash`.
After the execution it takes the CRC-32 again. If that equals the recorded
one, the map was evidently not written during the run. The settings hold four
flags. Two of them decide what happens then: a recoverable `Error`
(`err_if_same`), an `assert_ne!` panic (`assert_different`), or nothing. The
other two (`print_crcs`, `log_crcs`) print or log both fingerprints. Every
other capability of the map (name, length, element access, counting, reset,
truncation, slices, differential hooks) is forwarded to the owned map
unchanged.

Files:

- `types.dfy`: `Option` and the `u8` entry type.
- `crc32.dfy`: `crc32fast::hash` as a function. It is the textbook bitwise CRC-32, with reflected polynomial 0xEDB88320 and initial value and final XOR 0xFFFFFFFF.
- `map_observer.dfy`: the wrapped map `M`, as a plain byte map value (`BaseMap`). It has a reference meaning for `count_bytes`, `how_many_set`, `reset_map` and `truncate`. Its own hooks take their effect as a parameter (`HookEffect`): either they leave some entries in the map, or they fail with an error.
- `maphash.dfy`: the settings, the report lines, the post-execution verdict, the two hooks on state values (`PreExecStep`, `PostExecStep`), and the class `MapHashingObserver`. The class has the source's three fields and the hooks and forwards as methods and functions.
- `maphash_runs.dfy`: sequences of events (hooks, target writes, resets, truncation) and lemmas about whole runs and execution cycles.

The recoverable error and the panic message format both hashes with `{}`,
which is decimal (`src/observers/maphash.rs:95` and `:108`), while the reports
use `{:#x}`. Message text is not modelled: the error and the panic carry the
two numeric hashes and the map name.

The four `DifferentialObserver` hooks all delegate to one shared method,
`MapHash.MapHashingObserver.ForwardHook`, which runs the wrapped map's hook and
adds nothing.

## Model

| member | source | states |
|---|---|---|
| MapHash.NewSettings | src/observers/maphash.rs:24-37 | each of the four flags is stored in its own field, so every one of the 16 combinations can be built |
| MapHash.Reports | src/observers/maphash.rs:61-67 | a hook emits a stdout line exactly when `print_crcs` is set, and a log record exactly when `log_crcs` is set, the stdout line first; every report carries the phase, the map name and the hash |
| MapHash.Verdict | src/observers/maphash.rs:91-116 | the recoverable error happens iff a pre-hash is recorded, it equals the post-hash, and `err_if_same` is set. The panic happens iff the hashes are equal, `err_if_same` is off and `assert_different` is on. Otherwise the result is `Ok` |
| MapHash.PreExecStep | src/observers/maphash.rs:57-72 | a failing base hook's error is returned and the state and reports are unchanged. After a successful base hook, the recorded hash is the CRC-32 of what that hook left in the map, and the pre-hash reports are emitted. The settings never change |
| MapHash.PostExecStep | src/observers/maphash.rs:75-117 | the state is left exactly as it was; the outcome is the verdict on the CRC-32 of the current map; the post-hash reports are emitted |
| MapHash.NoPreHashAlwaysOk | src/observers/maphash.rs:91-116 | with no recorded pre-hash, `post_exec` returns `Ok` under every settings value |
| MapHash.ChangedHashAlwaysOk | src/observers/maphash.rs:104-116 | a post-hash different from the recorded pre-hash is never flagged, whatever the settings |
| MapHash.MapHashingObserver.constructor | src/observers/maphash.rs:225-231 | stores the map and the settings unchanged and starts with no recorded pre-hash |
| MapHash.MapHashingObserver.PreExec | src/observers/maphash.rs:57-72 | agrees with `PreExecStep`. On error it returns the base hook's own error and changes nothing. On success it records the CRC-32 of the map's current entries. The settings are untouched |
| MapHash.MapHashingObserver.PostExec | src/observers/maphash.rs:75-117 | agrees with `PostExecStep` and changes nothing (no `modifies` clause, no call to the base's post hook). A panic needs `assert_different` and no `err_if_same`. An error needs `err_if_same` and a recorded pre-hash equal to the current CRC-32 |
| MapHash.PostTwice | src/observers/maphash.rs:91 | two `post_exec` calls with nothing in between compare against the same stale pre-hash and end the same way |
| MapHash.MapHashingObserver.Name | src/observers/maphash.rs:125-127 | returns the wrapped map's name |
| MapHash.MapHashingObserver.Len | src/observers/maphash.rs:135-137 | returns the wrapped map's length, the number of its entries |
| MapHash.MapHashingObserver.Initial | src/observers/maphash.rs:147-149 | returns the wrapped map's initial entry value |
| MapHash.MapHashingObserver.UsableCount | src/observers/maphash.rs:152-154 | returns the wrapped map's usable count, which is at most its length |
| MapHash.MapHashingObserver.Get | src/observers/maphash.rs:157-159 | returns the wrapped map's entry at the index |
| MapHash.MapHashingObserver.SetEntry | src/observers/maphash.rs:162-164 | a write through `get_mut` changes only that entry of the wrapped map. The settings and the recorded pre-hash are untouched |
| MapHash.MapHashingObserver.CountBytes | src/observers/maphash.rs:167-169 | returns the wrapped map's count of set entries, which is at most its length |
| MapHash.MapHashingObserver.ResetMap | src/observers/maphash.rs:173-175 | the wrapped map is reset and `Ok` is returned. The settings and the recorded pre-hash are untouched |
| MapHash.MapHashingObserver.Hash | src/observers/maphash.rs:177-179 | returns the wrapped map's own hash, not the CRC-32 |
| MapHash.MapHashingObserver.ToVec | src/observers/maphash.rs:180-182 | returns the wrapped map's entries as a vector of the map's length |
| MapHash.MapHashingObserver.HowManySet | src/observers/maphash.rs:184-186 | returns the wrapped map's answer, at most the number of indexes asked about |
| MapHash.MapHashingObserver.Truncate | src/observers/maphash.rs:193-195 | the wrapped map is truncated. The settings and the recorded pre-hash are untouched |
| MapHash.MapHashingObserver.AsSlice | src/observers/maphash.rs:204-206 | returns the wrapped map's entries |
| MapHash.MapHashingObserver.OverwriteSlice | src/observers/maphash.rs:215-217 | writing through the mutable slice changes only the wrapped map's entries |
| MapHash.MapHashingObserver.ForwardHook | src/observers/maphash.rs:295-309 | shared body of the four differential hooks: the wrapped map's hook runs and its result is returned; nothing is fingerprinted, and the settings and recorded pre-hash are untouched |
| MapHash.MapHashingObserver.PreObserveFirst | src/observers/maphash.rs:295-297 | the wrapped map's hook runs and its result is returned; nothing is fingerprinted, and the settings and recorded pre-hash are untouched |
| MapHash.MapHashingObserver.PostObserveFirst | src/observers/maphash.rs:299-301 | as `PreObserveFirst`, for the wrapped map's `post_observe_first` |
| MapHash.MapHashingObserver.PreObserveSecond | src/observers/maphash.rs:303-305 | as `PreObserveFirst`, for the wrapped map's `pre_observe_second` |
| MapHash.MapHashingObserver.PostObserveSecond | src/observers/maphash.rs:307-309 | as `PreObserveFirst`, for the wrapped map's `post_observe_second` |
| MapObserver.BaseMap.RunHook | src/observers/maphash.rs:58 | the wrapped map's own hook either leaves new entries and returns `Ok`, or fails with its error and leaves the map as it was; the name and initial value never change |
| MapObserver.BaseMap.Truncate | src/observers/maphash.rs:193-195 | reference meaning of `truncate`: the map keeps its first `min(newLen, len)` entries |
| MapObserver.CountSetZero | src/observers/maphash.rs:167-169 | reference meaning of `count_bytes`: it is zero exactly when every entry holds the initial value |
| MapObserver.ResetClearsCount | src/observers/maphash.rs:173-175 | after `reset_map`, `count_bytes` is zero |
| MapObserver.HowManyAllIsCount | src/observers/maphash.rs:184-186 | `how_many_set` over every index of the map equals `count_bytes` |
| MapHashRuns.RunRecordsLastPreHash | src/observers/maphash.rs:69 | after any run, the recorded pre-hash is the CRC-32 of what the most recent successful base `pre_exec` left in the map. It is the starting value when there was none. `post_exec`, a failed `pre_exec` and the forwarded operations never change it |
| MapHashRuns.RunKeepsSettings | src/observers/maphash.rs:42-49 | no run changes the settings or the wrapped map's name |
| MapHashRuns.RunForwardsToBase | src/observers/maphash.rs:57-81 | after any run, the wrapped map equals the bare map given the same operations directly. `pre_exec` passes the base hook on; `post_exec` passes nothing on |
| MapHashRuns.NoPreKeepsHash | src/observers/maphash.rs:48 | a run with no successful `pre_exec` leaves the reference pre-hash at its starting value |
| MapHashRuns.PostBeforeAnyPreIsOk | src/observers/maphash.rs:91-116 | from a freshly built observer, `post_exec` returns `Ok` under every setting until some `pre_exec` succeeds, whatever happened to the map meanwhile |
| MapHashRuns.RepeatedPostSameResult | src/observers/maphash.rs:75-117 | a second `post_exec` right after the first ends the same way |
| MapHashRuns.UnchangedMapCycle | src/observers/maphash.rs:92-113 | in a cycle whose target did not change the map: `err_if_same` gives the recoverable error; otherwise `assert_different` gives the panic; with both off the cycle succeeds |
| MapHashRuns.ChangedMapCycle | src/observers/maphash.rs:104-116 | a cycle whose CRC-32 changed succeeds under every setting |
| MapHashRuns.ReportsPerSink | src/observers/maphash.rs:83-89 | one hook writes exactly one stdout line when `print_crcs` is set and none otherwise, and likewise one log record for `log_crcs` |
| MapHashRuns.CycleReportCount | src/observers/maphash.rs:61-89 | a completed cycle prints exactly two lines when `print_crcs` is set and none otherwise; independently, it logs two records exactly when `log_crcs` is set |

## Left out

- CRC-32 internals: `crc32fast` computes the checksum with tables and SIMD. The model defines the same function bit by bit and proves nothing about it beyond its use as a deterministic fingerprint. No test vector is proved.
- Report text: `println!` and `info!` become `Report` values (sink, phase, map name, hash) returned by each hook. The exact line text and the `{:#x}` formatting are not modelled.
- Error text: the recoverable error is `HashesEqual(map name, pre-hash, post-hash)`. The message text of `Error::Unknown`, its decimal formatting and the backtrace are not modelled.
- Panic: `assert_ne!` becomes the outcome `Panicked`. That the process unwinds or terminates is not modelled.
- `init_count_class_16`: a process-wide one-time initialisation for other code; it has no effect on the observer's state.
- Serialization: the serde derives are left out. So is the question of whether `last_pre_hash` survives a round trip.
- `AsIter`, `AsIterMut` and both `IntoIterator` impls: iterator plumbing that hands out the wrapped map's iterators. Their elements are the entries `AsSlice` returns.
- Hook parameters: `state` and `input` are only passed to the wrapped map's `pre_exec`, whose effect is the `HookEffect` parameter. `exit_kind` is ignored.
- The wrapped map: `M` is generic and its code is not part of this model. `BaseMap` gives it the meaning of a plain byte map whose entries are all usable. Its own hooks are represented only by their effect. A failing base hook is assumed to leave the map unchanged. Its `hash` is a stand-in function of the entries, so only the forwarding of `hash` is claimed.
- Differential hooks: the observer tuples they receive are not modelled. Each hook is the wrapped map's hook, with the effect passed in.
- Integer widths: `usize` and `u64` results are unbounded `nat`. The counts are bounded by the map length, so no wrap-around can occur.
- MapHash.MapHashingObserver.Get: requires an index in range; the source panics on an index out of range, and the panic is not modelled.
- MapHash.MapHashingObserver.SetEntry: `get_mut` hands out a reference; the model covers only a single write through it, in range.
- MapHash.MapHashingObserver.OverwriteSlice: `as_mut_slice` hands out a slice; the model covers only replacing its whole contents, at the same length.
- MapHashRuns: the `Execute` event lets the target replace the map's contents with contents of any length. The run lemmas hold for this wider set of runs.
