# csim: a set-associative LRU cache simulator, modelled in Dafny

`csim.c` simulates a cache of 2^s sets with E lines each and blocks of 2^b
bytes. It reads a memory trace and counts the hits, misses and evictions
that an LRU replacement policy would give. This project models the core of
that simulator and proves its properties.

- **`address.dfy` (module `Addressing`)**: the split of a 64-bit address
  into tag, set index and block offset. The logical shift and the mask of
  `query_cache` are defined one bit at a time. `AddressSplit` proves that
  `(addr >> b) == (tag << s) + set_idx`.
- **`lru_set.dfy` (module `LruSet`)**: one cache set as a sequence of
  lines. `Probe` is the value-level specification of one access:
  - On a hit at the first matching line j, the valid lines before j are
    aged and line j's counter is reset to 1.
  - On a miss, every valid line is aged. Then either the highest-indexed
    invalid line is filled, or the victim is overwritten.
  - The victim is the lowest-indexed line among those with the largest
    counter before the probe.

  The lemmas state the effect of each outcome from first principles. They
  also prove the counter and valid-bit invariants, tag uniqueness, and the
  "no eviction while the set has room" property.
- **`trace.dfy` (module `Trace`)**: the whole cache as a sequence of sets,
  and the event dispatch of `main` as a fold (`Replay`) over parsed trace
  events. This module holds the counter invariants over whole traces and
  two worked scenarios.
- **`cache.dfy` (module `Csim`)**: the imperative model.
  - `Cache` is a class whose `sets` field is an array of line arrays.
  - `Cache.Init` builds it as `initialize_cache` does.
  - `QuerySet` is the single in-place pass of `query_cache`, a `while` loop
    with `top_idx` and `next_empty`. It is proved to leave the set and the
    counters exactly as `Probe` and `Account` say.
  - `Simulate` is the loop of `main` over a parsed trace. It is proved to
    end with the counters of `Replay`.

Behaviour that the code fixes, and that the model follows:

- **Victim choice.** The candidate `top_idx` is compared after its own
  counter has already been incremented (csim.c:180-187). A later line
  therefore replaces it only if its pre-probe counter is strictly greater.
  The victim is the lowest-indexed line with the maximal counter, not the
  highest-indexed one, as the `<=` alone would suggest.
- **Fill choice.** The line filled on a miss is the highest-indexed invalid
  line, because `next_empty` is overwritten on every invalid line.
- **Ageing on a hit.** A hit at index j ages the valid lines before j,
  which the pass has already visited. It does not age the lines after j.
- **Modify events.** An `M` event adds one hit after its probe whatever
  the probe's outcome was.

## Model

| member | source | states |
|---|---|---|
| Addressing.SetIndexOf | csim.c:155 | the set index is below 2^s, so it selects one of the 2^s sets |
| Addressing.HighLowSplit | csim.c:154-155 | every value equals its part above bit k, shifted back up, plus its k low bits: `a == ((a >> k) << k) + (a & ((1 << k) - 1))` |
| Addressing.ShiftRightAdd | csim.c:154-155 | shifting right by b and then by s equals shifting right by s + b |
| Addressing.AddressSplit | csim.c:154-155 | `(addr >> b) == (tag << s) + set_idx`, with `tag = addr >> (s + b)` and `set_idx = (addr >> b) & ((1 << s) - 1)` |
| Addressing.SameBlock | csim.c:154-155 | two addresses with the same tag and set index lie in the same block |
| LruSet.FirstHit | csim.c:165-172 | the lowest index of a valid line holding the tag; none exactly when no valid line holds it |
| LruSet.LastInvalid | csim.c:173-177 | the highest index of an invalid line among the first n lines, which `next_empty` holds; none exactly when all of them are valid |
| LruSet.Victim | csim.c:178-183 | an index whose counter is maximal, with every earlier line's counter strictly smaller: the lowest-indexed maximal line |
| LruSet.Probe | csim.c:151-208 | the probed set keeps its size, and the line the outcome names afterwards holds the tag, is valid and has counter 1 |
| LruSet.ScanStep | csim.c:165-188 | one loop iteration without a hit keeps the pass's summary: `next_empty` is the last invalid line seen, and while all lines seen are valid, `top_idx` is their victim; the valid line is aged |
| LruSet.ScanEndsInHit | csim.c:167-172 | stopping at the first matching line and resetting its counter gives the set and outcome of `Probe` |
| LruSet.ScanEndsInFill | csim.c:189-199 | after a full pass that saw an invalid line, filling `next_empty` gives the set and outcome of `Probe` |
| LruSet.ScanEndsInEviction | csim.c:200-206 | after a full pass over a full set, overwriting `top_idx` gives the set and outcome of `Probe` |
| LruSet.Account | csim.c:169-206 | each probe adds exactly one to hits + misses; hits grow exactly on a hit; evicts grow exactly on an eviction |
| LruSet.AccountEvictsBounded | csim.c:189-206 | evicts <= misses is kept by every probe |
| LruSet.ProbeOutcome | csim.c:165-206 | hit iff the tag is resident; fill iff it is not and some line is invalid; eviction iff it is not and every line is valid |
| LruSet.ProbeHit | csim.c:165-188 | on a hit at j: line j's counter becomes 1, valid lines before j are aged by exactly 1, lines after j are untouched, and no tag or valid bit changes |
| LruSet.ProbeFill | csim.c:173-199 | on a miss with an invalid line, the highest-indexed invalid line becomes (tag, valid, 1), every other valid line is aged by 1, and the other invalid lines are untouched |
| LruSet.ProbeEvict | csim.c:178-206 | on a miss in a full set, the lowest-indexed line with the maximal pre-probe counter gets the tag and counter 1, and every other line is aged by 1 |
| LruSet.ProbeKeepsValid | csim.c:194-197 | valid bits never go back to 0; the valid count grows by one exactly on a fill and stays at most E |
| LruSet.ProbeKeepsUniqueTags | csim.c:165-204 | if no two valid lines of a set share a tag before a probe, none do after it |
| LruSet.ProbeTwice | csim.c:165-172 | probing the same tag again hits the line the first probe touched |
| LruSet.Evictions | csim.c:200-206 | a run of probes to one set evicts at most once per probe |
| LruSet.NoEvictionWhileRoom | csim.c:173-199 | a set with c valid lines out of E takes at least E - c probes, of any tags, before it first evicts; the first E probes to an empty set never evict |
| Trace.Initial | csim.c:131-137 | the initial cache has 2^s sets of E lines, all invalid, holds no tag twice, and its counters are 0 |
| Trace.Access | csim.c:151-208 | one `query_cache` call changes only the selected set, leaves the tag resident there, and adds one to hits + misses |
| Trace.Step | csim.c:96-110 | one trace line keeps the cache's shape |
| Trace.Replay | csim.c:95-112 | a whole trace keeps the cache's shape |
| Trace.StepIgnored | csim.c:96-110 | a line starting with `I`, or an unknown operation code, changes neither the cache nor the counters |
| Trace.StepLoadStore | csim.c:104-109 | `L` and `S` make exactly one probe of the selected set and nothing else |
| Trace.StepModify | csim.c:100-103 | `M` makes one probe and then adds one hit; on an address not resident in its set, that is exactly one miss and one hit |
| Trace.ReplayCounters | csim.c:95-112 | over any trace, hits + misses grows by the number of probes plus the number of `M` events, evicts grow by no more than misses, and no counter decreases |
| Trace.CountersFromStart | csim.c:95-112 | from the initial state, hits + misses == probes + `M` events, and evicts <= misses |
| Trace.ReplayKeepsUniqueTags | csim.c:95-112 | no set ever holds a tag in two valid lines |
| Trace.ReplayKeepsValid | csim.c:95-112 | a valid line stays valid for the rest of the trace |
| Trace.DirectMappedScenario | csim.c:95-208 | with s=0, E=1, b=0, the trace L 0, L 1, L 0 gives 0 hits, 3 misses and 2 evictions |
| Trace.TwoWayScenario | csim.c:95-208 | with s=1, E=2, b=0, the trace L 0, L 2, L 0 gives 1 hit, 2 misses and 0 evictions |
| Trace.UninitialisedStart | csim.c:131-137 | starting from leftover memory that holds a valid line with tag 0, L 0 hits; from the all-invalid start it misses |
| Csim.Cache.Init | csim.c:131-137 | allocates 2^s distinct, fresh line arrays of E lines each, all holding the empty line |
| Csim.Cache.Query | csim.c:151-208 | one access changes only the line array of the selected set, into the set `Probe` gives for the address's tag, and returns the counters `Account` gives |
| Csim.QuerySet | csim.c:157-207 | the in-place single pass leaves the array equal to `Probe` of its old contents and returns the counters `Account` gives |
| Csim.Access | csim.c:101-108 | one `query_cache` call from the main loop moves the cache and counters exactly as `Trace.Access` says, and keeps the cache's shape |
| Csim.Simulate | csim.c:78-112 | allocating the cache and running every event through the dispatch ends with the counters `Trace.Replay` gives from the initial state |

## Left out

- Command-line parsing with `getopt` and `atoi` (csim.c:56-76). s, E and b
  are parameters. `WellFormed` requires E >= 1, s < 31 and s + b < 64. The
  C code has undefined behaviour outside these bounds: it writes line 0 of
  an empty set, overflows `1 << s`, and shifts by the word width or more.
- `pow(2, cp.s)` (csim.c:79) is floating point. The model uses the integer
  2^s (`Pow2`).
- Reading the trace with `fopen`, `fgets`, `sscanf` and `fclose`
  (csim.c:90-113) is I/O. The input is a sequence of parsed events: the
  line's first character, the operation code and the address.
- The access size is parsed but never used, so events do not carry it.
- A line that `sscanf` fails to parse leaves the previous operation and
  address in place. The model has no such line.
- `printSummary` comes from `lab3.h`, which is not part of this model.
  `Simulate` returns the three counters instead.
- Trace.Initial: `malloc` leaves the lines uninitialised (csim.c:132-136),
  and the `Results` of `main` is never zeroed (csim.c:51). The model starts
  from all lines invalid with tag 0 and counter 0, and from counters at 0.
  `Trace.UninitialisedStart` shows what leftover memory can change.
- Counters and `lru_count` are C `int`s, and the tag is an
  `unsigned long`. The model uses unbounded integers, so it does not model
  overflow after more than 2^31 - 1 events or ageings.
- Csim.Cache.Query: the counters are passed in and returned as a value,
  while the C code updates them through a pointer. The caller `Csim.Access`
  stores them back.
- Csim.Cache.Query: its postcondition states the new contents of the
  selected set only. `Csim.Access` derives from the frame that the other
  sets and the cache's shape are unchanged.

## Findings

| source | as written | input that shows it | evidently intended | confidence | as-written member | corrected member |
|---|---|---|---|---|---|---|
| csim.c:131-137 | `initialize_cache` never sets `valid`, `tag` or `lru_count` of the lines `malloc` returns, and `Results` in `main` (csim.c:51) is never zeroed | s=0, E=1, b=0, trace `L 0`, with leftover memory holding a valid line with tag 0: the access hits instead of missing | every line starts invalid and every counter starts at 0 | not executed | Trace.UninitialisedStart | Trace.Initial |
