/** The cache as csim.c keeps it: an array of sets, each set an array of
    lines that query_cache (csim.c:151-208) updates in place in one pass,
    and the main loop (csim.c:78-112) that allocates the cache and feeds it
    the trace. Each method is proved to do exactly what the value-level
    model in LruSet and Trace says. */
module Csim {
  import opened Addressing
  import opened LruSet
  import opened Trace

  /** cache: `sets[i]` is the line array of cache_set i. */
  class Cache {
    const sets: array<array<Line>>

    /** The shape initialize_cache allocates: 2^s distinct line arrays of
        E lines each. */
    ghost predicate Valid(cp: CacheParams)
      reads this, sets
    {
      && sets.Length == Pow2(cp.s)
      && (forall i :: 0 <= i < sets.Length ==> sets[i].Length == cp.E)
      && (forall i, j :: 0 <= i < j < sets.Length ==> sets[i] != sets[j])
    }

    /** The contents of the cache as a value. */
    ghost function Sets(): (s: seq<seq<Line>>)
      reads this, sets, set i | 0 <= i < sets.Length :: sets[i]
      ensures |s| == sets.Length
      ensures forall i :: 0 <= i < sets.Length ==> s[i] == sets[i][..]
    {
      seq(sets.Length, i requires 0 <= i < sets.Length reads sets, set j | 0 <= j < sets.Length :: sets[j] => sets[i][..])
    }

    /** initialize_cache: numSets sets of E lines, every line invalid with
        tag 0 and counter 0. */
    constructor Init(cp: CacheParams, numSets: nat)
      ensures fresh(sets) && forall i :: 0 <= i < sets.Length ==> fresh(sets[i])
      ensures sets.Length == numSets
      ensures forall i :: 0 <= i < sets.Length ==> sets[i].Length == cp.E
      ensures forall i, j :: 0 <= i < j < sets.Length ==> sets[i] != sets[j]
      ensures Sets() == seq(numSets, _ => seq(cp.E, _ => EmptyLine))
    {
      var placeholder := new Line[0];
      var a := new array<Line>[numSets](_ => placeholder);
      for i := 0 to numSets
        invariant forall k :: 0 <= k < i ==> fresh(a[k]) && a[k] != placeholder
        invariant forall k :: 0 <= k < i ==> a[k][..] == seq(cp.E, _ => EmptyLine)
        invariant forall k, l :: 0 <= k < l < i ==> a[k] != a[l]
      {
        a[i] := new Line[cp.E](_ => EmptyLine);
      }
      sets := a;
      new;
      assert Sets() == seq(numSets, _ => seq(cp.E, _ => EmptyLine));
    }

    /** query_cache: one access to the set the address selects, which is
        updated in place; returns the counters after the access. The new
        contents and counters are exactly those of Trace.Access. */
    method Query(cp: CacheParams, res: Results, addr: Address) returns (res': Results)
      requires WellFormed(cp) && Valid(cp)
      modifies sets[SetIndexOf(cp, addr)]
      ensures var idx := SetIndexOf(cp, addr);
        var p := Probe(old(sets[idx][..]), TagOf(cp, addr));
        sets[idx][..] == p.lines && res' == Account(res, p.outcome)
    {
      var curTag := TagOf(cp, addr);
      var setIdx := SetIndexOf(cp, addr);
      res' := QuerySet(sets[setIdx], curTag, res);
    }
  }

  /** The body of query_cache once the tag and the set are known: one pass
      over the lines of the set that stops at the first hit, ages every
      valid line it passes, and remembers the last invalid line and the
      line with the largest counter; after a pass without a hit it fills
      the remembered invalid line or, in a full set, evicts the remembered
      line. */
  method QuerySet(curSet: array<Line>, curTag: nat, res: Results) returns (res': Results)
    requires curSet.Length >= 1
    modifies curSet
    ensures var p := Probe(old(curSet[..]), curTag);
      curSet[..] == p.lines && res' == Account(res, p.outcome)
  {
    var topIdx := 0;
    var nextEmpty := -1;
    ghost var before := curSet[..];
    var i := 0;
    while i < curSet.Length
      invariant 0 <= i <= curSet.Length == |before|
      invariant Scanned(before, curTag, i, nextEmpty, topIdx)
      invariant curSet[..] == AgedPrefix(before, i)
    {
      ghost var cur, seenEmpty := curSet[..], nextEmpty;
      if curSet[i].valid && curSet[i].tag == curTag {
        ScanEndsInHit(before, curTag, i, nextEmpty, topIdx, cur);
        res' := res.(hits := res.hits + 1);
        curSet[i] := curSet[i].(lruCount := 1);
        return;
      } else if !curSet[i].valid {
        nextEmpty := i;
      }
      ScanStep(before, curTag, i, seenEmpty, topIdx, cur);
      if curSet[i].valid && curSet[topIdx].lruCount <= curSet[i].lruCount {
        topIdx := i;
      }
      if curSet[i].valid {
        curSet[i] := curSet[i].(lruCount := curSet[i].lruCount + 1);
        assert curSet[..] == cur[i := Aged(cur[i])];
      }
      i := i + 1;
    }
    res' := res.(misses := res.misses + 1);
    if nextEmpty != -1 {
      ScanEndsInFill(before, curTag, nextEmpty, topIdx, curSet[..]);
      curSet[nextEmpty] := curSet[nextEmpty].(valid := true, tag := curTag, lruCount := 1);
      return;
    }
    ScanEndsInEviction(before, curTag, nextEmpty, topIdx, curSet[..]);
    curSet[topIdx] := curSet[topIdx].(tag := curTag, lruCount := 1);
    res' := res'.(evicts := res'.evicts + 1);
  }

  /** One call of query_cache from the main loop: the cache and counters
      move exactly as Trace.Access says. */
  method Access(cache: Cache, cp: CacheParams, res: Results, addr: Address) returns (res': Results)
    requires WellFormed(cp) && cache.Valid(cp)
    modifies cache.sets[SetIndexOf(cp, addr)]
    ensures cache.Valid(cp)
    ensures State(cache.Sets(), res') == Trace.Access(cp, State(old(cache.Sets()), res), addr)
  {
    ghost var was := cache.Sets();
    res' := cache.Query(cp, res, addr);
    assert cache.Sets() == was[SetIndexOf(cp, addr) := cache.sets[SetIndexOf(cp, addr)][..]];
  }

  /** main, minus argument parsing, trace reading and printing: allocate
      2^s sets of E lines, run every event of the trace through query_cache
      as the switch on the operation code does, and return the final
      counters. They are those of Trace.Replay from the initial state. */
  method Simulate(cp: CacheParams, events: seq<Event>) returns (hits: nat, misses: nat, evicts: nat)
    requires WellFormed(cp)
    ensures Results(hits, misses, evicts) == Replay(cp, Initial(cp), events).res
  {
    var numSets := Pow2(cp.s);
    var cache := new Cache.Init(cp, numSets);
    var res := Results(0, 0, 0);
    for n := 0 to |events|
      invariant cache.Valid(cp)
      invariant forall i :: 0 <= i < cache.sets.Length ==> fresh(cache.sets[i])
      invariant State(cache.Sets(), res) == Replay(cp, Initial(cp), events[..n])
    {
      assert events[..n + 1][..n] == events[..n];
      var ev := events[n];
      if ev.lead != 'I' {
        match ev.op
        case 'M' =>
          res := Access(cache, cp, res, ev.addr);
          res := res.(hits := res.hits + 1);
        case 'L' =>
          res := Access(cache, cp, res, ev.addr);
        case 'S' =>
          res := Access(cache, cp, res, ev.addr);
        case _ =>
      }
    }
    assert events[..|events|] == events;
    hits, misses, evicts := res.hits, res.misses, res.evicts;
  }
}
