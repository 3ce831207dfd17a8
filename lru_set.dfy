/** One cache set and the probe of query_cache (csim.c:151-208), stated on
    values: a set is the sequence of its E lines, and Probe gives the set
    after one access together with what happened (hit, fill of an empty
    line, or eviction). The imperative single-pass loop that the C code runs
    is Csim.QuerySet, which is proved to produce exactly this. */
module LruSet {

  datatype Option<T> = None | Some(value: T)

  /** cache_line: the tag held, the valid bit and the LRU counter
      (lower = more recently used, 1 = just touched). */
  datatype Line = Line(tag: nat, valid: bool, lruCount: int)

  /** The state every line starts in. */
  const EmptyLine: Line := Line(0, false, 0)

  /** What a probe did, and at which index of the set. */
  datatype Outcome = Hit(at: nat) | Fill(at: nat) | Evict(at: nat)

  /** The set after a probe, and the probe's outcome. */
  datatype ProbeResult = ProbeResult(lines: seq<Line>, outcome: Outcome)

  /** results: the hit, miss and eviction counters. */
  datatype Results = Results(hits: nat, misses: nat, evicts: nat)

  predicate Matches(l: Line, tag: nat)
  {
    l.valid && l.tag == tag
  }

  /** Some valid line of the set holds the tag. */
  predicate Resident(lines: seq<Line>, tag: nat)
  {
    exists i :: 0 <= i < |lines| && Matches(lines[i], tag)
  }

  /** No two valid lines of the set hold the same tag. */
  predicate UniqueTags(lines: seq<Line>)
  {
    forall i, j :: 0 <= i < j < |lines| && lines[i].valid && lines[j].valid ==> lines[i].tag != lines[j].tag
  }

  /** The ageing step of the scan: a valid line's counter grows by one. */
  function Aged(l: Line): Line
  {
    if l.valid then l.(lruCount := l.lruCount + 1) else l
  }

  /** The lowest index of a valid line holding the tag. */
  function FirstHit(lines: seq<Line>, tag: nat): (r: Option<nat>)
    ensures r.Some? ==> r.value < |lines| && Matches(lines[r.value], tag)
    ensures r.Some? ==> forall k :: 0 <= k < r.value ==> !Matches(lines[k], tag)
    ensures r.None? <==> !Resident(lines, tag)
  {
    if |lines| == 0 then None
    else if Matches(lines[0], tag) then Some(0)
    else match FirstHit(lines[1..], tag)
      case None => None
      case Some(j) => Some(j + 1)
  }

  /** The highest index of an invalid line among the first n lines (the
      slot `next_empty` holds after n steps of the scan). */
  function LastInvalid(lines: seq<Line>, n: nat): (r: Option<nat>)
    requires n <= |lines|
    ensures r.Some? ==> r.value < n && !lines[r.value].valid
    ensures r.Some? ==> forall k :: r.value < k < n ==> lines[k].valid
    ensures r.None? <==> forall k :: 0 <= k < n ==> lines[k].valid
  {
    if n == 0 then None
    else if !lines[n - 1].valid then Some(n - 1)
    else LastInvalid(lines, n - 1)
  }

  /** The eviction victim among the first n lines: the lowest index among
      those whose counter is maximal. */
  function Victim(lines: seq<Line>, n: nat): (v: nat)
    requires 0 < n <= |lines|
    ensures v < n
    ensures forall k :: 0 <= k < n ==> lines[k].lruCount <= lines[v].lruCount
    ensures forall k :: 0 <= k < v ==> lines[k].lruCount < lines[v].lruCount
  {
    if n == 1 then 0
    else
      var v := Victim(lines, n - 1);
      if lines[v].lruCount < lines[n - 1].lruCount then n - 1 else v
  }

  /** The set after the scan has aged lines 0 .. n-1 and not yet reached
      the others. */
  function AgedPrefix(lines: seq<Line>, n: nat): (r: seq<Line>)
    requires n <= |lines|
    ensures |r| == |lines|
  {
    seq(|lines|, i requires 0 <= i < |lines| => if i < n then Aged(lines[i]) else lines[i])
  }

  /** One access to a set of E >= 1 lines with the given tag:
      - a hit at the first matching line j ages the valid lines before j,
        resets line j's counter to 1 and leaves the lines after j alone;
      - otherwise every valid line is aged, and the highest-indexed invalid
        line is filled, or, when every line is valid, the victim is
        overwritten with the tag and counter 1. */
  function Probe(lines: seq<Line>, tag: nat): (r: ProbeResult)
    requires |lines| > 0
    ensures |r.lines| == |lines| && r.outcome.at < |lines|
    ensures Matches(r.lines[r.outcome.at], tag) && r.lines[r.outcome.at].lruCount == 1
  {
    match FirstHit(lines, tag)
    case Some(j) => ProbeResult(AgedPrefix(lines, j)[j := lines[j].(lruCount := 1)], Hit(j))
    case None =>
      var aged := AgedPrefix(lines, |lines|);
      match LastInvalid(lines, |lines|)
      case Some(k) => ProbeResult(aged[k := aged[k].(valid := true, tag := tag, lruCount := 1)], Fill(k))
      case None =>
        var v := Victim(lines, |lines|);
        ProbeResult(aged[v := aged[v].(tag := tag, lruCount := 1)], Evict(v))
  }

  /** What the single pass of query_cache knows after lines 0 .. n-1
      without a hit: `nextEmpty` is the last invalid line seen (-1 if none),
      and, as long as every line seen was valid, `top` is the victim among
      them. */
  ghost predicate Scanned(lines: seq<Line>, tag: nat, n: nat, nextEmpty: int, top: int)
  {
    && n <= |lines|
    && (forall k :: 0 <= k < n ==> !Matches(lines[k], tag))
    && (if LastInvalid(lines, n).Some? then nextEmpty == LastInvalid(lines, n).value else nextEmpty == -1)
    && 0 <= top && (if n == 0 then top == 0 else top < n)
    && (n > 0 && LastInvalid(lines, n).None? ==> top == Victim(lines, n))
  }

  /** One iteration of the pass over line n when it does not hit, on the
      set `cur` as the pass has left it so far. The candidate `top` has
      already been aged when line n is compared with it, so line n takes
      over only if its counter was strictly greater before the probe. */
  lemma ScanStep(lines: seq<Line>, tag: nat, n: nat, nextEmpty: int, top: int, cur: seq<Line>)
    requires Scanned(lines, tag, n, nextEmpty, top) && n < |lines| && cur == AgedPrefix(lines, n)
    requires !Matches(cur[n], tag)
    ensures top < |lines|
    ensures Scanned(lines, tag, n + 1,
      if !cur[n].valid then n else nextEmpty,
      if cur[n].valid && cur[top].lruCount <= cur[n].lruCount then n else top)
    ensures cur[n := Aged(cur[n])] == AgedPrefix(lines, n + 1)
    ensures !cur[n].valid ==> cur == AgedPrefix(lines, n + 1)
  {
  }

  /** The pass stops at line n on a hit: resetting its counter gives the set
      Probe gives. */
  lemma ScanEndsInHit(lines: seq<Line>, tag: nat, n: nat, nextEmpty: int, top: int, cur: seq<Line>)
    requires Scanned(lines, tag, n, nextEmpty, top) && n < |lines| && cur == AgedPrefix(lines, n)
    requires Matches(cur[n], tag)
    ensures Probe(lines, tag) == ProbeResult(cur[n := cur[n].(lruCount := 1)], Hit(n))
  {
  }

  /** The pass ran to the end and saw an invalid line: filling `nextEmpty`
      gives the set Probe gives. */
  lemma ScanEndsInFill(lines: seq<Line>, tag: nat, nextEmpty: int, top: int, cur: seq<Line>)
    requires Scanned(lines, tag, |lines|, nextEmpty, top) && cur == AgedPrefix(lines, |lines|)
    requires nextEmpty != -1
    ensures 0 <= nextEmpty < |lines|
    ensures Probe(lines, tag) ==
      ProbeResult(cur[nextEmpty := cur[nextEmpty].(valid := true, tag := tag, lruCount := 1)], Fill(nextEmpty))
  {
  }

  /** The pass ran to the end over a full set: overwriting `top` gives the
      set Probe gives. */
  lemma ScanEndsInEviction(lines: seq<Line>, tag: nat, nextEmpty: int, top: int, cur: seq<Line>)
    requires Scanned(lines, tag, |lines|, nextEmpty, top) && cur == AgedPrefix(lines, |lines|)
    requires nextEmpty == -1 && |lines| > 0
    ensures 0 <= top < |lines|
    ensures Probe(lines, tag) == ProbeResult(cur[top := cur[top].(tag := tag, lruCount := 1)], Evict(top))
  {
  }

  /** How query_cache bumps the counters for an outcome. */
  function Account(res: Results, o: Outcome): (r: Results)
    ensures r.hits + r.misses == res.hits + res.misses + 1
    ensures r.hits >= res.hits && r.misses >= res.misses
    ensures o.Hit? <==> r.hits == res.hits + 1
    ensures r.evicts == if o.Evict? then res.evicts + 1 else res.evicts
  {
    match o
    case Hit(_) => res.(hits := res.hits + 1)
    case Fill(_) => res.(misses := res.misses + 1)
    case Evict(_) => res.(misses := res.misses + 1, evicts := res.evicts + 1)
  }

  /** An eviction is always also a miss, so evicts <= misses is kept. */
  lemma AccountEvictsBounded(res: Results, o: Outcome)
    requires res.evicts <= res.misses
    ensures Account(res, o).evicts <= Account(res, o).misses
  {
  }

  /** Which of the three outcomes a probe has is decided by the set alone:
      a hit exactly when the tag is resident, a fill exactly when it is not
      and some line is invalid, an eviction exactly when it is not and every
      line is valid. */
  lemma ProbeOutcome(lines: seq<Line>, tag: nat)
    requires |lines| > 0
    ensures Probe(lines, tag).outcome.Hit? <==> Resident(lines, tag)
    ensures Probe(lines, tag).outcome.Fill? <==>
      !Resident(lines, tag) && exists k :: 0 <= k < |lines| && !lines[k].valid
    ensures Probe(lines, tag).outcome.Evict? <==>
      !Resident(lines, tag) && forall k :: 0 <= k < |lines| ==> lines[k].valid
  {
  }

  /** A hit at index j, the first valid line holding the tag: line j's counter
      becomes 1, each valid line before j is aged by exactly one, the lines
      after j are untouched, and no tag or valid bit changes. */
  lemma ProbeHit(lines: seq<Line>, tag: nat, j: nat)
    requires j < |lines| && Matches(lines[j], tag)
    requires forall k :: 0 <= k < j ==> !Matches(lines[k], tag)
    ensures Probe(lines, tag).outcome == Hit(j)
    ensures var after := Probe(lines, tag).lines;
      && after[j].lruCount == 1
      && (forall i :: 0 <= i < |lines| ==> after[i].tag == lines[i].tag && after[i].valid == lines[i].valid)
      && (forall i :: 0 <= i < j && lines[i].valid ==> after[i].lruCount == lines[i].lruCount + 1)
      && (forall i :: 0 <= i < j && !lines[i].valid ==> after[i] == lines[i])
      && (forall i :: j < i < |lines| ==> after[i] == lines[i])
  {
  }

  /** A miss in a set whose highest-indexed invalid line is k: line k
      becomes valid with the tag and counter 1, every valid line is aged by
      exactly one, and the other invalid lines are untouched. */
  lemma ProbeFill(lines: seq<Line>, tag: nat, k: nat)
    requires !Resident(lines, tag)
    requires k < |lines| && !lines[k].valid
    requires forall i :: k < i < |lines| ==> lines[i].valid
    ensures Probe(lines, tag).outcome == Fill(k)
    ensures var after := Probe(lines, tag).lines;
      && after[k] == Line(tag, true, 1)
      && (forall i :: 0 <= i < |lines| && i != k && lines[i].valid ==>
            after[i] == lines[i].(lruCount := lines[i].lruCount + 1))
      && (forall i :: 0 <= i < |lines| && i != k && !lines[i].valid ==> after[i] == lines[i])
  {
  }

  /** A miss in a full set: the line overwritten is the lowest-indexed one
      among those with the largest counter before the probe; it gets the tag
      and counter 1, and every other line is aged by exactly one. */
  lemma ProbeEvict(lines: seq<Line>, tag: nat, v: nat)
    requires !Resident(lines, tag)
    requires forall i :: 0 <= i < |lines| ==> lines[i].valid
    requires v < |lines|
    requires forall i :: 0 <= i < |lines| ==> lines[i].lruCount <= lines[v].lruCount
    requires forall i :: 0 <= i < v ==> lines[i].lruCount < lines[v].lruCount
    ensures Probe(lines, tag).outcome == Evict(v)
    ensures var after := Probe(lines, tag).lines;
      && after[v] == Line(tag, true, 1)
      && (forall i :: 0 <= i < |lines| && i != v ==>
            after[i] == lines[i].(lruCount := lines[i].lruCount + 1))
  {
  }

  /** The number of valid lines of a set. */
  function ValidCount(lines: seq<Line>): (n: nat)
    ensures n <= |lines|
  {
    if |lines| == 0 then 0
    else ValidCount(lines[..|lines| - 1]) + (if lines[|lines| - 1].valid then 1 else 0)
  }

  /** Two sets with the same valid bits have the same number of valid lines. */
  lemma {:induction false} ValidCountSame(a: seq<Line>, b: seq<Line>)
    requires |a| == |b|
    requires forall i :: 0 <= i < |a| ==> a[i].valid == b[i].valid
    ensures ValidCount(a) == ValidCount(b)
  {
    if |a| > 0 {
      ValidCountSame(a[..|a| - 1], b[..|b| - 1]);
    }
  }

  /** Turning one invalid line valid adds exactly one valid line. */
  lemma {:induction false} ValidCountFill(a: seq<Line>, b: seq<Line>, k: nat)
    requires |a| == |b| && k < |a|
    requires !a[k].valid && b[k].valid
    requires forall i :: 0 <= i < |a| && i != k ==> a[i].valid == b[i].valid
    ensures ValidCount(b) == ValidCount(a) + 1
  {
    var n := |a| - 1;
    if k == n {
      ValidCountSame(a[..n], b[..n]);
    } else {
      ValidCountFill(a[..n], b[..n], k);
    }
  }

  /** A valid line never becomes invalid again; the number of valid lines
      grows by one on a fill and is otherwise unchanged, and never exceeds E. */
  lemma ProbeKeepsValid(lines: seq<Line>, tag: nat)
    requires |lines| > 0
    ensures var r := Probe(lines, tag);
      && (forall i :: 0 <= i < |lines| && lines[i].valid ==> r.lines[i].valid)
      && ValidCount(r.lines) == ValidCount(lines) + (if r.outcome.Fill? then 1 else 0)
      && ValidCount(r.lines) <= |lines|
  {
    var r := Probe(lines, tag);
    match r.outcome
    case Hit(j) =>
      ProbeHit(lines, tag, j);
      ValidCountSame(lines, r.lines);
    case Fill(k) =>
      ProbeFill(lines, tag, k);
      ValidCountFill(lines, r.lines, k);
    case Evict(v) =>
      ProbeEvict(lines, tag, v);
      ValidCountSame(lines, r.lines);
  }

  /** If no two valid lines shared a tag before a probe, none do after. */
  lemma ProbeKeepsUniqueTags(lines: seq<Line>, tag: nat)
    requires |lines| > 0 && UniqueTags(lines)
    ensures UniqueTags(Probe(lines, tag).lines)
  {
    var r := Probe(lines, tag);
    var at := r.outcome.at;
    forall i, j | 0 <= i < j < |lines| && r.lines[i].valid && r.lines[j].valid
      ensures r.lines[i].tag != r.lines[j].tag
    {
      if r.outcome.Hit? {
        assert r.lines[i].tag == lines[i].tag && r.lines[j].tag == lines[j].tag;
      } else if i == at {
        assert !Matches(lines[j], tag);
      } else if j == at {
        assert !Matches(lines[i], tag);
      } else {
        assert r.lines[i] == Aged(lines[i]) && r.lines[j] == Aged(lines[j]);
      }
    }
  }

  /** Probing the same tag twice in a row: the second probe hits the line the
      first one touched, whatever the first probe's outcome was. */
  lemma ProbeTwice(lines: seq<Line>, tag: nat)
    requires |lines| > 0 && UniqueTags(lines)
    ensures var first := Probe(lines, tag);
      Probe(first.lines, tag).outcome == Hit(first.outcome.at)
  {
    var first := Probe(lines, tag);
    var at := first.outcome.at;
    ProbeKeepsUniqueTags(lines, tag);
    forall k | 0 <= k < at
      ensures !Matches(first.lines[k], tag)
    {
      assert UniqueTags(first.lines);
    }
    ProbeHit(first.lines, tag, at);
  }

  /** A set with fewer valid lines than lines has an invalid line. */
  lemma {:induction false} RoomMeansInvalid(lines: seq<Line>) returns (k: nat)
    requires ValidCount(lines) < |lines|
    ensures k < |lines| && !lines[k].valid
  {
    var n := |lines| - 1;
    if lines[n].valid {
      k := RoomMeansInvalid(lines[..n]);
    } else {
      k := n;
    }
  }

  /** The number of evictions a run of probes to one set makes. */
  function Evictions(lines: seq<Line>, tags: seq<nat>): (n: nat)
    requires |lines| > 0
    ensures n <= |tags|
    decreases |tags|
  {
    if |tags| == 0 then 0
    else
      var p := Probe(lines, tags[0]);
      (if p.outcome.Evict? then 1 else 0) + Evictions(p.lines, tags[1..])
  }

  /** While a set has room, probes never evict: a set of E lines of which c
      are valid takes at least E - c further probes, of any tags, before its
      first eviction. In particular the first E probes to an empty set fill
      or hit and never evict. */
  lemma {:induction false} NoEvictionWhileRoom(lines: seq<Line>, tags: seq<nat>)
    requires |lines| > 0 && ValidCount(lines) + |tags| <= |lines|
    ensures Evictions(lines, tags) == 0
    decreases |tags|
  {
    if |tags| > 0 {
      var p := Probe(lines, tags[0]);
      var k := RoomMeansInvalid(lines);
      ProbeOutcome(lines, tags[0]);
      ProbeKeepsValid(lines, tags[0]);
      NoEvictionWhileRoom(p.lines, tags[1..]);
    }
  }
}
