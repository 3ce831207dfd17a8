/** The whole cache and the event dispatch of the simulator's main loop
    (csim.c:95-112), stated on values: the cache is the sequence of its 2^s
    sets, one access probes the set the address selects, and a trace is
    replayed event by event. Csim.Simulate runs the same loop imperatively and
    is proved to end in the state Replay describes. */
module Trace {
  import opened Addressing
  import opened LruSet

  /** A parsed trace line: `lead` is the line's first character (instruction
      fetches start with 'I'), `op` the operation code and `addr` the address.
      The access size is parsed but never used, so it is not kept. */
  datatype Event = Event(lead: char, op: char, addr: Address)

  /** The simulator's state: the sets of the cache and the counters. */
  datatype State = State(sets: seq<seq<Line>>, res: Results)

  /** 2^s sets of E lines each, the shape initialize_cache gives the cache. */
  predicate Shaped(cp: CacheParams, sets: seq<seq<Line>>)
  {
    |sets| == Pow2(cp.s) && forall i :: 0 <= i < |sets| ==> |sets[i]| == cp.E
  }

  /** Every set of the cache holds each tag at most once. */
  predicate AllUniqueTags(sets: seq<seq<Line>>)
  {
    forall i :: 0 <= i < |sets| ==> UniqueTags(sets[i])
  }

  /** The state before the first event: all lines invalid with counter 0 and
      all counters 0. */
  function Initial(cp: CacheParams): (st: State)
    ensures Shaped(cp, st.sets) && AllUniqueTags(st.sets)
    ensures forall i, j :: 0 <= i < |st.sets| && 0 <= j < |st.sets[i]| ==> !st.sets[i][j].valid
    ensures st.res == Results(0, 0, 0)
  {
    State(seq(Pow2(cp.s), _ => seq(cp.E, _ => EmptyLine)), Results(0, 0, 0))
  }

  /** One call of query_cache: probe the set the address selects with the
      address's tag; every other set is left as it was. */
  function Access(cp: CacheParams, st: State, addr: Address): (r: State)
    requires WellFormed(cp) && Shaped(cp, st.sets)
    ensures Shaped(cp, r.sets)
    ensures forall i :: 0 <= i < |st.sets| && i != SetIndexOf(cp, addr) ==> r.sets[i] == st.sets[i]
    ensures Resident(r.sets[SetIndexOf(cp, addr)], TagOf(cp, addr))
    ensures r.res.hits + r.res.misses == st.res.hits + st.res.misses + 1
  {
    var idx := SetIndexOf(cp, addr);
    var p := Probe(st.sets[idx], TagOf(cp, addr));
    State(st.sets[idx := p.lines], Account(st.res, p.outcome))
  }

  /** The events the main loop passes to query_cache. */
  predicate Probes(ev: Event)
  {
    ev.lead != 'I' && (ev.op == 'M' || ev.op == 'L' || ev.op == 'S')
  }

  /** A Modify event, which adds one unconditional hit after its probe. */
  predicate IsModify(ev: Event)
  {
    ev.lead != 'I' && ev.op == 'M'
  }

  /** One iteration of the main loop. */
  function Step(cp: CacheParams, st: State, ev: Event): (r: State)
    requires WellFormed(cp) && Shaped(cp, st.sets)
    ensures Shaped(cp, r.sets)
  {
    if ev.lead == 'I' then st
    else if ev.op == 'M' then
      var a := Access(cp, st, ev.addr);
      a.(res := a.res.(hits := a.res.hits + 1))
    else if ev.op == 'L' || ev.op == 'S' then Access(cp, st, ev.addr)
    else st
  }

  /** The main loop over a whole trace. */
  function Replay(cp: CacheParams, st: State, evs: seq<Event>): (r: State)
    requires WellFormed(cp) && Shaped(cp, st.sets)
    ensures Shaped(cp, r.sets)
    decreases |evs|
  {
    if |evs| == 0 then st
    else Step(cp, Replay(cp, st, evs[..|evs| - 1]), evs[|evs| - 1])
  }

  /** The number of query_cache calls a trace makes. */
  function ProbeCount(evs: seq<Event>): nat
  {
    if |evs| == 0 then 0
    else ProbeCount(evs[..|evs| - 1]) + (if Probes(evs[|evs| - 1]) then 1 else 0)
  }

  /** The number of Modify events of a trace. */
  function ModifyCount(evs: seq<Event>): nat
  {
    if |evs| == 0 then 0
    else ModifyCount(evs[..|evs| - 1]) + (if IsModify(evs[|evs| - 1]) then 1 else 0)
  }

  /** Instruction-fetch lines and unknown operation codes change nothing. */
  lemma StepIgnored(cp: CacheParams, st: State, ev: Event)
    requires WellFormed(cp) && Shaped(cp, st.sets)
    requires !Probes(ev)
    ensures Step(cp, st, ev) == st
  {
  }

  /** Load and Store make exactly one probe and nothing else. */
  lemma StepLoadStore(cp: CacheParams, st: State, ev: Event)
    requires WellFormed(cp) && Shaped(cp, st.sets)
    requires ev.lead != 'I' && (ev.op == 'L' || ev.op == 'S')
    ensures var idx := SetIndexOf(cp, ev.addr);
      var p := Probe(st.sets[idx], TagOf(cp, ev.addr));
      Step(cp, st, ev) == State(st.sets[idx := p.lines], Account(st.res, p.outcome))
  {
  }

  /** Modify makes one probe and then counts one extra hit; on an address not
      resident in its set that is exactly one miss and one hit. */
  lemma StepModify(cp: CacheParams, st: State, ev: Event)
    requires WellFormed(cp) && Shaped(cp, st.sets)
    requires IsModify(ev)
    ensures var idx := SetIndexOf(cp, ev.addr);
      var p := Probe(st.sets[idx], TagOf(cp, ev.addr));
      var r := Step(cp, st, ev);
      && r.sets == st.sets[idx := p.lines]
      && r.res == Account(st.res, p.outcome).(hits := Account(st.res, p.outcome).hits + 1)
    ensures !Resident(st.sets[SetIndexOf(cp, ev.addr)], TagOf(cp, ev.addr)) ==>
      Step(cp, st, ev).res.hits == st.res.hits + 1 &&
      Step(cp, st, ev).res.misses == st.res.misses + 1
  {
    ProbeOutcome(st.sets[SetIndexOf(cp, ev.addr)], TagOf(cp, ev.addr));
  }

  /** hits + misses counts every probe plus one per Modify, and every
      eviction is also a miss. */
  lemma {:induction false} ReplayCounters(cp: CacheParams, st: State, evs: seq<Event>)
    requires WellFormed(cp) && Shaped(cp, st.sets)
    requires st.res.evicts <= st.res.misses
    ensures var r := Replay(cp, st, evs).res;
      && r.hits + r.misses == st.res.hits + st.res.misses + ProbeCount(evs) + ModifyCount(evs)
      && r.evicts - st.res.evicts <= r.misses - st.res.misses
      && r.hits >= st.res.hits && r.misses >= st.res.misses && r.evicts >= st.res.evicts
  {
    if |evs| > 0 {
      var prefix := evs[..|evs| - 1];
      var ev := evs[|evs| - 1];
      ReplayCounters(cp, st, prefix);
      var mid := Replay(cp, st, prefix);
      if Probes(ev) {
        var idx := SetIndexOf(cp, ev.addr);
        AccountEvictsBounded(mid.res, Probe(mid.sets[idx], TagOf(cp, ev.addr)).outcome);
      }
    }
  }

  /** From the initial state: hits + misses is the number of probes plus the
      number of Modify events, and evicts <= misses. */
  lemma CountersFromStart(cp: CacheParams, evs: seq<Event>)
    requires WellFormed(cp)
    ensures var r := Replay(cp, Initial(cp), evs).res;
      r.hits + r.misses == ProbeCount(evs) + ModifyCount(evs) && r.evicts <= r.misses
  {
    ReplayCounters(cp, Initial(cp), evs);
  }

  /** No set ever holds the same tag in two valid lines. */
  lemma {:induction false} ReplayKeepsUniqueTags(cp: CacheParams, st: State, evs: seq<Event>)
    requires WellFormed(cp) && Shaped(cp, st.sets) && AllUniqueTags(st.sets)
    ensures AllUniqueTags(Replay(cp, st, evs).sets)
  {
    if |evs| > 0 {
      ReplayKeepsUniqueTags(cp, st, evs[..|evs| - 1]);
      var mid := Replay(cp, st, evs[..|evs| - 1]);
      var ev := evs[|evs| - 1];
      if Probes(ev) {
        ProbeKeepsUniqueTags(mid.sets[SetIndexOf(cp, ev.addr)], TagOf(cp, ev.addr));
      }
    }
  }

  /** A line that became valid stays valid for the rest of the trace. */
  lemma {:induction false} ReplayKeepsValid(cp: CacheParams, st: State, evs: seq<Event>, i: nat, j: nat)
    requires WellFormed(cp) && Shaped(cp, st.sets)
    requires i < |st.sets| && j < |st.sets[i]| && st.sets[i][j].valid
    ensures Replay(cp, st, evs).sets[i][j].valid
  {
    if |evs| > 0 {
      ReplayKeepsValid(cp, st, evs[..|evs| - 1], i, j);
      var mid := Replay(cp, st, evs[..|evs| - 1]);
      var ev := evs[|evs| - 1];
      if Probes(ev) {
        ProbeKeepsValid(mid.sets[SetIndexOf(cp, ev.addr)], TagOf(cp, ev.addr));
      }
    }
  }

  /** A trace of three events is three steps. */
  lemma ReplayThree(cp: CacheParams, st: State, e0: Event, e1: Event, e2: Event)
    requires WellFormed(cp) && Shaped(cp, st.sets)
    ensures Replay(cp, st, [e0, e1, e2]) == Step(cp, Step(cp, Step(cp, st, e0), e1), e2)
  {
    assert [e0, e1, e2][..2] == [e0, e1] && [e0, e1][..1] == [e0] && [e0][..0] == [];
    assert Replay(cp, st, [e0]) == Step(cp, st, e0);
    assert Replay(cp, st, [e0, e1]) == Step(cp, Step(cp, st, e0), e1);
  }

  /** One set, one line, byte blocks: the trace L 0, L 1, L 0 misses three
      times and evicts twice, since each new tag replaces the only line. */
  lemma DirectMappedScenario()
    ensures var cp := CacheParams(0, 1, 0);
      var evs := [Event(' ', 'L', 0), Event(' ', 'L', 1), Event(' ', 'L', 0)];
      Replay(cp, Initial(cp), evs).res == Results(0, 3, 2)
  {
    var cp := CacheParams(0, 1, 0);
    var evs := [Event(' ', 'L', 0), Event(' ', 'L', 1), Event(' ', 'L', 0)];
    assert Pow2(0) == 1;
    var s0 := Initial(cp);
    assert s0.sets[0] == [EmptyLine];
    assert s0.sets == [[EmptyLine]];
    // L 0: set 0, tag 0, fills the empty line
    assert SetIndexOf(cp, 0) == 0 && TagOf(cp, 0) == 0;
    ProbeFill([EmptyLine], 0, 0);
    assert Probe([EmptyLine], 0).lines == [Line(0, true, 1)];
    var s1 := Step(cp, s0, evs[0]);
    assert s1.sets == [[Line(0, true, 1)]] && s1.res == Results(0, 1, 0);
    // L 1: set 0, tag 1, evicts tag 0
    assert SetIndexOf(cp, 1) == 0 && TagOf(cp, 1) == 1;
    ProbeEvict([Line(0, true, 1)], 1, 0);
    assert Probe([Line(0, true, 1)], 1).lines == [Line(1, true, 1)];
    var s2 := Step(cp, s1, evs[1]);
    assert s2.sets == [[Line(1, true, 1)]] && s2.res == Results(0, 2, 1);
    // L 0: set 0, tag 0, evicts tag 1
    ProbeEvict([Line(1, true, 1)], 0, 0);
    var s3 := Step(cp, s2, evs[2]);
    assert s3.res == Results(0, 3, 2);
    ReplayThree(cp, s0, evs[0], evs[1], evs[2]);
  }

  /** Two sets of two lines, byte blocks: addresses 0 and 2 both fall in
      set 0 with tags 0 and 1, so L 0, L 2, L 0 misses twice and then hits. */
  lemma TwoWayScenario()
    ensures var cp := CacheParams(1, 2, 0);
      var evs := [Event(' ', 'L', 0), Event(' ', 'L', 2), Event(' ', 'L', 0)];
      Replay(cp, Initial(cp), evs).res == Results(1, 2, 0)
  {
    var cp := CacheParams(1, 2, 0);
    var evs := [Event(' ', 'L', 0), Event(' ', 'L', 2), Event(' ', 'L', 0)];
    var s0 := Initial(cp);
    var s1 := TwoWayFirst();
    var s2 := TwoWaySecond(s1);
    TwoWayThird(s2);
    ReplayThree(cp, s0, evs[0], evs[1], evs[2]);
  }

  /** L 0 in the empty two-way cache fills the higher line of set 0. */
  lemma TwoWayFirst() returns (s1: State)
    ensures var cp := CacheParams(1, 2, 0);
      && Shaped(cp, Initial(cp).sets)
      && s1 == Step(cp, Initial(cp), Event(' ', 'L', 0))
      && s1.sets == [[EmptyLine, Line(0, true, 1)], [EmptyLine, EmptyLine]]
      && s1.res == Results(0, 1, 0)
  {
    var cp := CacheParams(1, 2, 0);
    assert Pow2(0) == 1 && Pow2(1) == 2;
    var s0 := Initial(cp);
    var empty := [EmptyLine, EmptyLine];
    assert s0.sets[0] == empty && s0.sets[1] == empty;
    assert s0.sets == [empty, empty];
    assert SetIndexOf(cp, 0) == 0 && TagOf(cp, 0) == 0;
    ProbeFill(empty, 0, 1);
    assert Probe(empty, 0).lines == [EmptyLine, Line(0, true, 1)];
    s1 := Step(cp, s0, Event(' ', 'L', 0));
  }

  /** L 2 then fills line 0 of set 0 with tag 1 and ages the other line. */
  lemma TwoWaySecond(s1: State) returns (s2: State)
    requires s1.sets == [[EmptyLine, Line(0, true, 1)], [EmptyLine, EmptyLine]]
    requires s1.res == Results(0, 1, 0)
    ensures var cp := CacheParams(1, 2, 0);
      && Shaped(cp, s1.sets)
      && s2 == Step(cp, s1, Event(' ', 'L', 2))
      && s2.sets == [[Line(1, true, 1), Line(0, true, 2)], [EmptyLine, EmptyLine]]
      && s2.res == Results(0, 2, 0)
  {
    var cp := CacheParams(1, 2, 0);
    assert Pow2(0) == 1 && Pow2(1) == 2;
    assert SetIndexOf(cp, 2) == 0 && TagOf(cp, 2) == 1;
    ProbeFill([EmptyLine, Line(0, true, 1)], 1, 0);
    assert Probe([EmptyLine, Line(0, true, 1)], 1).lines == [Line(1, true, 1), Line(0, true, 2)];
    s2 := Step(cp, s1, Event(' ', 'L', 2));
  }

  /** L 0 then hits line 1 of set 0. */
  lemma TwoWayThird(s2: State)
    requires s2.sets == [[Line(1, true, 1), Line(0, true, 2)], [EmptyLine, EmptyLine]]
    requires s2.res == Results(0, 2, 0)
    ensures var cp := CacheParams(1, 2, 0);
      Shaped(cp, s2.sets) && Step(cp, s2, Event(' ', 'L', 0)).res == Results(1, 2, 0)
  {
    var cp := CacheParams(1, 2, 0);
    assert Pow2(0) == 1 && Pow2(1) == 2;
    assert SetIndexOf(cp, 0) == 0 && TagOf(cp, 0) == 0;
    ProbeHit([Line(1, true, 1), Line(0, true, 2)], 0, 1);
  }

  /** csim.c as written starts from whatever memory held: initialize_cache
      never sets the lines malloc returns, and the counters of main are never
      zeroed. With one set of one line that happens to hold a valid line with
      tag 0, the trace L 0 records a hit, where the cache initialize_cache
      evidently means to build (Initial) records a miss. */
  lemma UninitialisedStart()
    ensures var cp := CacheParams(0, 1, 0);
      var evs := [Event(' ', 'L', 0)];
      var garbage := State([[Line(0, true, 7)]], Results(0, 0, 0));
      && Shaped(cp, garbage.sets)
      && Replay(cp, garbage, evs).res == Results(1, 0, 0)
      && Replay(cp, Initial(cp), evs).res == Results(0, 1, 0)
  {
    var cp := CacheParams(0, 1, 0);
    var evs := [Event(' ', 'L', 0)];
    assert Pow2(0) == 1;
    assert SetIndexOf(cp, 0) == 0 && TagOf(cp, 0) == 0;
    assert evs[..0] == [];
    ProbeHit([Line(0, true, 7)], 0, 0);
    var s0 := Initial(cp);
    assert s0.sets[0] == [EmptyLine];
    assert s0.sets == [[EmptyLine]];
    ProbeFill([EmptyLine], 0, 0);
  }
}
