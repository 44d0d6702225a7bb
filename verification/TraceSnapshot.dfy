/** Taking a trace of a transaction that is still running: agent/php_api_internal.c. */
module TraceSnapshot {
  import opened CIntegers

  class Segment {
    var stopTime: nat   // 0 while the segment is active
  }

  datatype Tree = Tree(segment: Segment, children: seq<Tree>)

  ghost function Segments(t: Tree): set<Segment>
    decreases t, 1
  {
    {t.segment} + SegmentsOfAll(t.children)
  }

  ghost function SegmentsOfAll(ts: seq<Tree>): set<Segment>
    decreases ts, 0
  {
    if ts == [] then {} else SegmentsOfAll(ts[..|ts| - 1]) + Segments(ts[|ts| - 1])
  }

  // ------------------------------------------------------------------------
  // Nodes by their paths: the position of a child at each turn, from the root on.
  // ------------------------------------------------------------------------

  predicate IsPath(t: Tree, path: seq<nat>)
    decreases path
  {
    path == [] || (path[0] < |t.children| && IsPath(t.children[path[0]], path[1..]))
  }

  function At(t: Tree, path: seq<nat>): Segment
    requires IsPath(t, path)
    decreases path
  {
    if path == [] then t.segment else At(t.children[path[0]], path[1..])
  }

  ghost predicate Reached(t: Tree, s: Segment) {
    exists path :: IsPath(t, path) && At(t, path) == s
  }

  lemma {:induction false} PathInTree(t: Tree, path: seq<nat>)
    requires IsPath(t, path)
    ensures At(t, path) in Segments(t)
    decreases path
  {
    if path != [] {
      PathInTree(t.children[path[0]], path[1..]);
      ChildInAll(t.children, path[0]);
    }
  }

  lemma {:induction false} ChildInAll(ts: seq<Tree>, i: nat)
    requires i < |ts|
    ensures Segments(ts[i]) <= SegmentsOfAll(ts)
    decreases |ts|
  {
    if i < |ts| - 1 {
      ChildInAll(ts[..|ts| - 1], i);
    }
  }

  lemma ReachedByChild(t: Tree, i: nat, s: Segment)
    requires i < |t.children| && Reached(t.children[i], s)
    ensures Reached(t, s)
  {
    var path :| IsPath(t.children[i], path) && At(t.children[i], path) == s;
    assert ([i] + path)[1..] == path;
    assert IsPath(t, [i] + path) && At(t, [i] + path) == s;
  }

  lemma {:induction false} TreeReached(t: Tree, s: Segment)
    requires s in Segments(t)
    ensures Reached(t, s)
    decreases t, 1
  {
    if s == t.segment {
      assert IsPath(t, []) && At(t, []) == s;
    } else {
      var i := ChildWith(t.children, s);
      TreeReached(t.children[i], s);
      ReachedByChild(t, i, s);
    }
  }

  lemma {:induction false} ChildWith(ts: seq<Tree>, s: Segment) returns (i: nat)
    requires s in SegmentsOfAll(ts)
    ensures i < |ts| && s in Segments(ts[i])
    decreases |ts|
  {
    i := |ts| - 1;
    if s !in Segments(ts[i]) {
      i := ChildWith(ts[..|ts| - 1], s);
    }
  }

  /** The segments of a tree are those that some path leads to. */
  lemma SegmentsExactly(t: Tree)
    ensures forall s :: s in Segments(t) <==> Reached(t, s)
  {
    forall s
      ensures s in Segments(t) <==> Reached(t, s)
    {
      if s in Segments(t) {
        TreeReached(t, s);
      }
      if Reached(t, s) {
        var path :| IsPath(t, path) && At(t, path) == s;
        PathInTree(t, path);
      }
    }
  }

  /** The stop time found at each path. */
  ghost function TimesByPath(t: Tree): imap<seq<nat>, nat>
    reads set path | IsPath(t, path) :: At(t, path)
  {
    imap path | IsPath(t, path) :: At(t, path).stopTime
  }

  /** The same from a table of stop times. */
  ghost function ByPath(t: Tree, times: map<Segment, nat>): imap<seq<nat>, nat> {
    imap path | IsPath(t, path) :: if At(t, path) in times then times[At(t, path)] else 0
  }

  lemma TimesOfPaths(t: Tree, times: map<Segment, nat>)
    requires StopTimes(Segments(t)) == times
    ensures TimesByPath(t) == ByPath(t, times)
  {
    forall path | IsPath(t, path)
      ensures At(t, path) in Segments(t)
    {
      PathInTree(t, path);
    }
  }

  /** What the trace assembly finds, told by the stop times at the paths: each segment that a path
      leads to, stopped if it was active; counted in are the active ones, each once. */
  ghost predicate Pictured(t: Tree, times: imap<seq<nat>, nat>, stop: nat, count: nat, f: Finding,
                           found: set<Segment>)
    requires forall path | IsPath(t, path) :: path in times
  {
    && f.threshold == 0 && f.count == (count + |found|) % SIZE_T
    && (forall s | s in found :: Reached(t, s))
    && (forall path | IsPath(t, path) :: At(t, path) in found <==> times[path] == 0)
    && (forall s | s in f.stopTimes :: Reached(t, s))
    && (forall path | IsPath(t, path) ::
          At(t, path) in f.stopTimes
          && f.stopTimes[At(t, path)] == if times[path] == 0 then stop else times[path])
  }

  lemma ClosedIsPictured(t: Tree, times: map<Segment, nat>, stop: nat, count: nat)
    requires times.Keys == Segments(t)
    ensures Pictured(t, ByPath(t, times), stop, count,
                     Finding(0, (count + |Active(times)|) % SIZE_T, Closed(times, stop)), Active(times))
  {
    SegmentsExactly(t);
  }

  class MetricTable {
    var metrics: seq<string>

    constructor ()
      ensures metrics == []
    {
      metrics := [];
    }
  }

  datatype Saved = Saved(scoped: MetricTable, unscoped: MetricTable)

  // What the trace assembly finds when it runs.
  datatype Finding = Finding(threshold: nat, count: nat, stopTimes: map<Segment, nat>)

  ghost function StopTimes(segments: set<Segment>): map<Segment, nat>
    reads segments
  {
    map s | s in segments :: s.stopTime
  }

  /** The stop times with every active segment stopped. */
  ghost function Closed(times: map<Segment, nat>, stop: nat): map<Segment, nat> {
    map s | s in times :: if times[s] == 0 then stop else times[s]
  }

  ghost function Active(times: map<Segment, nat>): set<Segment> {
    set s | s in times && times[s] == 0
  }

  class Transaction {
    const root: Tree
    ghost const segments: set<Segment>   // those of the tree
    const startTime: nat
    var ttThreshold: nat
    var segmentCount: nat
    var scopedMetrics: MetricTable
    var unscopedMetrics: MetricTable

    constructor (root: Tree, startTime: nat, scoped: MetricTable, unscoped: MetricTable)
      ensures this.root == root && segments == Segments(root) && scopedMetrics == scoped && unscopedMetrics == unscoped
    {
      this.root, this.startTime, segments := root, startTime, Segments(root);
      ttThreshold, segmentCount := 0, 0;
      scopedMetrics, unscopedMetrics := scoped, unscoped;
    }

    method SaveMetricTables() returns (saved: Saved)
      modifies this`scopedMetrics, this`unscopedMetrics
      ensures saved == Saved(old(scopedMetrics), old(unscopedMetrics))
      ensures fresh(scopedMetrics) && fresh(unscopedMetrics) && scopedMetrics != unscopedMetrics
    {
      saved := Saved(scopedMetrics, unscopedMetrics);
      scopedMetrics := new MetricTable();
      unscopedMetrics := new MetricTable();
    }

    method RestoreMetricTables(saved: Saved)
      modifies this`scopedMetrics, this`unscopedMetrics
      ensures scopedMetrics == saved.scoped && unscopedMetrics == saved.unscoped
    {
      scopedMetrics := saved.scoped;
      unscopedMetrics := saved.unscoped;
    }

    /** The library's tree finalisation: it adds metrics to the current tables and leaves stop
        times, count and threshold alone. */
    method Finalise(scoped: seq<string>, unscoped: seq<string>) returns (ghost f: Finding)
      modifies scopedMetrics, unscopedMetrics
      ensures f == Finding(ttThreshold, segmentCount, StopTimes(segments))
    {
      scopedMetrics.metrics := scopedMetrics.metrics + scoped;
      unscopedMetrics.metrics := unscopedMetrics.metrics + unscoped;
      f := Finding(ttThreshold, segmentCount, StopTimes(segments));
    }

    /** The first walk over the tree. */
    method Close(stop: nat) returns (active: set<Segment>)
      requires segments == Segments(root)
      modifies segments
      ensures active == Active(old(StopTimes(segments)))
      ensures StopTimes(segments) == Closed(old(StopTimes(segments)), stop)
    {
      active := FindActiveSegments(root, stop, {}, segments);
    }

    /** The second walk over the tree. */
    method Reopen(active: set<Segment>, ghost times: map<Segment, nat>, ghost stop: nat)
      requires segments == Segments(root)
      requires times.Keys == segments && active == Active(times) && StopTimes(segments) == Closed(times, stop)
      modifies segments
      ensures StopTimes(segments) == times
    {
      assert forall s :: s in segments ==> s.stopTime == Closed(times, stop)[s] by {
        assert forall s :: s in segments ==> StopTimes(segments)[s] == s.stopTime;
      }
      ResetActiveSegments(root, active, segments);
    }

    /** Everything that has to be bent before the trace can be assembled. */
    method Prepare(stop: nat) returns (active: set<Segment>, threshold: nat)
      requires segmentCount < SIZE_T && segments == Segments(root)
      modifies this`ttThreshold, this`segmentCount, segments
      ensures active == Active(old(StopTimes(segments))) && threshold == old(ttThreshold)
      ensures ttThreshold == 0 && segmentCount == (old(segmentCount) + |active|) % SIZE_T
      ensures StopTimes(segments) == Closed(old(StopTimes(segments)), stop)
    {
      threshold := ttThreshold;
      ttThreshold := 0;
      active := Close(stop);
      segmentCount := SizeT(segmentCount + |active|);
    }

    /** And back again. */
    method Restore(active: set<Segment>, threshold: nat, ghost times: map<Segment, nat>, ghost stop: nat,
                   ghost count: nat)
      requires count < SIZE_T && segmentCount == (count + |active|) % SIZE_T && segments == Segments(root)
      requires times.Keys == segments && active == Active(times) && StopTimes(segments) == Closed(times, stop)
      modifies this`ttThreshold, this`segmentCount, segments
      ensures ttThreshold == threshold && segmentCount == count && StopTimes(segments) == times
    {
      ttThreshold := threshold;
      CountRestored(count, |active|);
      segmentCount := SizeT(segmentCount - |active|);
      Reopen(active, times, stop);
    }

    /** Finalises into tables of its own: the transaction's are untouched and back in place. */
    method Assemble(scoped: seq<string>, unscoped: seq<string>) returns (ghost f: Finding)
      modifies this`scopedMetrics, this`unscopedMetrics
      ensures f == Finding(ttThreshold, segmentCount, StopTimes(segments))
      ensures scopedMetrics == old(scopedMetrics) && unscopedMetrics == old(unscopedMetrics)
    {
      var saved := SaveMetricTables();
      f := Finalise(scoped, unscoped);
      RestoreMetricTables(saved);
    }

    /** A snapshot: the trace is assembled with a zero threshold from a tree in which exactly the
        active segments have been stopped, and counted; afterwards everything is as it was. */
    method TakeTrace(stop: nat, scoped: seq<string>, unscoped: seq<string>) returns (ghost finding: Finding)
      requires segmentCount < SIZE_T && segments == Segments(root)
      modifies this, segments
      ensures ttThreshold == old(ttThreshold) && segmentCount == old(segmentCount)
      ensures scopedMetrics == old(scopedMetrics) && unscopedMetrics == old(unscopedMetrics)
      ensures StopTimes(segments) == old(StopTimes(segments))
      ensures var times := old(StopTimes(segments));
              finding == Finding(0, (old(segmentCount) + |Active(times)|) % SIZE_T, Closed(times, stop))
    {
      ghost var times, count := StopTimes(segments), segmentCount;
      var active, threshold := Prepare(stop);
      finding := Assemble(scoped, unscoped);
      Restore(active, threshold, times, stop, count);
    }

    /** Nothing is taken unless the transaction is recorded. The last two clauses tell of the segments
        that paths lead to. */
    method GetTraceJson(recording: bool, now: nat, scoped: seq<string>, unscoped: seq<string>)
      returns (taken: bool, ghost finding: Finding, ghost found: set<Segment>)
      requires segmentCount < SIZE_T && segments == Segments(root)
      modifies this, segments
      ensures ttThreshold == old(ttThreshold) && segmentCount == old(segmentCount)
      ensures scopedMetrics == old(scopedMetrics) && unscopedMetrics == old(unscopedMetrics)
      ensures StopTimes(segments) == old(StopTimes(segments))
      ensures taken == recording
      ensures TimesByPath(root) == old(TimesByPath(root))
      ensures taken ==>
                Pictured(root, old(TimesByPath(root)), if now < startTime then 0 else now - startTime,
                         old(segmentCount), finding, found)
    {
      finding, found := Finding(0, 0, map[]), {};
      if !recording {
        return false, finding, found;
      }
      ghost var times, count := StopTimes(segments), segmentCount;
      var stop := if now < startTime then 0 else now - startTime;
      TimesOfPaths(root, times);
      finding := TakeTrace(stop, scoped, unscoped);
      TimesOfPaths(root, times);
      ClosedIsPictured(root, times, stop, count);
      found := Active(times);
      taken := true;
    }
  }

  lemma CountRestored(count: nat, n: nat)
    requires count < SIZE_T
    ensures ((count + n) % SIZE_T - n) % SIZE_T == count
  {
    var q := (count + n) / SIZE_T;
    assert (count + n) % SIZE_T - n == count - q * SIZE_T;
  }

  /** Stops every active segment of the tree and notes it. */
  method FindActiveSegments(t: Tree, stop: nat, active: set<Segment>, ghost all: set<Segment>)
    returns (r: set<Segment>)
    requires Segments(t) <= all
    modifies all
    ensures forall s :: s in all ==>
                          && s.stopTime == (if s in Segments(t) && old(s.stopTime) == 0 then stop else old(s.stopTime))
                          && (s in r <==> s in active || (s in Segments(t) && old(s.stopTime) == 0))
    ensures r <= active + all
    decreases t, 1
  {
    r := active;
    if t.segment.stopTime == 0 {
      r := r + {t.segment};
      t.segment.stopTime := stop;
    }
    r := FindActiveInAll(t.children, stop, r, all);
  }

  method FindActiveInAll(ts: seq<Tree>, stop: nat, active: set<Segment>, ghost all: set<Segment>)
    returns (r: set<Segment>)
    requires SegmentsOfAll(ts) <= all
    modifies all
    ensures forall s :: s in all ==>
                          && s.stopTime == (if s in SegmentsOfAll(ts) && old(s.stopTime) == 0 then stop
                                            else old(s.stopTime))
                          && (s in r <==> s in active || (s in SegmentsOfAll(ts) && old(s.stopTime) == 0))
    ensures r <= active + all
    decreases ts, 0
  {
    r := active;
    for i := 0 to |ts|
      invariant SegmentsOfAll(ts[..i]) <= all
      invariant forall s :: s in all ==>
                              && s.stopTime == (if s in SegmentsOfAll(ts[..i]) && old(s.stopTime) == 0 then stop
                                                else old(s.stopTime))
                              && (s in r <==> s in active || (s in SegmentsOfAll(ts[..i]) && old(s.stopTime) == 0))
      invariant r <= active + all
    {
      assert ts[..i + 1][..i] == ts[..i];
      SegmentsOfPrefix(ts, i + 1);
      r := FindActiveSegments(ts[i], stop, r, all);
    }
    assert ts[..|ts|] == ts;
  }

  /** Makes the noted segments of the tree active again. */
  method ResetActiveSegments(t: Tree, active: set<Segment>, ghost all: set<Segment>)
    requires Segments(t) <= all
    modifies all
    ensures forall s :: s in all ==> s.stopTime == if s in Segments(t) && s in active then 0 else old(s.stopTime)
    decreases t, 1
  {
    if t.segment in active {
      t.segment.stopTime := 0;
    }
    ResetActiveInAll(t.children, active, all);
  }

  method ResetActiveInAll(ts: seq<Tree>, active: set<Segment>, ghost all: set<Segment>)
    requires SegmentsOfAll(ts) <= all
    modifies all
    ensures forall s :: s in all ==> s.stopTime == if s in SegmentsOfAll(ts) && s in active then 0 else old(s.stopTime)
    decreases ts, 0
  {
    for i := 0 to |ts|
      invariant SegmentsOfAll(ts[..i]) <= all
      invariant forall s :: s in all ==>
                              s.stopTime == if s in SegmentsOfAll(ts[..i]) && s in active then 0 else old(s.stopTime)
    {
      assert ts[..i + 1][..i] == ts[..i];
      SegmentsOfPrefix(ts, i + 1);
      ResetActiveSegments(ts[i], active, all);
    }
    assert ts[..|ts|] == ts;
  }

  lemma {:induction false} SegmentsOfPrefix(ts: seq<Tree>, i: nat)
    requires i <= |ts|
    ensures SegmentsOfAll(ts[..i]) <= SegmentsOfAll(ts)
    decreases |ts| - i
  {
    if i < |ts| {
      assert ts[..i + 1][..i] == ts[..i];
      SegmentsOfPrefix(ts, i + 1);
    } else {
      assert ts[..i] == ts;
    }
  }
}
