/** Which segments are timed, ended or discarded more than once: agent/php_curl.c:659-824,
    agent/php_internal_instrument.c:2502-2531. */
module CurlTouches {
  import opened Options
  import opened CurlState

  // ------------------------------------------------------------------------
  // What every run keeps.
  // ------------------------------------------------------------------------

  predicate Touches(e: Event) {
    e.Timed? || e.Ended? || e.Discarded?
  }

  /** Of the segments started for its owner before event i, x is the last. */
  predicate LastBy(segments: seq<Segment>, x: nat, i: nat) {
    && x < |segments| && segments[x].owner != NoOne && segments[x].since <= i
    && forall z :: 0 <= z < |segments| && segments[z].owner == segments[x].owner && segments[z].since <= i ==> z <= x
  }

  /** What an owner has stored, if anything, is the last segment started for it. */
  predicate Stores(segments: seq<Segment>, now: nat, segment: Option<nat>, o: Owner) {
    segment.Some? ==> LastBy(segments, segment.value, now) && segments[segment.value].owner == o
  }

  predicate InOrder(s: State) {
    && (forall z :: 0 <= z < |s.segments| ==> s.segments[z].since <= |s.log|)
    && Ordered(s.segments)
  }

  predicate Touched(s: State) {
    forall i :: 0 <= i < |s.log| && Touches(s.log[i]) ==> LastBy(s.segments, s.log[i].segment, i)
  }

  predicate Stored(s: State) {
    && (forall h :: h in s.curl ==> Stores(s.segments, |s.log|, s.curl[h].segment, Handle(h)))
    && (forall m :: m in s.multis ==> Stores(s.segments, |s.log|, s.multis[m].segment, Root(m)))
  }

  predicate Owned(s: State) {
    InOrder(s) && Touched(s) && Stored(s)
  }

  lemma NotedOwned(s: State, e: Event)
    requires Owned(s) && (Touches(e) ==> LastBy(s.segments, e.segment, |s.log|))
    ensures Owned(s.Noted(e))
  {
  }

  lemma WithMdOwned(s: State, ch: Option<nat>)
    requires Owned(s)
    ensures Owned(s.WithMd(ch))
  {
  }

  lemma WithMultiOwned(s: State, mh: Option<nat>)
    requires Owned(s)
    ensures Owned(s.WithMulti(mh))
  {
  }

  lemma WithHandlesOwned(s: State, mh: Option<nat>, hs: seq<nat>)
    requires Owned(s)
    ensures Owned(s.WithHandles(mh, hs))
  {
  }

  lemma SetInitializedOwned(s: State, mh: Option<nat>)
    requires Owned(s)
    ensures Owned(s.SetInitialized(mh))
  {
  }

  ghost predicate KeepsOthers(s: State, t: State, but: Owner) {
    forall x, o {:trigger Stores(t.segments, |t.log|, x, o)} ::
      Stores(s.segments, |s.log|, x, o) && o != but ==> Stores(t.segments, |t.log|, x, o)
  }

  /** A new segment is the last one for its owner, and concerns no other owner and no event so far. */
  lemma NewSegmentOwned(s: State, n: Segment)
    requires Owned(s) && n.since == |s.log|
    ensures var t := s.(segments := s.segments + [n]);
            && InOrder(t) && Touched(t)
            && (n.owner != NoOne ==> Stores(t.segments, |t.log|, Some(|s.segments|), n.owner))
            && KeepsOthers(s, t, n.owner)
  {
  }

  /** A request that starts a segment stores it, so that no older one stays behind. */
  lemma ExecPreOwned(s: State, ch: Option<nat>, a: Option<nat>, starts: bool)
    requires Owned(s)
    ensures Owned(s.ExecPre(ch, a, starts))
  {
    if starts && s.txn.Some? {
      NewSegmentOwned(s, Segment(s.txn.value, a, HandleOf(ch), |s.log|));
    }
  }

  lemma RootOwned(s: State, mh: Option<nat>, a: Option<nat>, starts: bool)
    requires Owned(s)
    ensures Owned(s.SegmentStart(starts, a, RootOf(mh)).SetMultiSegment(mh, s.NewSegment(starts)))
  {
    var t := s.SegmentStart(starts, a, RootOf(mh));
    if starts && s.txn.Some? {
      NewSegmentOwned(s, Segment(s.txn.value, a, RootOf(mh), |s.log|));
      if RootOf(mh) == NoOne {
        assert Stored(t);
      } else {
        SetRootOwned(s, t, mh.value);
      }
    }
  }

  lemma SetRootOwned(s: State, t: State, m: nat)
    requires Stored(s) && InOrder(t) && Touched(t) && m != 0
    requires t == s.(segments := t.segments) && |t.segments| == |s.segments| + 1
    requires Stores(t.segments, |t.log|, Some(|s.segments|), Root(m))
    requires KeepsOthers(s, t, Root(m))
    ensures Owned(t.SetMultiSegment(Some(m), Some(|s.segments|)))
  {
  }

  lemma EndSegmentOwned(s: State, segment: Option<nat>, timed: bool)
    requires Owned(s) && (segment.Some? ==> LastBy(s.segments, segment.value, |s.log|))
    ensures Owned(s.EndSegment(segment, timed))
  {
    if segment.Some? {
      var x := segment.value;
      if timed {
        NotedOwned(s, Timed(x, s.txn));
        NotedOwned(s.Noted(Timed(x, s.txn)), Ended(x, s.txn));
      } else {
        NotedOwned(s, Ended(x, s.txn));
      }
    }
  }

  lemma ExecPostOwned(s: State, ch: Option<nat>, timed: bool)
    requires Owned(s)
    ensures Owned(s.ExecPost(ch, timed))
  {
    var w := s.WithMd(ch);
    WithMdOwned(s, ch);
    var n := if ch.Some? && ch.value != 0 then w.Noted(EndStep(ch.value)) else w;
    if ch.Some? {
      NotedOwned(w, EndStep(ch.value));
    }
    EndSegmentOwned(n, w.GetSegment(ch), timed);
  }

  lemma {:induction false} PreAllOwned(s: State, hs: seq<nat>, a: Option<nat>, starts: set<nat>)
    requires Owned(s)
    ensures Owned(s.PreAll(hs, a, starts))
  {
    if hs != [] {
      var last := hs[|hs| - 1];
      PreAllOwned(s, hs[..|hs| - 1], a, starts);
      ExecPreOwned(s.PreAll(hs[..|hs| - 1], a, starts), Some(last), a, last in starts);
    }
  }

  lemma {:induction false} DrainAllOwned(s: State, m: nat, hs: seq<nat>, timed: bool)
    requires Owned(s)
    ensures Owned(s.DrainAll(m, hs, timed))
  {
    if hs != [] {
      var last := hs[|hs| - 1];
      DrainAllOwned(s, m, hs[..|hs| - 1], timed);
      var t := s.DrainAll(m, hs[..|hs| - 1], timed);
      ExecPostOwned(t, Some(last), timed);
      NotedOwned(t.ExecPost(Some(last), timed), Drained(m, last));
    }
  }

  lemma AddOwned(s: State, mh: Option<nat>, ch: Option<nat>)
    requires Owned(s)
    ensures Owned(s.Add(mh, ch))
  {
    if mh.Some? && ch.Some? {
      WithMdOwned(s, ch);
      WithMultiOwned(s.WithMd(ch), mh);
      var w := s.WithMd(ch).WithMulti(mh);
      var hs := w.Handles(mh) + [ch.value];
      WithHandlesOwned(w, mh, hs);
      NotedOwned(w.WithHandles(mh, hs), Added(mh.value, ch.value));
    }
  }

  lemma RemoveOwned(s: State, mh: Option<nat>, ch: Option<nat>)
    requires Owned(s)
    ensures Owned(s.Remove(mh, ch))
  {
    if mh.Some? && ch.Some? {
      WithMdOwned(s, ch);
      WithMultiOwned(s.WithMd(ch), mh);
      var w := s.WithMd(ch).WithMulti(mh);
      var hs := Without(w.Handles(mh), ch.value);
      WithHandlesOwned(w, mh, hs);
      NotedOwned(w.WithHandles(mh, hs), Removed(mh.value, ch.value));
    }
  }

  lemma MultiPreOwned(s: State, mh: Option<nat>, rootStarts: bool, starts: set<nat>)
    requires Owned(s)
    ensures Owned(s.MultiPre(mh, rootStarts, starts))
  {
    var w := s.WithMulti(mh);
    WithMultiOwned(s, mh);
    RootOwned(w, mh, w.AsyncIndex(mh), rootStarts);
    var y := w.SegmentStart(rootStarts, w.AsyncIndex(mh), RootOf(mh)).SetMultiSegment(mh, w.NewSegment(rootStarts));
    PreAllOwned(y, w.Handles(mh), w.AsyncIndex(mh), starts);
    SetInitializedOwned(y.PreAll(w.Handles(mh), w.AsyncIndex(mh), starts), mh);
  }

  lemma RetimeRootOwned(s: State, mh: Option<nat>)
    requires Owned(s)
    ensures Owned(s.RetimeRoot(mh))
  {
    var root := s.GetMultiSegment(mh);
    if root.Some? {
      NotedOwned(s, Timed(root.value, s.txn));
    }
  }

  lemma MultiPostOwned(s: State, mh: Option<nat>, finished: set<nat>)
    requires Owned(s)
    ensures Owned(s.MultiPost(mh, finished))
  {
    WithMultiOwned(s, mh);
    var w := s.WithMulti(mh);
    if w.Multi(mh).Some? {
      var hs := w.Handles(mh);
      DrainAllOwned(w, mh.value, Those(hs, finished), true);
      var d := w.DrainAll(mh.value, Those(hs, finished), true);
      WithHandlesOwned(d, mh, Others(hs, finished));
      RetimeRootOwned(d.WithHandles(mh, Others(hs, finished)), mh);
    }
  }

  lemma FinalizeOwned(s: State, mh: Option<nat>)
    requires Owned(s)
    ensures Owned(s.Finalize(mh))
  {
    WithMultiOwned(s, mh);
    var w := s.WithMulti(mh);
    if w.Multi(mh).Some? {
      DrainAllOwned(w, mh.value, w.Handles(mh), false);
      var d := w.DrainAll(mh.value, w.Handles(mh), false);
      WithHandlesOwned(d, mh, []);
      EndSegmentOwned(d.WithHandles(mh, []), d.WithHandles(mh, []).GetMultiSegment(mh), false);
    }
  }

  lemma ClearedOwned(s: State, txn: Option<Txn>, curl: map<nat, CurlMd>)
    requires Owned(s) && (curl == s.curl || curl == map[])
    ensures Owned(s.(txn := txn, curl := curl)) && Owned(DestroyMultis(s.(txn := txn, curl := curl)))
  {
    var t := s.(txn := txn, curl := curl, multis := map[]);
    assert Owned(t);
    NotedOwned(t, MultisDestroyed);
  }

  lemma RemoveHandleOwned(s: State, mh: Option<nat>, ch: Option<nat>)
    requires Owned(s)
    ensures Owned(Step(s, 0, RemoveHandle(mh, ch)))
  {
    RemoveOwned(s, mh, ch);
    var t := s.Remove(mh, ch);
    if t.GetSegment(ch).Some? {
      NotedOwned(t, Discarded(t.GetSegment(ch).value, t.txn));
    }
  }

  lemma MultiExecOwned(s: State, mh: Option<nat>, rootStarts: bool, started: set<nat>, finished: set<nat>, running: bool)
    requires Owned(s)
    ensures Owned(Step(s, 0, MultiExec(mh, rootStarts, started, finished, running)))
  {
    var p := s.MultiPre(mh, rootStarts, started);
    MultiPreOwned(s, mh, rootStarts, started);
    MultiPostOwned(p, mh, finished);
    FinalizeOwned(p.MultiPost(mh, finished), mh);
  }

  lemma StepOwned(s: State, serial: nat, op: Op)
    requires Owned(s)
    ensures Owned(Step(s, serial, op))
  {
    match op
    case Exec(ch, starts) =>
      ExecPreOwned(s, ch, None, starts);
      ExecPostOwned(s.ExecPre(ch, None, starts), ch, false);
    case AddHandle(mh, ch, starts) =>
      AddOwned(s, mh, ch);
      ExecPreOwned(s.Add(mh, ch), ch, s.Add(mh, ch).AsyncIndex(mh), starts);
    case RemoveHandle(mh, ch) => RemoveHandleOwned(s, mh, ch);
    case MultiExec(mh, rootStarts, started, finished, running) =>
      MultiExecOwned(s, mh, rootStarts, started, finished, running);
    case BeginTxn(start, kept) =>
      ClearedOwned(s, Some(Txn(serial, start)), if kept then s.curl else map[]);
    case EndTxn(kept) => ClearedOwned(s, None, if kept then s.curl else map[]);
    case Shutdown => ClearedOwned(s, s.txn, s.curl);
  }

  lemma {:induction false} AlwaysOwned(ops: seq<Op>)
    ensures Owned(Run(ops))
  {
    if ops != [] {
      AlwaysOwned(ops[..|ops| - 1]);
      StepOwned(Run(ops[..|ops| - 1]), |ops|, ops[|ops| - 1]);
    }
  }

  // ------------------------------------------------------------------------
  // What follows for runs.
  // ------------------------------------------------------------------------

  predicate SameOwner(s: State, i: nat, j: nat)
    requires i < |s.log| && j < |s.log| && Touches(s.log[i]) && Touches(s.log[j])
  {
    && s.log[i].segment < |s.segments| && s.log[j].segment < |s.segments|
    && s.segments[s.log[i].segment].owner == s.segments[s.log[j].segment].owner
  }

  predicate Ordered(segments: seq<Segment>) {
    forall z, w :: 0 <= z < w < |segments| ==> segments[z].since <= segments[w].since
  }

  /** Has a segment been started for an owner between two events? */
  predicate StartedIn(segments: seq<Segment>, o: Owner, i: nat, j: nat) {
    exists z :: 0 <= z < |segments| && segments[z].owner == o && i < segments[z].since <= j
  }

  lemma LastsAgree(segments: seq<Segment>, x: nat, y: nat, i: nat, j: nat)
    requires Ordered(segments) && i < j && LastBy(segments, x, i) && LastBy(segments, y, j)
    ensures x == y <==> segments[x].owner == segments[y].owner && !StartedIn(segments, segments[x].owner, i, j)
  {
    if x == y {
      forall z | 0 <= z < |segments| && segments[z].owner == segments[x].owner
        ensures !(i < segments[z].since <= j)
      {
        if segments[z].since <= j {
          assert z <= y;
        }
      }
    } else if segments[x].owner == segments[y].owner {
      assert x <= y;
      assert i < segments[y].since <= j;
    }
  }

  lemma SameSegment(s: State, i: nat, j: nat)
    requires Owned(s) && i < j < |s.log| && Touches(s.log[i]) && Touches(s.log[j])
    ensures s.log[i].segment == s.log[j].segment <==>
            SameOwner(s, i, j) && !StartedIn(s.segments, s.segments[s.log[i].segment].owner, i, j)
  {
    var x, y := s.log[i].segment, s.log[j].segment;
    LastsAgree(s.segments, x, y, i, j);
    assert LastBy(s.segments, x, i) && LastBy(s.segments, y, j);
  }

  /** In any run, two things are done to the same segment exactly when they are done for the same
      handle or multi handle and none has been started for it in between. */
  lemma SameSegmentExactly(ops: seq<Op>, i: nat, j: nat)
    requires var s := Run(ops); i < j < |s.log| && Touches(s.log[i]) && Touches(s.log[j])
    ensures var s := Run(ops);
            s.log[i].segment == s.log[j].segment <==>
            SameOwner(s, i, j) && !StartedIn(s.segments, s.segments[s.log[i].segment].owner, i, j)
  {
    AlwaysOwned(ops);
    SameSegment(Run(ops), i, j);
  }

  /** Two events of a log concern the same segment. */
  predicate Again(log: seq<Event>, i: nat, j: nat) {
    i < j < |log| && Touches(log[i]) && Touches(log[j]) && log[i].segment == log[j].segment
  }

  /** Two events of a run are for the same owner, and none has been started for it in between. */
  predicate NoneStarted(s: State, i: nat, j: nat) {
    && i < j < |s.log| && Touches(s.log[i]) && Touches(s.log[j]) && SameOwner(s, i, j)
    && !StartedIn(s.segments, s.segments[s.log[i].segment].owner, i, j)
  }

  lemma {:induction false} AgainExactly(ops: seq<Op>, j: nat)
    ensures var s := Run(ops); forall i: nat :: Again(s.log, i, j) <==> NoneStarted(s, i, j)
  {
    var s := Run(ops);
    forall i: nat
      ensures Again(s.log, i, j) <==> NoneStarted(s, i, j)
    {
      if i < j < |s.log| && Touches(s.log[i]) && Touches(s.log[j]) {
        SameSegmentExactly(ops, i, j);
      }
    }
  }

  /** An end is not the first one of its segment. */
  ghost predicate EndedBefore(log: seq<Event>, j: nat) {
    exists i: nat :: Again(log, i, j) && log[i].Ended?
  }

  /** In any run: a segment that is ended has been ended before exactly when its handle, or multi
      handle, has ended one before and none has been started for it since. */
  lemma EndedAgainExactly(ops: seq<Op>, j: nat)
    requires j < |Run(ops).log| && Run(ops).log[j].Ended?
    ensures var s := Run(ops); EndedBefore(s.log, j) <==> exists i: nat :: NoneStarted(s, i, j) && s.log[i].Ended?
  {
    AgainExactly(ops, j);
    var s := Run(ops);
    if EndedBefore(s.log, j) {
      var i: nat :| Again(s.log, i, j) && s.log[i].Ended?;
      assert NoneStarted(s, i, j);
    }
    if i: nat :| NoneStarted(s, i, j) && s.log[i].Ended? {
      assert Again(s.log, i, j);
    }
  }

  /** In any run: a segment is timed, ended or discarded after it has been discarded exactly when
      its owner's was discarded and none has been started for that owner since. */
  lemma AfterDiscardExactly(ops: seq<Op>, j: nat)
    requires j < |Run(ops).log| && Touches(Run(ops).log[j])
    ensures var s := Run(ops);
            (exists i: nat :: Again(s.log, i, j) && s.log[i].Discarded?)
            <==> exists i: nat :: NoneStarted(s, i, j) && s.log[i].Discarded?
  {
    AgainExactly(ops, j);
    var s := Run(ops);
    if i: nat :| Again(s.log, i, j) && s.log[i].Discarded? {
      assert NoneStarted(s, i, j);
    }
    if i: nat :| NoneStarted(s, i, j) && s.log[i].Discarded? {
      assert Again(s.log, i, j);
    }
  }

  ghost predicate EndedOnce(log: seq<Event>) {
    forall j: nat :: j < |log| && log[j].Ended? ==> !EndedBefore(log, j)
  }

  /** A run ends no segment twice exactly when between any two ends for the same handle, or multi
      handle, a segment is started for it. */
  lemma EndedOnceExactly(ops: seq<Op>)
    ensures var s := Run(ops);
            EndedOnce(s.log) <==>
            forall i: nat, j: nat :: i < j < |s.log| && s.log[i].Ended? && s.log[j].Ended? ==> !NoneStarted(s, i, j)
  {
    var s := Run(ops);
    forall j: nat | j < |s.log| && s.log[j].Ended?
      ensures EndedBefore(s.log, j) <==> exists i: nat :: NoneStarted(s, i, j) && s.log[i].Ended?
    {
      EndedAgainExactly(ops, j);
    }
  }

  // ------------------------------------------------------------------------
  // The next request.
  // ------------------------------------------------------------------------

  /** An owner has ended a segment and none has been started for it since. */
  predicate Spent(s: State, o: Owner) {
    exists i :: 0 <= i < |s.log| && s.log[i].Ended? && s.log[i].segment < |s.segments|
                && s.segments[s.log[i].segment].owner == o && !StartedIn(s.segments, o, i, |s.log|)
  }

  predicate HasEnded(log: seq<Event>, x: nat) {
    exists i :: 0 <= i < |log| && log[i].Ended? && log[i].segment == x
  }

  lemma OwnerSpent(s: State, x: nat)
    requires Owned(s) && LastBy(s.segments, x, |s.log|)
    ensures Spent(s, s.segments[x].owner) <==> HasEnded(s.log, x)
  {
    var o := s.segments[x].owner;
    forall i | 0 <= i < |s.log| && s.log[i].Ended?
      ensures s.log[i].segment == x <==>
              s.log[i].segment < |s.segments| && s.segments[s.log[i].segment].owner == o
              && !StartedIn(s.segments, o, i, |s.log|)
    {
      assert LastBy(s.segments, s.log[i].segment, i);
      LastsAgree(s.segments, s.log[i].segment, x, i, |s.log|);
    }
  }

  lemma StoredSpent(s: State, ch: Option<nat>)
    requires Owned(s) && s.GetSegment(ch).Some?
    ensures Spent(s, HandleOf(ch)) <==> HasEnded(s.log, s.GetSegment(ch).value)
  {
    var x := s.GetSegment(ch).value;
    assert s.segments[x].owner == HandleOf(ch);
    OwnerSpent(s, x);
  }

  /** What the next request ends: a segment it has started, or the one that is stored. */
  function Ends(s: State, ch: Option<nat>, starts: bool): Option<nat> {
    if starts && s.txn.Some? && HandleOf(ch) != NoOne then Some(|s.segments|) else s.GetSegment(ch)
  }

  lemma RequestLog(s: State, serial: nat, ch: Option<nat>, starts: bool)
    ensures var t, x := Step(s, serial, Exec(ch, starts)), Ends(s, ch, starts);
            t.log == s.log + (if HandleOf(ch) != NoOne then [EndStep(ch.value)] else [])
                     + (if x.Some? then [Ended(x.value, s.txn)] else [])
  {
    var p := s.ExecPre(ch, None, starts);
    assert p.txn == s.txn && p.log == s.log;
    if starts && s.txn.Some? && HandleOf(ch) != NoOne {
      assert p.curl[ch.value] == CurlMd(Some(|s.segments|), s.Start());
    }
  }

  /** A request that ends a segment has done so before. */
  ghost predicate NewEndAgain(before: seq<Event>, after: seq<Event>) {
    exists j: nat :: |before| <= j < |after| && after[j].Ended? && EndedBefore(after, j)
  }

  lemma OneEnd(before: seq<Event>, step: seq<Event>, x: Option<nat>, txn: Option<Txn>)
    requires forall i :: 0 <= i < |step| ==> !step[i].Ended?
    ensures NewEndAgain(before, before + step + if x.Some? then [Ended(x.value, txn)] else [])
            <==> x.Some? && HasEnded(before, x.value)
  {
    var after := before + step + if x.Some? then [Ended(x.value, txn)] else [];
    var j := |before + step|;
    if x.Some? && HasEnded(before, x.value) {
      var i :| 0 <= i < |before| && before[i].Ended? && before[i].segment == x.value;
      assert Again(after, i, j) && after[i].Ended?;
      assert EndedBefore(after, j);
    }
    if NewEndAgain(before, after) {
      var k: nat :| |before| <= k < |after| && after[k].Ended? && EndedBefore(after, k);
      var i: nat :| Again(after, i, k) && after[i].Ended?;
      assert k == j && after[i] == before[i];
    }
  }

  /** After any run, the next request of a handle ends a segment that has been ended before exactly
      when it starts none, finds one stored, and the handle has ended that one already. */
  lemma NextRequest(ops: seq<Op>, ch: Option<nat>, starts: bool)
    ensures var s, t := Run(ops), Run(ops + [Exec(ch, starts)]);
            NewEndAgain(s.log, t.log)
            <==> !(starts && s.txn.Some?) && s.GetSegment(ch).Some? && Spent(s, HandleOf(ch))
  {
    var s := Run(ops);
    assert (ops + [Exec(ch, starts)])[..|ops|] == ops;
    AlwaysOwned(ops);
    RequestLog(s, |ops| + 1, ch, starts);
    OneEnd(s.log, if HandleOf(ch) != NoOne then [EndStep(ch.value)] else [], Ends(s, ch, starts), s.txn);
    if s.GetSegment(ch).Some? {
      StoredSpent(s, ch);
    }
    NotYet(s);
  }

  lemma NotYet(s: State)
    requires Owned(s)
    ensures !HasEnded(s.log, |s.segments|)
  {
    forall i | 0 <= i < |s.log| && s.log[i].Ended?
      ensures s.log[i].segment < |s.segments|
    {
      assert LastBy(s.segments, s.log[i].segment, i);
    }
  }

  // ------------------------------------------------------------------------
  // Runs in which it happens.
  // ------------------------------------------------------------------------

  lemma OneMore(ops: seq<Op>, op: Op)
    ensures Run(ops + [op]) == Step(Run(ops), |ops| + 1, op)
  {
    var more := ops + [op];
    assert more[..|more| - 1] == ops && more[|more| - 1] == op;
  }

  lemma Begun(start: nat)
    ensures Run([BeginTxn(start, false)]) == State(Some(Txn(1, start)), map[], map[], [], [MultisDestroyed])
  {
    OneMore([], BeginTxn(start, false));
    assert [] + [BeginTxn(start, false)] == [BeginTxn(start, false)];
  }

  lemma TwiceEnded(log: seq<Event>, i: nat, j: nat)
    requires Again(log, i, j) && log[i].Ended? && log[j].Ended?
    ensures !EndedOnce(log)
  {
    assert EndedBefore(log, j);
  }

  /** A handle: the second request is not one to be instrumented. */
  lemma RequestEndedTwice(start: nat, ch: nat)
    requires ch != 0
    ensures !EndedOnce(Run([BeginTxn(start, false)] + [Exec(Some(ch), true)] + [Exec(Some(ch), false)]).log)
  {
    var a := [BeginTxn(start, false)];
    var b := a + [Exec(Some(ch), true)];
    Begun(start);
    OneMore(a, Exec(Some(ch), true));
    OneMore(b, Exec(Some(ch), false));
    SecondRequest(Run(a), ch, false);
    TwiceEnded(Run(b + [Exec(Some(ch), false)]).log, 2, 4);
  }

  /** Two requests on one handle within a transaction, right after each other: the second ends a
      segment of its own exactly when it is one to be instrumented; otherwise the first one's again. */
  lemma SecondRequest(s: State, ch: nat, starts: bool)
    requires s.txn.Some? && ch != 0
    ensures var t := Step(s, 0, Exec(Some(ch), true));
            var u := Step(t, 0, Exec(Some(ch), starts));
            && t.log == s.log + [EndStep(ch), Ended(|s.segments|, s.txn)]
            && u.log == t.log + [EndStep(ch), Ended(if starts then |s.segments| + 1 else |s.segments|, s.txn)]
  {
    var t := Step(s, 0, Exec(Some(ch), true));
    assert t.txn == s.txn && t.curl[ch] == CurlMd(Some(|s.segments|), s.Start());
    assert t.segments == s.segments + [Segment(s.txn.value, None, Handle(ch), |s.log|)];
  }

  /** Running a multi handle with nothing on its list, when it is new and when it has been run. */
  lemma RunEmpty(s: State, serial: nat, m: nat)
    requires s.txn.Some? && m != 0
    requires m in s.multis ==> s.multis[m].initialized && s.multis[m].handles == [] && s.multis[m].segment.Some?
                               && s.multis[m].txnStart == s.Start()
    ensures var t := Step(s, serial, MultiExec(Some(m), true, {}, {}, false));
            var x := if m in s.multis then s.multis[m].segment.value else |s.segments|;
            && t.log == s.log + [Timed(x, s.txn), Ended(x, s.txn)] && t.txn == s.txn
            && m in t.multis && t.multis[m].initialized && t.multis[m].handles == [] && t.multis[m].segment == Some(x)
            && t.multis[m].txnStart == t.Start()
  {
    var mh := Some(m);
    var p := s.MultiPre(mh, true, {});
    assert m in p.multis && p.multis[m].handles == [] && p.txn == s.txn && p.log == s.log;
    var q := p.MultiPost(mh, {});
    assert q == p.RetimeRoot(mh) by {
      assert p.multis[m := p.multis[m].(handles := [])] == p.multis;
    }
    assert q.multis[m := q.multis[m].(handles := [])] == q.multis;
  }

  /** The root of a multi handle with an empty list, or, before its first run, the next segment. */
  predicate Idle(s: State, m: nat, x: nat) {
    && s.txn.Some? && m != 0
    && if m in s.multis then
         s.multis[m].initialized && s.multis[m].handles == [] && s.multis[m].segment == Some(x)
         && s.multis[m].txnStart == s.Start()
       else x == |s.segments|
  }

  predicate RanEmpty(s: State, t: State, m: nat, x: nat) {
    t.log == s.log + [Timed(x, s.txn), Ended(x, s.txn)] && t.txn == s.txn && Idle(t, m, x)
  }

  /** curl_multi_exec on a list without handles; nothing is running. */
  function EmptyRun(m: nat): Op {
    MultiExec(Some(m), true, {}, {}, false)
  }

  lemma RunEmptyOnce(ops: seq<Op>, m: nat, x: nat)
    requires Idle(Run(ops), m, x)
    ensures RanEmpty(Run(ops), Run(ops + [EmptyRun(m)]), m, x)
  {
    OneMore(ops, EmptyRun(m));
    RunEmpty(Run(ops), |ops| + 1, m);
  }

  /** A multi handle: it is run once more after nothing was running any more. All requests of this
      run are ones to be instrumented. */
  lemma RootEndedTwice(start: nat, m: nat)
    requires m != 0
    ensures !EndedOnce(Run([BeginTxn(start, false)] + [EmptyRun(m)] + [EmptyRun(m)]).log)
  {
    var a := [BeginTxn(start, false)];
    Begun(start);
    RunEmptyOnce(a, m, 0);
    RunEmptyOnce(a + [EmptyRun(m)], m, 0);
    TwiceEnded(Run(a + [EmptyRun(m)] + [EmptyRun(m)]).log, 2, 4);
  }

  lemma AddNew(s: State, serial: nat, m: nat, h: nat)
    requires m != 0 && h != 0 && m !in s.multis && h in s.curl
    ensures var t := Step(s, serial, AddHandle(Some(m), Some(h), true));
            && m in t.multis && t.multis[m].handles == [h]
            && t.curl == s.curl && t.txn == s.txn && t.log == s.log + [Added(m, h)]
  {
  }

  lemma RemoveOnly(s: State, serial: nat, m: nat, h: nat)
    requires m != 0 && h != 0 && m in s.multis && s.multis[m].handles == [h]
    requires h in s.curl && s.GetSegment(Some(h)).Some?
    ensures var t := Step(s, serial, RemoveHandle(Some(m), Some(h)));
            && t.curl == s.curl && t.txn == s.txn
            && t.log == s.log + [Removed(m, h), Discarded(s.GetSegment(Some(h)).value, s.txn)]
  {
  }

  /** A segment that is ended after it was discarded: its handle is taken off a multi handle and then
      run by a request that is not instrumented. */
  lemma DiscardedEnded(start: nat)
    ensures var log := Run([BeginTxn(start, false)] + [Exec(Some(5), true)] + [AddHandle(Some(1), Some(5), true)]
                           + [RemoveHandle(Some(1), Some(5))] + [Exec(Some(5), false)]).log;
            Again(log, 5, 7) && log[5].Discarded? && log[7].Ended?
  {
    var a := [BeginTxn(start, false)];
    var b := a + [Exec(Some(5), true)];
    var c := b + [AddHandle(Some(1), Some(5), true)];
    var d := c + [RemoveHandle(Some(1), Some(5))];
    Begun(start);
    OneMore(a, Exec(Some(5), true));
    OneMore(b, AddHandle(Some(1), Some(5), true));
    OneMore(c, RemoveHandle(Some(1), Some(5)));
    OneMore(d, Exec(Some(5), false));
    RequestLog(Run(a), 2, Some(5), true);
    assert Run(b).curl[5] == CurlMd(Some(0), start) && Run(b).txn == Some(Txn(1, start)) && Run(b).multis == map[];
    AddNew(Run(b), 3, 1, 5);
    RemoveOnly(Run(c), 4, 1, 5);
    RequestLog(Run(d), 5, Some(5), false);
  }
}
