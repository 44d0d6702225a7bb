/** When the next run of a multi handle ends segments that have been ended before:
    agent/php_curl.c:714-824. */
module CurlRepeats {
  import opened CurlLists
  import opened CurlState
  import opened CurlTouches
  import opened Options

  import CurlRuns

  /** A request of h that is over now ends a segment that h has ended already. */
  predicate Repeats(s: State, h: nat) {
    s.GetSegment(Some(h)).Some? && Spent(s, HandleOf(Some(h)))
  }

  predicate RootRepeats(s: State, mh: Option<nat>) {
    s.GetMultiSegment(mh).Some? && Spent(s, RootOf(mh))
  }

  // ------------------------------------------------------------------------
  // Logs that grow.
  // ------------------------------------------------------------------------

  lemma EndedBeforeIn(log: seq<Event>, more: seq<Event>, j: nat)
    requires log <= more && j < |log|
    ensures EndedBefore(more, j) <==> EndedBefore(log, j)
  {
    assert forall i: nat :: i < |log| ==> more[i] == log[i];
    if EndedBefore(more, j) {
      var i: nat :| Again(more, i, j) && more[i].Ended?;
      assert Again(log, i, j);
    }
    if EndedBefore(log, j) {
      var i: nat :| Again(log, i, j) && log[i].Ended?;
      assert Again(more, i, j);
    }
  }

  lemma AgainInTwo(a: seq<Event>, b: seq<Event>, c: seq<Event>)
    requires a <= b <= c
    ensures NewEndAgain(a, c) <==> NewEndAgain(a, b) || NewEndAgain(b, c)
  {
    forall j: nat | j < |b|
      ensures EndedBefore(c, j) <==> EndedBefore(b, j)
    {
      EndedBeforeIn(b, c, j);
    }
    if NewEndAgain(a, c) {
      var j: nat :| |a| <= j < |c| && c[j].Ended? && EndedBefore(c, j);
      if j < |b| {
        assert b[j].Ended? && EndedBefore(b, j);
      } else {
        assert NewEndAgain(b, c);
      }
    }
    if NewEndAgain(a, b) {
      var j: nat :| |a| <= j < |b| && b[j].Ended? && EndedBefore(b, j);
      assert c[j].Ended? && EndedBefore(c, j);
    }
    if NewEndAgain(b, c) {
      var j: nat :| |b| <= j < |c| && c[j].Ended? && EndedBefore(c, j);
      assert |a| <= j;
    }
  }

  lemma NoneAgain(a: seq<Event>, b: seq<Event>)
    requires forall i :: |a| <= i < |b| ==> !b[i].Ended?
    ensures !NewEndAgain(a, b)
  {
  }

  /** From d to e, segments were ended only for handles in hs, and none was started. */
  predicate EndsOnlyFor(d: State, e: State, hs: seq<nat>) {
    && e.segments == d.segments && e.txn == d.txn && d.log <= e.log
    && forall i :: |d.log| <= i < |e.log| && e.log[i].Ended? ==>
                     && e.log[i].segment < |d.segments|
                     && d.segments[e.log[i].segment].owner.Handle?
                     && d.segments[e.log[i].segment].owner.id in hs
  }

  lemma NoStartSince(s: State, o: Owner, i: nat, now: nat)
    requires InOrder(s) && i < |s.log| <= now
    ensures StartedIn(s.segments, o, i, now) <==> StartedIn(s.segments, o, i, |s.log|)
  {
  }

  lemma SpentAside(d: State, e: State, hs: seq<nat>, o: Owner)
    requires InOrder(d) && EndsOnlyFor(d, e, hs) && !(o.Handle? && o.id in hs)
    ensures Spent(e, o) <==> Spent(d, o)
  {
    if Spent(e, o) {
      var i :| 0 <= i < |e.log| && e.log[i].Ended? && e.log[i].segment < |e.segments|
               && e.segments[e.log[i].segment].owner == o && !StartedIn(e.segments, o, i, |e.log|);
      assert i < |d.log| && d.log[i] == e.log[i];
      NoStartSince(d, o, i, |e.log|);
    }
    if Spent(d, o) {
      var i :| 0 <= i < |d.log| && d.log[i].Ended? && d.log[i].segment < |d.segments|
               && d.segments[d.log[i].segment].owner == o && !StartedIn(d.segments, o, i, |d.log|);
      assert e.log[i] == d.log[i];
      NoStartSince(d, o, i, |e.log|);
    }
  }

  lemma OnlyForBoth(d: State, e: State, f: State, hs: seq<nat>, ks: seq<nat>)
    requires EndsOnlyFor(d, e, hs) && EndsOnlyFor(e, f, ks)
    ensures EndsOnlyFor(d, f, hs + ks)
  {
    forall i | |d.log| <= i < |f.log| && f.log[i].Ended?
      ensures f.log[i].segment < |d.segments| && d.segments[f.log[i].segment].owner.Handle?
              && d.segments[f.log[i].segment].owner.id in hs + ks
    {
      if i < |e.log| {
        assert e.log[i] == f.log[i];
      }
    }
  }

  // ------------------------------------------------------------------------
  // Draining.
  // ------------------------------------------------------------------------

  ghost predicate SameStored(d: State, e: State) {
    && e.multis == d.multis
    && forall ch :: e.GetSegment(ch) == d.GetSegment(ch)
  }

  lemma OverLog(d: State, h: nat, timed: bool)
    requires h != 0
    ensures var e, x := d.ExecPost(Some(h), timed), d.GetSegment(Some(h));
            && SameStored(d, e) && e.segments == d.segments && e.txn == d.txn
            && e.log == d.log + ([EndStep(h)] + if timed && x.Some? then [Timed(x.value, d.txn)] else [])
                        + (if x.Some? then [Ended(x.value, d.txn)] else [])
  {
  }

  lemma OverAside(d: State, h: nat, timed: bool)
    requires Owned(d) && h != 0
    ensures EndsOnlyFor(d, d.ExecPost(Some(h), timed), [h])
  {
    OverLog(d, h, timed);
    var x := d.GetSegment(Some(h));
    if x.Some? {
      assert d.segments[x.value].owner == Handle(h);
    }
  }

  lemma OverAgain(d: State, h: nat, timed: bool)
    requires Owned(d) && h != 0
    ensures NewEndAgain(d.log, d.ExecPost(Some(h), timed).log) <==> Repeats(d, h)
  {
    OverLog(d, h, timed);
    var x := d.GetSegment(Some(h));
    OneEnd(d.log, [EndStep(h)] + if timed && x.Some? then [Timed(x.value, d.txn)] else [], x, d.txn);
    if x.Some? {
      StoredSpent(d, Some(h));
    }
  }

  lemma NotedAside(d: State, e: Event)
    requires !e.Ended?
    ensures EndsOnlyFor(d, d.Noted(e), []) && !NewEndAgain(d.log, d.Noted(e).log)
  {
    NoneAgain(d.log, d.Noted(e).log);
  }

  lemma DrainAside(d: State, m: nat, h: nat, timed: bool)
    requires Owned(d) && h != 0
    ensures var e := d.Drain(m, h, timed);
            && Owned(e) && SameStored(d, e) && EndsOnlyFor(d, e, [h])
            && (NewEndAgain(d.log, e.log) <==> Repeats(d, h))
  {
    var e := d.ExecPost(Some(h), timed);
    ExecPostOwned(d, Some(h), timed);
    NotedOwned(e, Drained(m, h));
    OverLog(d, h, timed);
    OverAside(d, h, timed);
    OverAgain(d, h, timed);
    NotedAside(e, Drained(m, h));
    OnlyForBoth(d, e, e.Noted(Drained(m, h)), [h], []);
    assert [h] + [] == [h];
    AgainInTwo(d.log, e.log, e.Noted(Drained(m, h)).log);
  }

  lemma {:induction false} DrainAllAside(d: State, m: nat, hs: seq<nat>, timed: bool)
    requires Owned(d) && 0 !in hs
    ensures var e := d.DrainAll(m, hs, timed); Owned(e) && SameStored(d, e) && EndsOnlyFor(d, e, hs)
  {
    if hs != [] {
      var init, last := hs[..|hs| - 1], hs[|hs| - 1];
      DrainAllAside(d, m, init, timed);
      var e := d.DrainAll(m, init, timed);
      DrainAside(e, m, last, timed);
      OnlyForBoth(d, e, e.Drain(m, last, timed), init, [last]);
      assert init + [last] == hs;
    }
  }

  predicate AnyRepeats(s: State, hs: seq<nat>) {
    exists h :: h in hs && Repeats(s, h)
  }

  lemma RepeatsAside(d: State, e: State, hs: seq<nat>, h: nat)
    requires InOrder(d) && EndsOnlyFor(d, e, hs) && SameStored(d, e) && h !in hs && h != 0
    ensures Repeats(e, h) <==> Repeats(d, h)
  {
    SpentAside(d, e, hs, HandleOf(Some(h)));
  }

  lemma AnyOfMore(s: State, hs: seq<nat>, h: nat)
    ensures AnyRepeats(s, hs + [h]) <==> AnyRepeats(s, hs) || Repeats(s, h)
  {
  }

  lemma {:induction false} DrainAllAgain(d: State, m: nat, hs: seq<nat>, timed: bool)
    requires Owned(d) && 0 !in hs && Distinct(hs)
    ensures NewEndAgain(d.log, d.DrainAll(m, hs, timed).log) <==> AnyRepeats(d, hs)
  {
    if hs == [] {
      NoneAgain(d.log, d.log);
    } else {
      var init, last := hs[..|hs| - 1], hs[|hs| - 1];
      assert init + [last] == hs && last !in init;
      DrainAllAgain(d, m, init, timed);
      DrainAllAside(d, m, init, timed);
      var e := d.DrainAll(m, init, timed);
      DrainAside(e, m, last, timed);
      RepeatsAside(d, e, init, last);
      AgainInTwo(d.log, e.log, e.Drain(m, last, timed).log);
      AnyOfMore(d, init, last);
    }
  }

  // ------------------------------------------------------------------------
  // Starting requests.
  // ------------------------------------------------------------------------

  /** From s to t, nothing happened but that segments were started. */
  predicate Grown(s: State, t: State) {
    && s.segments <= t.segments && t.log == s.log && t.txn == s.txn
    && forall z :: |s.segments| <= z < |t.segments| ==> t.segments[z].since == |s.log|
  }

  predicate StartedFor(s: State, t: State, o: Owner) {
    exists z :: |s.segments| <= z < |t.segments| && t.segments[z].owner == o
  }

  lemma GrownSpent(s: State, t: State, o: Owner)
    requires Touched(s) && Grown(s, t)
    ensures Spent(t, o) <==> Spent(s, o) && !StartedFor(s, t, o)
  {
    forall i | 0 <= i < |s.log| && s.log[i].Ended?
      ensures s.log[i].segment < |s.segments|
      ensures StartedIn(t.segments, o, i, |s.log|) <==> StartedIn(s.segments, o, i, |s.log|) || StartedFor(s, t, o)
    {
      assert LastBy(s.segments, s.log[i].segment, i);
      StartsAdd(s, t, o, i);
    }
  }

  lemma StartsAdd(s: State, t: State, o: Owner, i: nat)
    requires Grown(s, t) && i < |s.log|
    ensures StartedIn(t.segments, o, i, |s.log|) <==> StartedIn(s.segments, o, i, |s.log|) || StartedFor(s, t, o)
  {
    if StartedIn(s.segments, o, i, |s.log|) {
      var z :| 0 <= z < |s.segments| && s.segments[z].owner == o && i < s.segments[z].since <= |s.log|;
      assert t.segments[z] == s.segments[z];
    }
    if StartedFor(s, t, o) {
      var z :| |s.segments| <= z < |t.segments| && t.segments[z].owner == o;
      assert i < t.segments[z].since <= |s.log|;
    }
  }

  lemma GrownTwice(s: State, t: State, u: State)
    requires Grown(s, t) && Grown(t, u)
    ensures Grown(s, u)
    ensures forall o :: StartedFor(s, u, o) <==> StartedFor(s, t, o) || StartedFor(t, u, o)
  {
    forall o
      ensures StartedFor(s, u, o) <==> StartedFor(s, t, o) || StartedFor(t, u, o)
    {
      if StartedFor(s, u, o) {
        var z :| |s.segments| <= z < |u.segments| && u.segments[z].owner == o;
        if z < |t.segments| {
          assert t.segments[z] == u.segments[z];
        }
      }
      if StartedFor(s, t, o) {
        var z :| |s.segments| <= z < |t.segments| && t.segments[z].owner == o;
        assert u.segments[z] == t.segments[z];
      }
    }
  }

  lemma OneStart(s: State, ch: Option<nat>, a: Option<nat>, starts: bool)
    ensures var t := s.ExecPre(ch, a, starts);
            && Grown(s, t) && t.multis == s.multis
            && (forall o :: StartedFor(s, t, o) <==> starts && s.txn.Some? && o == HandleOf(ch))
            && forall h: nat :: !(starts && s.txn.Some? && ch == Some(h)) ==> t.GetSegment(Some(h)) == s.GetSegment(Some(h))
  {
    var t := s.ExecPre(ch, a, starts);
    if starts && s.txn.Some? {
      assert t.segments[|s.segments|].owner == HandleOf(ch);
    }
  }

  /** The handles for which a segment is started. */
  predicate Started(s: State, hs: seq<nat>, starts: set<nat>, h: nat) {
    s.txn.Some? && h in hs && h in starts
  }

  lemma {:induction false} AllStart(s: State, hs: seq<nat>, a: Option<nat>, starts: set<nat>)
    requires 0 !in hs
    ensures var t := s.PreAll(hs, a, starts);
            && Grown(s, t) && t.multis == s.multis
            && (forall o :: StartedFor(s, t, o) <==> o.Handle? && Started(s, hs, starts, o.id))
            && forall h: nat :: !Started(s, hs, starts, h) ==> t.GetSegment(Some(h)) == s.GetSegment(Some(h))
  {
    if hs != [] {
      var init, last := hs[..|hs| - 1], hs[|hs| - 1];
      assert hs == init + [last];
      AllStart(s, init, a, starts);
      var t := s.PreAll(init, a, starts);
      OneStart(t, Some(last), a, last in starts);
      GrownTwice(s, t, t.ExecPre(Some(last), a, last in starts));
    }
  }

  lemma AllStartRepeats(s: State, hs: seq<nat>, a: Option<nat>, starts: set<nat>, h: nat)
    requires Touched(s) && 0 !in hs && h != 0
    ensures Repeats(s.PreAll(hs, a, starts), h) <==> Repeats(s, h) && !Started(s, hs, starts, h)
  {
    AllStart(s, hs, a, starts);
    GrownSpent(s, s.PreAll(hs, a, starts), HandleOf(Some(h)));
  }

  lemma AllStartRoot(s: State, hs: seq<nat>, a: Option<nat>, starts: set<nat>, mh: Option<nat>)
    requires Touched(s) && 0 !in hs
    ensures RootRepeats(s.PreAll(hs, a, starts), mh) <==> RootRepeats(s, mh)
  {
    if s.GetMultiSegment(mh).Some? {
      AllStart(s, hs, a, starts);
      GrownSpent(s, s.PreAll(hs, a, starts), RootOf(mh));
    } else {
      AllStart(s, hs, a, starts);
    }
  }

  lemma RootStart(s: State, mh: Option<nat>, a: Option<nat>, starts: bool)
    ensures var t := s.SegmentStart(starts, a, RootOf(mh)).SetMultiSegment(mh, s.NewSegment(starts));
            && Grown(s, t) && t.curl == s.curl
            && (forall o :: StartedFor(s, t, o) <==> starts && s.txn.Some? && o == RootOf(mh))
            && (!(starts && s.txn.Some?) ==> t == s)
  {
    var t := s.SegmentStart(starts, a, RootOf(mh)).SetMultiSegment(mh, s.NewSegment(starts));
    if starts && s.txn.Some? {
      assert t.segments[|s.segments|].owner == RootOf(mh);
    }
  }

  lemma RootStartRepeats(s: State, mh: Option<nat>, a: Option<nat>, starts: bool)
    requires Touched(s)
    ensures var t := s.SegmentStart(starts, a, RootOf(mh)).SetMultiSegment(mh, s.NewSegment(starts));
            && (forall h :: h != 0 ==> (Repeats(t, h) <==> Repeats(s, h)))
            && (RootRepeats(t, mh) <==> RootRepeats(s, mh) && !(starts && s.txn.Some?))
  {
    var t := s.SegmentStart(starts, a, RootOf(mh)).SetMultiSegment(mh, s.NewSegment(starts));
    RootStart(s, mh, a, starts);
    GrownSpent(s, t, RootOf(mh));
    forall h | h != 0
      ensures Repeats(t, h) <==> Repeats(s, h)
    {
      GrownSpent(s, t, HandleOf(Some(h)));
      assert t.GetSegment(Some(h)) == s.GetSegment(Some(h));
    }
  }

  /** Is this the first run of a multi handle? */
  predicate First(s: State, mh: Option<nat>) {
    !(s.Multi(mh).Some? && s.Multi(mh).value.initialized)
  }

  lemma WithMultiRepeats(s: State, mh: Option<nat>)
    ensures var w := s.WithMulti(mh);
            && (forall h :: Repeats(w, h) <==> Repeats(s, h)) && (RootRepeats(w, mh) <==> RootRepeats(s, mh))
            && First(w, mh) == First(s, mh) && w.Handles(mh) == s.Handles(mh)
            && w == s.(multis := w.multis)
  {
    var w := s.WithMulti(mh);
    forall h
      ensures Repeats(w, h) <==> Repeats(s, h)
    {
      assert w.GetSegment(Some(h)) == s.GetSegment(Some(h));
      SpentSame(s, w, HandleOf(Some(h)));
    }
    SpentSame(s, w, RootOf(mh));
  }

  lemma SpentSame(s: State, t: State, o: Owner)
    requires t.segments == s.segments && t.log == s.log
    ensures Spent(t, o) <==> Spent(s, o)
  {
  }

  lemma SetInitializedRepeats(s: State, mh: Option<nat>)
    ensures var t := s.SetInitialized(mh);
            && (forall h :: Repeats(t, h) <==> Repeats(s, h)) && (RootRepeats(t, mh) <==> RootRepeats(s, mh))
  {
    var t := s.SetInitialized(mh);
    forall h
      ensures Repeats(t, h) <==> Repeats(s, h)
    {
      assert t.GetSegment(Some(h)) == s.GetSegment(Some(h));
      SpentSame(s, t, HandleOf(Some(h)));
    }
    SpentSame(s, t, RootOf(mh));
  }

  /** What a first run starts is no longer a repeat; everything else is what it was. */
  lemma PreRepeats(s: State, mh: Option<nat>, rootStarts: bool, started: set<nat>, h: nat)
    requires Owned(s) && 0 !in s.Handles(mh) && h != 0
    ensures var p := s.MultiPre(mh, rootStarts, started);
            && (Repeats(p, h) <==> Repeats(s, h) && !(First(s, mh) && Started(s, s.Handles(mh), started, h)))
            && (RootRepeats(p, mh) <==> RootRepeats(s, mh) && !(First(s, mh) && rootStarts && s.txn.Some?))
  {
    var w := s.WithMulti(mh);
    WithMultiRepeats(s, mh);
    WithMultiOwned(s, mh);
    if First(w, mh) {
      var a, hs := w.AsyncIndex(mh), w.Handles(mh);
      var y := w.SegmentStart(rootStarts, a, RootOf(mh)).SetMultiSegment(mh, w.NewSegment(rootStarts));
      RootStart(w, mh, a, rootStarts);
      RootStartRepeats(w, mh, a, rootStarts);
      RootOwned(w, mh, a, rootStarts);
      AllStartRepeats(y, hs, a, started, h);
      AllStartRoot(y, hs, a, started, mh);
      SetInitializedRepeats(y.PreAll(hs, a, started), mh);
    }
  }

  lemma PreLists(s: State, mh: Option<nat>, rootStarts: bool, started: set<nat>)
    requires 0 !in s.Handles(mh)
    ensures var p := s.MultiPre(mh, rootStarts, started);
            && p.Handles(mh) == s.Handles(mh) && p.log == s.log && p.txn == s.txn
            && (RootOf(mh) != NoOne ==> p.Multi(mh).Some?)
  {
    var w := s.WithMulti(mh);
    var y := w.SegmentStart(rootStarts, w.AsyncIndex(mh), RootOf(mh)).SetMultiSegment(mh, w.NewSegment(rootStarts));
    RootStart(w, mh, w.AsyncIndex(mh), rootStarts);
    AllStart(y, w.Handles(mh), w.AsyncIndex(mh), started);
  }

  // ------------------------------------------------------------------------
  // A whole run of a multi handle.
  // ------------------------------------------------------------------------

  lemma RootAside(d: State, e: State, hs: seq<nat>, mh: Option<nat>)
    requires InOrder(d) && EndsOnlyFor(d, e, hs) && SameStored(d, e)
    ensures RootRepeats(e, mh) <==> RootRepeats(d, mh)
  {
    SpentAside(d, e, hs, RootOf(mh));
  }

  lemma WithHandlesRepeats(s: State, mh: Option<nat>, hs: seq<nat>)
    ensures var t := s.WithHandles(mh, hs);
            && (forall h: nat :: Repeats(t, h) <==> Repeats(s, h)) && (RootRepeats(t, mh) <==> RootRepeats(s, mh))
            && t.log == s.log && t.GetMultiSegment(mh) == s.GetMultiSegment(mh)
  {
    var t := s.WithHandles(mh, hs);
    forall h: nat
      ensures Repeats(t, h) <==> Repeats(s, h)
    {
      assert t.GetSegment(Some(h)) == s.GetSegment(Some(h));
      SpentSame(s, t, HandleOf(Some(h)));
    }
    SpentSame(s, t, RootOf(mh));
  }

  lemma RetimeRepeats(s: State, mh: Option<nat>)
    requires Owned(s)
    ensures var t := s.RetimeRoot(mh);
            && (forall h: nat :: h != 0 ==> (Repeats(t, h) <==> Repeats(s, h)))
            && (RootRepeats(t, mh) <==> RootRepeats(s, mh))
            && s.log <= t.log && !NewEndAgain(s.log, t.log)
  {
    var t, root := s.RetimeRoot(mh), s.GetMultiSegment(mh);
    if root.Some? {
      NotedAside(s, Timed(root.value, s.txn));
      forall h: nat | h != 0
        ensures Repeats(t, h) <==> Repeats(s, h)
      {
        RepeatsAside(s, t, [], h);
      }
      RootAside(s, t, [], mh);
    } else {
      NoneAgain(s.log, t.log);
    }
  }

  lemma PostRepeats(p: State, mh: Option<nat>, finished: set<nat>)
    requires Owned(p) && p.Multi(mh).Some? && 0 !in p.Handles(mh) && Distinct(p.Handles(mh))
    ensures var q, hs := p.MultiPost(mh, finished), p.Handles(mh);
            && p.log <= q.log && (NewEndAgain(p.log, q.log) <==> AnyRepeats(p, Those(hs, finished)))
            && q.Multi(mh).Some? && q.Handles(mh) == Others(hs, finished) && Owned(q)
            && (forall h: nat :: h != 0 && h !in Those(hs, finished) ==> (Repeats(q, h) <==> Repeats(p, h)))
            && (RootRepeats(q, mh) <==> RootRepeats(p, mh))
  {
    var hs := p.Handles(mh);
    var drained := Those(hs, finished);
    SplitHandles(hs, finished);
    MultiPostOwned(p, mh, finished);
    var d := p.DrainAll(mh.value, drained, true);
    DrainAllAgain(p, mh.value, drained, true);
    DrainAllAside(p, mh.value, drained, true);
    WithHandlesOwned(d, mh, Others(hs, finished));
    WithHandlesRepeats(d, mh, Others(hs, finished));
    var e := d.WithHandles(mh, Others(hs, finished));
    RetimeRepeats(e, mh);
    assert p.WithMulti(mh) == p && p.MultiPost(mh, finished) == e.RetimeRoot(mh);
    forall h: nat | h != 0 && h !in drained
      ensures Repeats(e.RetimeRoot(mh), h) <==> Repeats(p, h)
    {
      RepeatsAside(p, d, drained, h);
    }
    RootAside(p, d, drained, mh);
    AgainInTwo(p.log, e.log, e.RetimeRoot(mh).log);
  }

  lemma RootEnds(s: State, mh: Option<nat>)
    requires Owned(s)
    ensures NewEndAgain(s.log, s.EndSegment(s.GetMultiSegment(mh), false).log) <==> RootRepeats(s, mh)
  {
    var x := s.GetMultiSegment(mh);
    assert s.log + [] == s.log;
    OneEnd(s.log, [], x, s.txn);
    if x.Some? {
      assert s.segments[x.value].owner == RootOf(mh);
      OwnerSpent(s, x.value);
    } else {
      NoneAgain(s.log, s.log);
    }
  }

  lemma FinalRepeats(q: State, mh: Option<nat>)
    requires Owned(q) && q.Multi(mh).Some? && 0 !in q.Handles(mh) && Distinct(q.Handles(mh))
    ensures var f := q.Finalize(mh);
            q.log <= f.log
            && (NewEndAgain(q.log, f.log) <==> AnyRepeats(q, q.Handles(mh)) || RootRepeats(q, mh))
  {
    var hs := q.Handles(mh);
    var d := q.DrainAll(mh.value, hs, false);
    DrainAllAgain(q, mh.value, hs, false);
    DrainAllAside(q, mh.value, hs, false);
    WithHandlesOwned(d, mh, []);
    WithHandlesRepeats(d, mh, []);
    var e := d.WithHandles(mh, []);
    RootAside(q, d, hs, mh);
    RootEnds(e, mh);
    assert q.WithMulti(mh) == q && q.Finalize(mh) == e.EndSegment(e.GetMultiSegment(mh), false);
    AgainInTwo(q.log, e.log, q.Finalize(mh).log);
  }

  /** The handles a call drains. */
  predicate IsDrained(s: State, mh: Option<nat>, finished: set<nat>, running: bool, h: nat) {
    h in s.Handles(mh) && (running ==> h in finished)
  }

  ghost predicate DrainRepeats(s: State, mh: Option<nat>, finished: set<nat>, running: bool) {
    exists h :: IsDrained(s, mh, finished, running, h) && Repeats(s, h)
  }

  lemma AroundRepeats(p: State, mh: Option<nat>, finished: set<nat>, running: bool)
    requires Owned(p) && p.Multi(mh).Some? && 0 !in p.Handles(mh) && Distinct(p.Handles(mh))
    ensures var q := p.MultiPost(mh, finished);
            var t := if running then q else q.Finalize(mh);
            p.log <= t.log
            && (NewEndAgain(p.log, t.log) <==>
                  DrainRepeats(p, mh, finished, running) || (!running && RootRepeats(p, mh)))
  {
    var q, hs := p.MultiPost(mh, finished), p.Handles(mh);
    SplitHandles(hs, finished);
    PostRepeats(p, mh, finished);
    forall h | h in Others(hs, finished)
      ensures Repeats(q, h) <==> Repeats(p, h)
    {
    }
    if !running {
      FinalRepeats(q, mh);
      AgainInTwo(p.log, q.log, q.Finalize(mh).log);
    }
    DrainedSplit(p, q, mh, finished, running);
  }

  lemma DrainedSplit(p: State, q: State, mh: Option<nat>, finished: set<nat>, running: bool)
    requires var hs := p.Handles(mh); forall h :: h in Others(hs, finished) ==> (Repeats(q, h) <==> Repeats(p, h))
    ensures var hs := p.Handles(mh);
            DrainRepeats(p, mh, finished, running) <==>
            AnyRepeats(p, Those(hs, finished)) || (!running && AnyRepeats(q, Others(hs, finished)))
  {
    var hs := p.Handles(mh);
    SplitHandles(hs, finished);
    if h :| IsDrained(p, mh, finished, running, h) && Repeats(p, h) {
      assert h in Those(hs, finished) || h in Others(hs, finished);
    }
    if AnyRepeats(p, Those(hs, finished)) {
      var h :| h in Those(hs, finished) && Repeats(p, h);
      assert IsDrained(p, mh, finished, running, h);
    }
    if !running && AnyRepeats(q, Others(hs, finished)) {
      var h :| h in Others(hs, finished) && Repeats(q, h);
      assert IsDrained(p, mh, finished, running, h);
    }
  }

  lemma PreDrainRepeats(s: State, mh: Option<nat>, rootStarts: bool, started: set<nat>, finished: set<nat>, running: bool)
    requires Owned(s) && 0 !in s.Handles(mh)
    ensures DrainRepeats(s.MultiPre(mh, rootStarts, started), mh, finished, running) <==>
            exists h :: && IsDrained(s, mh, finished, running, h) && Repeats(s, h)
                        && !(First(s, mh) && Started(s, s.Handles(mh), started, h))
  {
    var p := s.MultiPre(mh, rootStarts, started);
    PreLists(s, mh, rootStarts, started);
    forall h: nat
      ensures IsDrained(p, mh, finished, running, h) <==> IsDrained(s, mh, finished, running, h)
      ensures IsDrained(s, mh, finished, running, h) ==>
                (Repeats(p, h) <==> Repeats(s, h) && !(First(s, mh) && Started(s, s.Handles(mh), started, h)))
    {
      if h in s.Handles(mh) {
        PreRepeats(s, mh, rootStarts, started, h);
      }
    }
  }

  /** The condition in front of a call. */
  ghost predicate RepeatsNext(s: State, mh: Option<nat>, rootStarts: bool, started: set<nat>, finished: set<nat>,
                              running: bool) {
    || (exists h :: && IsDrained(s, mh, finished, running, h) && Repeats(s, h)
                    && !(First(s, mh) && Started(s, s.Handles(mh), started, h)))
    || (!running && RootRepeats(s, mh) && !(First(s, mh) && rootStarts && s.txn.Some?))
  }

  lemma RepeatsNextAfterPre(s: State, mh: Option<nat>, rootStarts: bool, started: set<nat>, finished: set<nat>,
                            running: bool)
    requires Owned(s) && 0 !in s.Handles(mh)
    ensures var p := s.MultiPre(mh, rootStarts, started);
            DrainRepeats(p, mh, finished, running) || (!running && RootRepeats(p, mh))
            <==> RepeatsNext(s, mh, rootStarts, started, finished, running)
  {
    PreDrainRepeats(s, mh, rootStarts, started, finished, running);
    PreRepeats(s, mh, rootStarts, started, 1);
  }

  lemma NothingToRun(s: State, mh: Option<nat>, rootStarts: bool, started: set<nat>, finished: set<nat>, running: bool)
    requires RootOf(mh) == NoOne
    ensures var q := s.MultiPre(mh, rootStarts, started).MultiPost(mh, finished);
            var t := if running then q else q.Finalize(mh);
            !NewEndAgain(s.log, t.log) && !RepeatsNext(s, mh, rootStarts, started, finished, running)
  {
    var p := s.MultiPre(mh, rootStarts, started);
    PreLists(s, mh, rootStarts, started);
    NoneAgain(s.log, p.log);
  }

  /** The same from any state that is in order. */
  lemma NextRun(s: State, serial: nat, mh: Option<nat>, rootStarts: bool, started: set<nat>, finished: set<nat>,
                running: bool)
    requires Owned(s) && 0 !in s.Handles(mh) && Distinct(s.Handles(mh))
    ensures var t := Step(s, serial, MultiExec(mh, rootStarts, started, finished, running));
            NewEndAgain(s.log, t.log) <==> RepeatsNext(s, mh, rootStarts, started, finished, running)
  {
    if RootOf(mh) == NoOne {
      NothingToRun(s, mh, rootStarts, started, finished, running);
    } else {
      PreLists(s, mh, rootStarts, started);
      MultiPreOwned(s, mh, rootStarts, started);
      AroundRepeats(s.MultiPre(mh, rootStarts, started), mh, finished, running);
      RepeatsNextAfterPre(s, mh, rootStarts, started, finished, running);
    }
  }

  /** After any run, the next call of curl_multi_exec ends a segment that has been ended before
      exactly in two cases. It drains a handle that finds a segment stored it has ended already, and
      for which it has not started one as a first run does; or nothing is running any more, and the
      same is true of the root. */
  lemma NextMultiExec(ops: seq<Op>, mh: Option<nat>, rootStarts: bool, started: set<nat>, finished: set<nat>,
                      running: bool)
    ensures var s, t := Run(ops), Run(ops + [MultiExec(mh, rootStarts, started, finished, running)]);
            NewEndAgain(s.log, t.log) <==>
            || (exists h :: && IsDrained(s, mh, finished, running, h) && Repeats(s, h)
                            && !(First(s, mh) && Started(s, s.Handles(mh), started, h)))
            || (!running && RootRepeats(s, mh) && !(First(s, mh) && rootStarts && s.txn.Some?))
  {
    var s, op := Run(ops), MultiExec(mh, rootStarts, started, finished, running);
    OneMore(ops, op);
    AlwaysOwned(ops);
    CurlRuns.RunBooks(ops);
    NextRun(s, |ops| + 1, mh, rootStarts, started, finished, running);
  }
}
