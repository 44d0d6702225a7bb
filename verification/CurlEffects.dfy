/** What each curl operation starts, stores and leaves in the log, told by the tables alone:
    agent/php_internal_instrument.c:2416-2531, agent/php_curl.c:659-824, agent/php_curl_md.c. */
module CurlEffects {
  import opened Options
  import opened CurlState
  import opened CurlLists
  import opened CurlRuns

  lemma LastStep(ops: seq<Op>, op: Op)
    ensures Run(ops + [op]) == Step(Run(ops), |ops| + 1, op)
  {
    var more := ops + [op];
    assert more[..|more| - 1] == ops && more[|more| - 1] == op;
  }

  /** The start of the current transaction; 0 outside one. */
  function Now(txn: Option<Txn>): nat {
    if txn.Some? then txn.value.start else 0
  }

  /** The segment stored for a handle, unless its transaction started at another time. */
  function StoredFor(curl: map<nat, CurlMd>, txn: Option<Txn>, h: nat): Option<nat> {
    if h in curl && curl[h].txnStart == Now(txn) then curl[h].segment else None
  }

  function StoredForMulti(multis: map<nat, MultiMd>, txn: Option<Txn>, m: nat): Option<nat> {
    if m in multis && multis[m].txnStart == Now(txn) then multis[m].segment else None
  }

  function Timing(x: Option<nat>, txn: Option<Txn>): seq<Event> {
    if x.Some? then [Timed(x.value, txn)] else []
  }

  function Ending(x: Option<nat>, txn: Option<Txn>): seq<Event> {
    if x.Some? then [Ended(x.value, txn)] else []
  }

  /** Two tables tell the same about a handle; that nothing is known of it may be written down. */
  predicate SameMd(c: map<nat, CurlMd>, d: map<nat, CurlMd>, h: nat) {
    && (h in c ==> h in d && d[h] == c[h])
    && (h !in c && h in d ==> d[h] == CurlMd(None, 0))
  }

  ghost predicate SameTables(c: map<nat, CurlMd>, d: map<nat, CurlMd>) {
    forall h {:trigger SameMd(c, d, h)} :: SameMd(c, d, h)
  }

  /** Segments were started for some handles, in order, behind those there were, and each is stored. */
  ghost predicate StartedFor(s: State, t: State, base: seq<Segment>, hs: seq<nat>, index: nat) {
    && (hs != [] ==> s.txn.Some?)
    && |t.segments| == |base| + |hs| && base <= t.segments
    && (forall k :: 0 <= k < |hs| ==>
          t.segments[|base| + k] == Segment(s.txn.value, Some(index), Handle(hs[k]), |s.log|))
    && (forall k :: 0 <= k < |hs| ==>
          hs[k] in t.curl && t.curl[hs[k]] == CurlMd(Some(|base| + k), s.txn.value.start))
    && (forall h {:trigger SameMd(s.curl, t.curl, h)} :: h !in hs ==> SameMd(s.curl, t.curl, h))
  }

  // ------------------------------------------------------------------------
  // Single requests.
  // ------------------------------------------------------------------------

  /** A request starts one segment, in no async context, exactly when it is one to be instrumented
      and there is a transaction. Afterwards what is stored by then is ended, untimed. */
  lemma ExecExactly(ops: seq<Op>, h: nat, starts: bool)
    requires h != 0
    ensures var s, t := Run(ops), Run(ops + [Exec(Some(h), starts)]);
            var started := starts && s.txn.Some?;
            && t.txn == s.txn && t.multis == s.multis
            && t.segments == s.segments + (if started then [Segment(s.txn.value, None, Handle(h), |s.log|)] else [])
            && h in t.curl
            && t.curl[h] == (if started then CurlMd(Some(|s.segments|), s.txn.value.start)
                             else if h in s.curl then s.curl[h] else CurlMd(None, 0))
            && t.log == s.log + [EndStep(h)] + Ending(StoredFor(t.curl, s.txn, h), s.txn)
  {
    LastStep(ops, Exec(Some(h), starts));
  }

  /** What is no handle is given a segment as well, but it is stored nowhere and never ended. */
  lemma ExecOfNoHandle(ops: seq<Op>, ch: Option<nat>, starts: bool)
    requires ch == None || ch == Some(0)
    ensures var s, t := Run(ops), Run(ops + [Exec(ch, starts)]);
            t == s.(segments := s.segments + if starts && s.txn.Some? then [Segment(s.txn.value, None, NoOne, |s.log|)]
                                             else [])
  {
    var s := Run(ops);
    LastStep(ops, Exec(ch, starts));
    assert s.segments + [] == s.segments;
  }

  // ------------------------------------------------------------------------
  // Adding and removing.
  // ------------------------------------------------------------------------

  function Known(s: State, m: nat): MultiMd {
    if m in s.multis then s.multis[m] else MultiMd(|s.multis| + 1, [], None, 0, false)
  }

  function KnownMd(s: State, h: nat): CurlMd {
    if h in s.curl then s.curl[h] else CurlMd(None, 0)
  }

  lemma AddTables(s: State, m: nat, h: nat)
    requires m != 0 && h != 0
    ensures var t, md := s.Add(Some(m), Some(h)), Known(s, m);
            t == s.(curl := s.curl[h := KnownMd(s, h)],
                    multis := s.multis[m := md.(handles := if h in md.handles then md.handles else md.handles + [h])],
                    log := s.log + if h in md.handles then [] else [Added(m, h)])
  {
    var w := s.WithMd(Some(h)).WithMulti(Some(m));
    assert w == s.(curl := s.curl[h := KnownMd(s, h)], multis := s.multis[m := Known(s, m)]);
    assert s.log + [] == s.log;
  }

  lemma AddStep(s: State, serial: nat, m: nat, h: nat, starts: bool)
    requires m != 0 && h != 0
    ensures var t, u := s.Add(Some(m), Some(h)), Step(s, serial, AddHandle(Some(m), Some(h), starts));
            var started := && m in s.multis && s.multis[m].initialized && h !in s.multis[m].handles
                           && starts && s.txn.Some?;
            u == if !started then t
                 else t.(segments := s.segments
                                     + [Segment(s.txn.value, Some(s.multis[m].index), Handle(h), |s.log| + 1)],
                         curl := s.curl[h := CurlMd(Some(|s.segments|), s.txn.value.start)])
  {
    AddTables(s, m, h);
  }

  /** A handle that is not listed goes to the end of the list; a new multi handle gets the next number. */
  lemma AddHandleLists(ops: seq<Op>, m: nat, h: nat, starts: bool)
    requires m != 0 && h != 0
    ensures var s, t := Run(ops), Run(ops + [AddHandle(Some(m), Some(h), starts)]);
            var md := Known(s, m);
            && t.txn == s.txn
            && t.multis == s.multis[m := md.(handles := if h in md.handles then md.handles else md.handles + [h])]
            && t.log == s.log + (if h in md.handles then [] else [Added(m, h)])
  {
    LastStep(ops, AddHandle(Some(m), Some(h), starts));
    AddTables(Run(ops), m, h);
    AddStep(Run(ops), |ops| + 1, m, h, starts);
  }

  /** Adding a handle to a multi handle that runs already starts exactly one segment for it, in that
      multi handle's async context, and stores it; in no other case is anything started. */
  lemma AddHandleStarts(ops: seq<Op>, m: nat, h: nat, starts: bool)
    requires m != 0 && h != 0
    ensures var s, t := Run(ops), Run(ops + [AddHandle(Some(m), Some(h), starts)]);
            var started := && m in s.multis && s.multis[m].initialized && h !in s.multis[m].handles
                           && starts && s.txn.Some?;
            && t.segments == s.segments + (if !started then []
                             else [Segment(s.txn.value, Some(s.multis[m].index), Handle(h), |s.log| + 1)])
            && h in t.curl
            && t.curl[h] == (if started then CurlMd(Some(|s.segments|), s.txn.value.start)
                             else if h in s.curl then s.curl[h] else CurlMd(None, 0))
  {
    LastStep(ops, AddHandle(Some(m), Some(h), starts));
    AddTables(Run(ops), m, h);
    AddStep(Run(ops), |ops| + 1, m, h, starts);
  }

  predicate Incomplete(mh: Option<nat>, ch: Option<nat>) {
    mh == None || mh == Some(0) || ch == None || ch == Some(0)
  }

  lemma NothingToAdd(s: State, serial: nat, mh: Option<nat>, ch: Option<nat>, starts: bool)
    requires Incomplete(mh, ch)
    ensures var t := Step(s, serial, AddHandle(mh, ch, starts)); t == s.WithMd(ch) || t == s
  {
  }

  lemma NothingToRemove(s: State, serial: nat, mh: Option<nat>, ch: Option<nat>)
    requires Incomplete(mh, ch)
    ensures var t := Step(s, serial, RemoveHandle(mh, ch)); t == s.WithMd(ch) || t == s
  {
  }

  lemma OnlyWrittenDown(s: State, ch: Option<nat>)
    ensures var t := s.WithMd(ch); t == s.(curl := t.curl) && SameTables(s.curl, t.curl)
    ensures SameTables(s.curl, s.curl)
  {
  }

  /** Without a multi handle and a handle, neither adding nor removing does anything that shows. */
  lemma NothingToList(ops: seq<Op>, mh: Option<nat>, ch: Option<nat>, starts: bool)
    requires Incomplete(mh, ch)
    ensures var s, t, u := Run(ops), Run(ops + [AddHandle(mh, ch, starts)]), Run(ops + [RemoveHandle(mh, ch)]);
            && t == s.(curl := t.curl) && SameTables(s.curl, t.curl)
            && u == s.(curl := u.curl) && SameTables(s.curl, u.curl)
  {
    NothingToAdd(Run(ops), |ops| + 1, mh, ch, starts);
    NothingToRemove(Run(ops), |ops| + 1, mh, ch);
    OnlyWrittenDown(Run(ops), ch);
    LastStep(ops, AddHandle(mh, ch, starts));
    LastStep(ops, RemoveHandle(mh, ch));
  }

  lemma {:induction false} CutFirst(a: seq<nat>, h: nat, b: seq<nat>)
    requires h !in a
    ensures Without(a + [h] + b, h) == a + b
  {
    var hs := a + [h] + b;
    if a == [] {
      assert hs[0] == h && hs[1..] == b;
    } else {
      assert hs[0] == a[0] && hs[1..] == a[1..] + [h] + b;
      CutFirst(a[1..], h, b);
      assert [a[0]] + (a[1..] + b) == a + b;
    }
  }

  lemma RemoveStep(s: State, serial: nat, m: nat, a: seq<nat>, h: nat, b: seq<nat>)
    requires m != 0 && h != 0 && m in s.multis && s.multis[m].handles == a + [h] + b && h !in a
    ensures var t, x := Step(s, serial, RemoveHandle(Some(m), Some(h))), StoredFor(s.curl, s.txn, h);
            t == s.(curl := s.curl[h := KnownMd(s, h)],
                    multis := s.multis[m := s.multis[m].(handles := a + b)],
                    log := s.log + [Removed(m, h)] + if x.Some? then [Discarded(x.value, s.txn)] else [])
  {
    CutFirst(a, h, b);
    assert s.multis[m].handles[|a|] == h;
    var w := s.WithMd(Some(h)).WithMulti(Some(m));
    assert w == s.(curl := s.curl[h := KnownMd(s, h)]);
    var t := s.Remove(Some(m), Some(h));
    assert t == w.(multis := s.multis[m := s.multis[m].(handles := a + b)], log := s.log + [Removed(m, h)]);
    assert t.log + [] == t.log;
  }

  /** Removing starts nothing. A listed handle goes from its place in the list, and the segment that
      is stored for it, if any, is discarded. */
  lemma RemoveHandleExactly(ops: seq<Op>, m: nat, a: seq<nat>, h: nat, b: seq<nat>)
    requires m != 0 && h != 0 && m in Run(ops).multis && Run(ops).multis[m].handles == a + [h] + b && h !in a
    ensures var s, t := Run(ops), Run(ops + [RemoveHandle(Some(m), Some(h))]);
            var x := StoredFor(s.curl, s.txn, h);
            && t.txn == s.txn && t.segments == s.segments
            && t.multis == s.multis[m := s.multis[m].(handles := a + b)]
            && t.log == s.log + [Removed(m, h)] + (if x.Some? then [Discarded(x.value, s.txn)] else [])
            && forall k {:trigger SameMd(s.curl, t.curl, k)} :: SameMd(s.curl, t.curl, k)
  {
    LastStep(ops, RemoveHandle(Some(m), Some(h)));
    RemoveStep(Run(ops), |ops| + 1, m, a, h, b);
  }

  lemma NoRemoveStep(s: State, serial: nat, m: nat, h: nat)
    requires m != 0 && h != 0 && h !in Known(s, m).handles
    ensures Step(s, serial, RemoveHandle(Some(m), Some(h)))
            == s.(curl := s.curl[h := KnownMd(s, h)], multis := s.multis[m := Known(s, m)])
  {
    var w := s.WithMd(Some(h)).WithMulti(Some(m));
    assert w == s.(curl := s.curl[h := KnownMd(s, h)], multis := s.multis[m := Known(s, m)]);
    assert s.Remove(Some(m), Some(h)) == w;
  }

  /** A handle that is not listed is not removed, and no segment is touched. */
  lemma NotListedNotRemoved(ops: seq<Op>, m: nat, h: nat)
    requires m != 0 && h != 0 && (m in Run(ops).multis ==> h !in Run(ops).multis[m].handles)
    ensures var s, t := Run(ops), Run(ops + [RemoveHandle(Some(m), Some(h))]);
            && t.txn == s.txn && t.segments == s.segments && t.log == s.log
            && t.multis == s.multis[m := Known(s, m)]
  {
    LastStep(ops, RemoveHandle(Some(m), Some(h)));
    NoRemoveStep(Run(ops), |ops| + 1, m, h);
  }

  // ------------------------------------------------------------------------
  // Transactions.
  // ------------------------------------------------------------------------

  /** The same segments, and the same tables and log, or else cleared tables. */
  predicate Tables(s: State, t: State, kept: bool) {
    && t.segments == s.segments
    && t.curl == (if kept then s.curl else map[]) && t.multis == (if kept then s.multis else map[])
    && t.log == s.log + if kept then [] else [MultisDestroyed]
  }

  lemma BeginStep(s: State, serial: nat, start: nat, kept: bool)
    ensures var t := Step(s, serial, BeginTxn(start, kept));
            && (s.txn.Some? ==> t == s)
            && (s.txn.None? ==> t.txn == Some(Txn(serial, start)) && Tables(s, t, kept))
  {
    assert s.log + [] == s.log;
  }

  /** A transaction begins, and is told apart, only where there is none; nothing is started or touched. */
  lemma BeginTxnExactly(ops: seq<Op>, start: nat, kept: bool)
    ensures var s, t := Run(ops), Run(ops + [BeginTxn(start, kept)]);
            && (s.txn.Some? ==> t == s)
            && (s.txn.None? ==> t.txn == Some(Txn(|ops| + 1, start)) && Tables(s, t, kept))
  {
    LastStep(ops, BeginTxn(start, kept));
    BeginStep(Run(ops), |ops| + 1, start, kept);
  }

  lemma EndTxnExactly(ops: seq<Op>, kept: bool)
    ensures var s, t := Run(ops), Run(ops + [EndTxn(kept)]);
            t.txn == None && Tables(s, t, kept)
  {
    LastStep(ops, EndTxn(kept));
  }

  /** The end of a request takes the multi metadata, and only inside a transaction. */
  lemma ShutdownExactly(ops: seq<Op>)
    ensures var s, t := Run(ops), Run(ops + [Shutdown]);
            t == if s.txn.Some? then s.(multis := map[], log := s.log + [MultisDestroyed]) else s
  {
    LastStep(ops, Shutdown);
  }

  // ------------------------------------------------------------------------
  // Running a multi handle: what is started.
  // ------------------------------------------------------------------------

  lemma StartsOne(s: State, t: State, base: seq<Segment>, hs: seq<nat>, h: nat, index: nat)
    requires StartedFor(s, t, base, hs, index) && t.log == s.log && t.txn == s.txn
    requires s.txn.Some? && h != 0 && h !in hs
    ensures StartedFor(s, t.ExecPre(Some(h), Some(index), true), base, hs + [h], index)
  {
    var u := t.ExecPre(Some(h), Some(index), true);
    assert u.segments == t.segments + [Segment(s.txn.value, Some(index), Handle(h), |s.log|)];
    assert u.curl == t.curl[h := CurlMd(Some(|t.segments|), s.txn.value.start)];
    forall k | k !in hs + [h]
      ensures SameMd(s.curl, u.curl, k)
    {
      assert k !in hs && SameMd(s.curl, t.curl, k);
      assert k != h;
    }
  }

  lemma StartsNone(t: State, h: nat, a: Option<nat>, starts: bool)
    requires !starts || t.txn.None?
    ensures t.ExecPre(Some(h), a, starts) == t
  {
  }

  lemma {:induction false} StartsAll(s: State, hs: seq<nat>, index: nat, starts: set<nat>)
    requires Distinct(hs) && 0 !in hs
    ensures var t := s.PreAll(hs, Some(index), starts);
            && t == s.(segments := t.segments, curl := t.curl)
            && StartedFor(s, t, s.segments, if s.txn.Some? then Those(hs, starts) else [], index)
  {
    if hs != [] {
      var init, last := hs[..|hs| - 1], hs[|hs| - 1];
      assert hs == init + [last] && last !in init;
      StartsAll(s, init, index, starts);
      SplitMembers(init, starts);
      var t := s.PreAll(init, Some(index), starts);
      if last in starts && s.txn.Some? {
        StartsOne(s, t, s.segments, Those(init, starts), last, index);
      } else {
        StartsNone(t, last, Some(index), last in starts);
        assert Those(init, starts) + [] == Those(init, starts);
      }
    }
  }

  /** Is this the multi handle's first run? */
  predicate First(s: State, m: nat) {
    !(m in s.multis && s.multis[m].initialized)
  }

  function RootSegment(s: State, m: nat, rootStarts: bool): seq<Segment> {
    if First(s, m) && rootStarts && s.txn.Some? then [Segment(s.txn.value, Some(Known(s, m).index), Root(m), |s.log|)]
    else []
  }

  /** The metadata of a multi handle once it is running. */
  function Running(s: State, m: nat, rootStarts: bool): MultiMd {
    var md := Known(s, m).(initialized := true);
    if RootSegment(s, m, rootStarts) == [] then md
    else md.(segment := Some(|s.segments|), txnStart := s.txn.value.start)
  }

  /** The requests for which a run of a multi handle starts a segment. */
  function Requests(s: State, m: nat, started: set<nat>): seq<nat> {
    if First(s, m) && s.txn.Some? then Those(Known(s, m).handles, started) else []
  }

  lemma RootStarts(s: State, m: nat, rootStarts: bool)
    requires m != 0 && m in s.multis && First(s, m)
    ensures var a := Some(s.multis[m].index);
            s.SegmentStart(rootStarts, a, RootOf(Some(m))).SetMultiSegment(Some(m), s.NewSegment(rootStarts))
            == s.(segments := s.segments + RootSegment(s, m, rootStarts),
                  multis := s.multis[m := Running(s, m, rootStarts).(initialized := s.multis[m].initialized)])
  {
    if !rootStarts || s.txn.None? {
      assert s.segments + [] == s.segments;
      assert s.multis == s.multis[m := s.multis[m]];
    }
  }

  lemma PreSpelled(s: State, m: nat, rootStarts: bool, started: set<nat>)
    requires m != 0 && m in s.multis && First(s, m)
    ensures var a, hs := Some(s.multis[m].index), s.multis[m].handles;
            s.MultiPre(Some(m), rootStarts, started)
            == s.SegmentStart(rootStarts, a, RootOf(Some(m))).SetMultiSegment(Some(m), s.NewSegment(rootStarts))
               .PreAll(hs, a, started).SetInitialized(Some(m))
  {
  }

  lemma Initialize(s: State, t: State, m: nat, md: MultiMd)
    requires m != 0 && t.multis == s.multis[m := md]
    ensures t.SetInitialized(Some(m)) == t.(multis := s.multis[m := md.(initialized := true)])
  {
  }

  lemma PreStarts(s: State, m: nat, rootStarts: bool, started: set<nat>)
    requires m != 0 && m in s.multis && Distinct(s.multis[m].handles) && 0 !in s.multis[m].handles
    ensures var t := s.MultiPre(Some(m), rootStarts, started);
            && t == s.(segments := t.segments, curl := t.curl, multis := s.multis[m := Running(s, m, rootStarts)])
            && StartedFor(s, t, s.segments + RootSegment(s, m, rootStarts), Requests(s, m, started), s.multis[m].index)
  {
    if First(s, m) {
      var index, hs := s.multis[m].index, s.multis[m].handles;
      PreSpelled(s, m, rootStarts, started);
      RootStarts(s, m, rootStarts);
      var y := s.SegmentStart(rootStarts, Some(index), RootOf(Some(m)))
               .SetMultiSegment(Some(m), s.NewSegment(rootStarts));
      var z := y.PreAll(hs, Some(index), started);
      StartsAll(y, hs, index, started);
      StartedSame(s, y, z, y.segments, Requests(s, m, started), index);
      Initialize(s, z, m, Running(s, m, rootStarts).(initialized := s.multis[m].initialized));
      StartedLater(s, z, z.SetInitialized(Some(m)), y.segments, Requests(s, m, started), index);
    } else {
      assert s.segments + [] == s.segments && s.multis[m := s.multis[m]] == s.multis;
    }
  }

  lemma StartedSame(s: State, y: State, t: State, base: seq<Segment>, hs: seq<nat>, index: nat)
    requires y.curl == s.curl && y.txn == s.txn && y.log == s.log && StartedFor(y, t, base, hs, index)
    ensures StartedFor(s, t, base, hs, index)
  {
  }

  lemma PreStartsNew(s: State, m: nat, rootStarts: bool, started: set<nat>)
    requires m != 0 && Distinct(Known(s, m).handles) && 0 !in Known(s, m).handles
    ensures var t := s.MultiPre(Some(m), rootStarts, started);
            && t == s.(segments := t.segments, curl := t.curl, multis := s.multis[m := Running(s, m, rootStarts)])
            && StartedFor(s, t, s.segments + RootSegment(s, m, rootStarts), Requests(s, m, started), Known(s, m).index)
  {
    if m in s.multis {
      PreStarts(s, m, rootStarts, started);
    } else {
      var w := s.(multis := s.multis[m := Known(s, m)]);
      assert w.MultiPre(Some(m), rootStarts, started) == s.MultiPre(Some(m), rootStarts, started);
      PreStarts(w, m, rootStarts, started);
      assert RootSegment(w, m, rootStarts) == RootSegment(s, m, rootStarts);
      StartedSame(s, w, s.MultiPre(Some(m), rootStarts, started), s.segments + RootSegment(s, m, rootStarts),
                  Requests(s, m, started), Known(s, m).index);
    }
  }

  // ------------------------------------------------------------------------
  // Running a multi handle: what is ended.
  // ------------------------------------------------------------------------

  /** What draining one handle leaves in the log: its end step, its stored segment being timed, if
      asked, and ended, and its being taken off the list. */
  function DrainEvents(curl: map<nat, CurlMd>, txn: Option<Txn>, m: nat, h: nat, timed: bool): seq<Event> {
    var x := StoredFor(curl, txn, h);
    [EndStep(h)] + (if timed then Timing(x, txn) else []) + Ending(x, txn) + [Drained(m, h)]
  }

  function DrainsEvents(curl: map<nat, CurlMd>, txn: Option<Txn>, m: nat, hs: seq<nat>, timed: bool): seq<Event> {
    if hs == [] then []
    else DrainsEvents(curl, txn, m, hs[..|hs| - 1], timed) + DrainEvents(curl, txn, m, hs[|hs| - 1], timed)
  }

  lemma SameTwice(c: map<nat, CurlMd>, d: map<nat, CurlMd>, e: map<nat, CurlMd>)
    requires SameTables(c, d) && SameTables(d, e)
    ensures SameTables(c, e)
  {
    forall h
      ensures SameMd(c, e, h)
    {
      assert SameMd(c, d, h) && SameMd(d, e, h);
    }
  }

  lemma {:induction false} SameEvents(c: map<nat, CurlMd>, d: map<nat, CurlMd>, txn: Option<Txn>, m: nat, hs: seq<nat>,
                                      timed: bool)
    requires SameTables(c, d)
    ensures DrainsEvents(c, txn, m, hs, timed) == DrainsEvents(d, txn, m, hs, timed)
  {
    if hs != [] {
      var last := hs[|hs| - 1];
      SameEvents(c, d, txn, m, hs[..|hs| - 1], timed);
      assert SameMd(c, d, last);
    }
  }

  /** Apart from what is known of single handles, events were added and nothing else happened. */
  ghost predicate Adds(s: State, t: State, events: seq<Event>) {
    t == s.(curl := t.curl, log := s.log + events) && SameTables(s.curl, t.curl)
  }

  lemma AddsTwice(s: State, t: State, u: State, a: seq<Event>, b: seq<Event>)
    requires Adds(s, t, a) && Adds(t, u, b)
    ensures Adds(s, u, a + b)
  {
    SameTwice(s.curl, t.curl, u.curl);
    assert s.log + a + b == s.log + (a + b);
  }

  lemma DrainOne(s: State, m: nat, h: nat, timed: bool)
    requires h != 0
    ensures Adds(s, s.Drain(m, h, timed), DrainEvents(s.curl, s.txn, m, h, timed))
  {
    var t, x := s.ExecPost(Some(h), timed), StoredFor(s.curl, s.txn, h);
    assert t.log == s.log + ([EndStep(h)] + (if timed then Timing(x, s.txn) else []) + Ending(x, s.txn));
    assert forall k {:trigger SameMd(s.curl, t.curl, k)} :: SameMd(s.curl, t.curl, k);
  }

  lemma {:induction false} DrainMany(s: State, m: nat, hs: seq<nat>, timed: bool)
    requires 0 !in hs
    ensures Adds(s, s.DrainAll(m, hs, timed), DrainsEvents(s.curl, s.txn, m, hs, timed))
  {
    if hs != [] {
      var init, last := hs[..|hs| - 1], hs[|hs| - 1];
      DrainMany(s, m, init, timed);
      var t := s.DrainAll(m, init, timed);
      DrainOne(t, m, last, timed);
      assert SameMd(s.curl, t.curl, last);
      AddsTwice(s, t, t.Drain(m, last, timed), DrainsEvents(s.curl, s.txn, m, init, timed),
                DrainEvents(s.curl, s.txn, m, last, timed));
    } else {
      assert s.log + [] == s.log;
    }
  }

  /** Apart from what is known of single handles, only the list of m is another, and events were added. */
  ghost predicate Leaves(s: State, t: State, m: nat, hs: seq<nat>, events: seq<Event>)
    requires m in s.multis
  {
    && t == s.(curl := t.curl, multis := s.multis[m := s.multis[m].(handles := hs)], log := s.log + events)
    && SameTables(s.curl, t.curl)
  }

  lemma LeavesTwice(s: State, t: State, u: State, m: nat, hs: seq<nat>, ks: seq<nat>, a: seq<Event>, b: seq<Event>)
    requires m in s.multis && Leaves(s, t, m, hs, a) && Leaves(t, u, m, ks, b)
    ensures Leaves(s, u, m, ks, a + b)
  {
    SameTwice(s.curl, t.curl, u.curl);
    assert s.log + a + b == s.log + (a + b);
  }

  lemma DrainedAndListed(s: State, m: nat, hs: seq<nat>, rest: seq<nat>, timed: bool)
    requires m != 0 && m in s.multis && 0 !in hs
    ensures Leaves(s, s.DrainAll(m, hs, timed).WithHandles(Some(m), rest), m, rest,
                   DrainsEvents(s.curl, s.txn, m, hs, timed))
  {
    DrainMany(s, m, hs, timed);
  }

  lemma RootLeft(s: State, t: State, m: nat, hs: seq<nat>, events: seq<Event>)
    requires m != 0 && m in s.multis && Leaves(s, t, m, hs, events)
    ensures t.GetMultiSegment(Some(m)) == StoredForMulti(s.multis, s.txn, m)
    ensures StoredForMulti(t.multis, t.txn, m) == StoredForMulti(s.multis, s.txn, m)
  {
  }

  lemma RetimeEvents(t: State, m: nat)
    ensures t.RetimeRoot(Some(m)) == t.(log := t.log + Timing(t.GetMultiSegment(Some(m)), t.txn))
  {
    assert t.log + [] == t.log;
  }

  lemma EndEvents(t: State, x: Option<nat>)
    ensures t.EndSegment(x, false) == t.(log := t.log + Ending(x, t.txn))
  {
    assert t.log + [] == t.log;
  }

  lemma LeavesMore(s: State, t: State, m: nat, hs: seq<nat>, a: seq<Event>, b: seq<Event>)
    requires m in s.multis && Leaves(s, t, m, hs, a)
    ensures Leaves(s, t.(log := t.log + b), m, hs, a + b)
  {
    assert s.log + a + b == s.log + (a + b);
  }

  lemma PostSpelled(s: State, m: nat, finished: set<nat>)
    requires m != 0 && m in s.multis
    ensures s.MultiPost(Some(m), finished)
            == s.DrainAll(m, Those(s.multis[m].handles, finished), true)
               .WithHandles(Some(m), Others(s.multis[m].handles, finished)).RetimeRoot(Some(m))
  {
  }

  /** After a run: the finished handles are drained and their segments timed, and the root is timed. */
  lemma PostEnds(s: State, m: nat, finished: set<nat>)
    requires m != 0 && m in s.multis && 0 !in s.multis[m].handles
    ensures var hs := s.multis[m].handles;
            Leaves(s, s.MultiPost(Some(m), finished), m, Others(hs, finished),
                   DrainsEvents(s.curl, s.txn, m, Those(hs, finished), true)
                   + Timing(StoredForMulti(s.multis, s.txn, m), s.txn))
  {
    var hs := s.multis[m].handles;
    var rest, events := Others(hs, finished), DrainsEvents(s.curl, s.txn, m, Those(hs, finished), true);
    SplitMembers(hs, finished);
    PostSpelled(s, m, finished);
    DrainedAndListed(s, m, Those(hs, finished), rest, true);
    var t := s.DrainAll(m, Those(hs, finished), true).WithHandles(Some(m), rest);
    RootLeft(s, t, m, rest, events);
    RetimeEvents(t, m);
    LeavesMore(s, t, m, rest, events, Timing(StoredForMulti(s.multis, s.txn, m), s.txn));
  }

  lemma FinalSpelled(s: State, m: nat)
    requires m != 0 && m in s.multis
    ensures var t := s.DrainAll(m, s.multis[m].handles, false).WithHandles(Some(m), []);
            s.Finalize(Some(m)) == t.EndSegment(t.GetMultiSegment(Some(m)), false)
  {
  }

  /** After the last run: all handles are drained, untimed, and the root is ended. */
  lemma FinalEnds(s: State, m: nat)
    requires m != 0 && m in s.multis && 0 !in s.multis[m].handles
    ensures Leaves(s, s.Finalize(Some(m)), m, [],
                   DrainsEvents(s.curl, s.txn, m, s.multis[m].handles, false)
                   + Ending(StoredForMulti(s.multis, s.txn, m), s.txn))
  {
    var hs := s.multis[m].handles;
    var events := DrainsEvents(s.curl, s.txn, m, hs, false);
    FinalSpelled(s, m);
    DrainedAndListed(s, m, hs, [], false);
    var t := s.DrainAll(m, hs, false).WithHandles(Some(m), []);
    RootLeft(s, t, m, [], events);
    EndEvents(t, t.GetMultiSegment(Some(m)));
    LeavesMore(s, t, m, [], events, Ending(StoredForMulti(s.multis, s.txn, m), s.txn));
  }

  // ------------------------------------------------------------------------
  // The whole call.
  // ------------------------------------------------------------------------

  /** What a call leaves in the log: finished handles drained, timed, in the order of the list; the
      root timed; and, when nothing runs any more, the other handles drained and the root ended. */
  function CallEvents(curl: map<nat, CurlMd>, txn: Option<Txn>, m: nat, hs: seq<nat>, root: Option<nat>,
                      finished: set<nat>, running: bool): seq<Event> {
    DrainsEvents(curl, txn, m, Those(hs, finished), true) + Timing(root, txn)
    + if running then [] else DrainsEvents(curl, txn, m, Others(hs, finished), false) + Ending(root, txn)
  }

  /** A call, from the tables as they are when it is about to run. */
  ghost predicate CallEnds(p: State, u: State, m: nat, finished: set<nat>, running: bool)
    requires m in p.multis
  {
    var hs := p.multis[m].handles;
    Leaves(p, u, m, if running then Others(hs, finished) else [],
           CallEvents(p.curl, p.txn, m, hs, StoredForMulti(p.multis, p.txn, m), finished, running))
  }

  lemma EndsOver(p: State, q: State, u: State, m: nat, rest: seq<nat>, a: seq<Event>)
    requires m in p.multis && m != 0 && Leaves(p, q, m, rest, a)
    requires Leaves(q, u, m, [], DrainsEvents(q.curl, q.txn, m, rest, false)
                                 + Ending(StoredForMulti(q.multis, q.txn, m), q.txn))
    ensures Leaves(p, u, m, [], a + (DrainsEvents(p.curl, p.txn, m, rest, false)
                                     + Ending(StoredForMulti(p.multis, p.txn, m), p.txn)))
  {
    RootLeft(p, q, m, rest, a);
    SameEvents(p.curl, q.curl, p.txn, m, rest, false);
    LeavesTwice(p, q, u, m, rest, [], a,
                DrainsEvents(p.curl, p.txn, m, rest, false) + Ending(StoredForMulti(p.multis, p.txn, m), p.txn));
  }

  lemma AroundEnds(p: State, m: nat, finished: set<nat>, running: bool)
    requires m != 0 && m in p.multis && 0 !in p.multis[m].handles
    ensures var q := p.MultiPost(Some(m), finished);
            CallEnds(p, if running then q else q.Finalize(Some(m)), m, finished, running)
  {
    var hs := p.multis[m].handles;
    var rest := Others(hs, finished);
    var a := DrainsEvents(p.curl, p.txn, m, Those(hs, finished), true)
             + Timing(StoredForMulti(p.multis, p.txn, m), p.txn);
    SplitMembers(hs, finished);
    PostEnds(p, m, finished);
    var q := p.MultiPost(Some(m), finished);
    if running {
      assert a + [] == a;
    } else {
      assert q.multis[m].handles == rest;
      FinalEnds(q, m);
      EndsOver(p, q, q.Finalize(Some(m)), m, rest, a);
    }
  }

  lemma CallSame(c: map<nat, CurlMd>, d: map<nat, CurlMd>, txn: Option<Txn>, m: nat, hs: seq<nat>, root: Option<nat>,
                 finished: set<nat>, running: bool)
    requires SameTables(c, d)
    ensures CallEvents(c, txn, m, hs, root, finished, running) == CallEvents(d, txn, m, hs, root, finished, running)
  {
    SameEvents(c, d, txn, m, Those(hs, finished), true);
    SameEvents(c, d, txn, m, Others(hs, finished), false);
  }

  lemma StartedLater(s: State, p: State, t: State, base: seq<Segment>, hs: seq<nat>, index: nat)
    requires StartedFor(s, p, base, hs, index) && t.segments == p.segments && SameTables(p.curl, t.curl)
    ensures StartedFor(s, t, base, hs, index)
  {
    forall k | 0 <= k < |hs|
      ensures hs[k] in t.curl && t.curl[hs[k]] == CurlMd(Some(|base| + k), s.txn.value.start)
    {
      assert SameMd(p.curl, t.curl, hs[k]);
    }
    forall h | h !in hs
      ensures SameMd(s.curl, t.curl, h)
    {
      assert SameMd(s.curl, p.curl, h) && SameMd(p.curl, t.curl, h);
    }
  }

  /** The first call for a multi handle starts its root segment, if one is to be instrumented, and
      then one segment for each listed request that is; no later call starts any. */
  lemma MultiExecStarts(ops: seq<Op>, m: nat, rootStarts: bool, started: set<nat>, finished: set<nat>, running: bool)
    requires m != 0
    ensures var s, t := Run(ops), Run(ops + [MultiExec(Some(m), rootStarts, started, finished, running)]);
            StartedFor(s, t, s.segments + RootSegment(s, m, rootStarts), Requests(s, m, started), Known(s, m).index)
  {
    var s, t := Run(ops), Run(ops + [MultiExec(Some(m), rootStarts, started, finished, running)]);
    LastStep(ops, MultiExec(Some(m), rootStarts, started, finished, running));
    RunBooks(ops);
    PreStartsNew(s, m, rootStarts, started);
    var p := s.MultiPre(Some(m), rootStarts, started);
    AroundEnds(p, m, finished, running);
    StartedLater(s, p, t, s.segments + RootSegment(s, m, rootStarts), Requests(s, m, started), Known(s, m).index);
  }

  lemma CallTold(s: State, p: State, t: State, m: nat, md: MultiMd, finished: set<nat>, running: bool)
    requires m != 0 && p == s.(segments := p.segments, curl := p.curl, multis := s.multis[m := md])
    requires CallEnds(p, t, m, finished, running)
    ensures CallLeaves(s, t, m, md, finished, running)
  {
    var hs, root := md.handles, StoredForMulti(p.multis, p.txn, m);
    RootLeft(p, t, m, if running then Others(hs, finished) else [],
             CallEvents(p.curl, p.txn, m, hs, root, finished, running));
    CallSame(p.curl, t.curl, s.txn, m, hs, root, finished, running);
  }

  ghost predicate CallLeaves(s: State, t: State, m: nat, md: MultiMd, finished: set<nat>, running: bool) {
    && t.txn == s.txn
    && t.multis == s.multis[m := md.(handles := if running then Others(md.handles, finished) else [])]
    && t.log == s.log + CallEvents(t.curl, s.txn, m, md.handles, StoredForMulti(t.multis, s.txn, m), finished, running)
  }

  /** What a call leaves of the list, and in the log, told by what is stored when it is over. */
  lemma MultiExecEnds(ops: seq<Op>, m: nat, rootStarts: bool, started: set<nat>, finished: set<nat>, running: bool)
    requires m != 0
    ensures CallLeaves(Run(ops), Run(ops + [MultiExec(Some(m), rootStarts, started, finished, running)]),
                       m, Running(Run(ops), m, rootStarts), finished, running)
  {
    var s, t := Run(ops), Run(ops + [MultiExec(Some(m), rootStarts, started, finished, running)]);
    LastStep(ops, MultiExec(Some(m), rootStarts, started, finished, running));
    RunBooks(ops);
    PreStartsNew(s, m, rootStarts, started);
    var p := s.MultiPre(Some(m), rootStarts, started);
    AroundEnds(p, m, finished, running);
    CallTold(s, p, t, m, Running(s, m, rootStarts), finished, running);
  }

  lemma NoneStep(s: State, serial: nat, mh: Option<nat>, rootStarts: bool, started: set<nat>, finished: set<nat>,
                 running: bool)
    requires mh == None || mh == Some(0)
    ensures Step(s, serial, MultiExec(mh, rootStarts, started, finished, running))
            == s.SegmentStart(rootStarts, None, NoOne)
  {
    var t := s.SegmentStart(rootStarts, None, NoOne);
    assert s.MultiPre(mh, rootStarts, started) == t;
    assert t.MultiPost(mh, finished) == t == t.Finalize(mh);
  }

  /** What is no multi handle gets a root segment that is stored nowhere, and nothing else happens. */
  lemma MultiExecOfNone(ops: seq<Op>, mh: Option<nat>, rootStarts: bool, started: set<nat>, finished: set<nat>,
                        running: bool)
    requires mh == None || mh == Some(0)
    ensures var s, t := Run(ops), Run(ops + [MultiExec(mh, rootStarts, started, finished, running)]);
            t == s.(segments := s.segments + if rootStarts && s.txn.Some?
                                             then [Segment(s.txn.value, None, NoOne, |s.log|)] else [])
  {
    var s := Run(ops);
    LastStep(ops, MultiExec(mh, rootStarts, started, finished, running));
    NoneStep(s, |ops| + 1, mh, rootStarts, started, finished, running);
    assert s.segments + [] == s.segments;
  }

  // ------------------------------------------------------------------------
  // The order of the handles that are chosen from a list.
  // ------------------------------------------------------------------------

  predicate Before(hs: seq<nat>, a: nat, b: nat) {
    exists p, q :: 0 <= p < q < |hs| && hs[p] == a && hs[q] == b
  }

  predicate InOrder(part: seq<nat>, whole: seq<nat>) {
    forall i, j :: 0 <= i < j < |part| ==> Before(whole, part[i], part[j])
  }

  lemma BeforeMore(hs: seq<nat>, a: nat, b: nat, h: nat)
    ensures Before(hs, a, b) ==> Before(hs + [h], a, b)
    ensures a in hs ==> Before(hs + [h], a, h)
  {
    var more := hs + [h];
    if Before(hs, a, b) {
      var p, q :| 0 <= p < q < |hs| && hs[p] == a && hs[q] == b;
      assert more[p] == a && more[q] == b;
    }
    if a in hs {
      var p :| 0 <= p < |hs| && hs[p] == a;
      assert more[p] == a && more[|hs|] == h;
    }
  }

  lemma OrderMore(part: seq<nat>, whole: seq<nat>, h: nat)
    requires InOrder(part, whole) && forall k :: k in part ==> k in whole
    ensures InOrder(part, whole + [h]) && InOrder(part + [h], whole + [h])
  {
    forall i, j | 0 <= i < j < |part|
      ensures Before(whole + [h], part[i], part[j])
    {
      BeforeMore(whole, part[i], part[j], h);
    }
    forall i | 0 <= i < |part|
      ensures Before(whole + [h], part[i], h)
    {
      BeforeMore(whole, part[i], h, h);
    }
  }

  /** The chosen handles and the others are taken from a list in its order. */
  lemma {:induction false} ChosenInOrder(hs: seq<nat>, chosen: set<nat>)
    ensures InOrder(Those(hs, chosen), hs) && InOrder(Others(hs, chosen), hs)
  {
    if hs != [] {
      var init, last := hs[..|hs| - 1], hs[|hs| - 1];
      ChosenInOrder(init, chosen);
      SplitMembers(init, chosen);
      OrderMore(Those(init, chosen), init, last);
      OrderMore(Others(init, chosen), init, last);
      assert init + [last] == hs;
      assert Those(init, chosen) + [] == Those(init, chosen) && Others(init, chosen) + [] == Others(init, chosen);
    }
  }
}
