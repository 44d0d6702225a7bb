/** The guard on stored segments, over whole runs: agent/php_curl_md.c:279-319, 435-477. */
module CurlGuard {
  import opened Options
  import opened CurlState

  /** A stored segment goes with the time its own transaction started. */
  predicate StoredOk(segments: seq<Segment>, segment: Option<nat>, txnStart: nat) {
    segment.Some? ==> segment.value < |segments| && txnStart == segments[segment.value].txn.start
  }

  predicate Guarded(s: State) {
    && (forall h :: h in s.curl ==> StoredOk(s.segments, s.curl[h].segment, s.curl[h].txnStart))
    && (forall m :: m in s.multis ==> StoredOk(s.segments, s.multis[m].segment, s.multis[m].txnStart))
  }

  /** The guard lets a segment of another transaction through exactly when the two transactions
      started at the same time. */
  lemma GuardExact(s: State, ch: Option<nat>, x: nat)
    requires Guarded(s)
    ensures s.GetSegment(ch) == Some(x) <==>
            s.Md(ch).Some? && s.Md(ch).value.segment == Some(x)
            && x < |s.segments| && s.segments[x].txn.start == s.Start()
  {
  }

  /** What happens to a segment happens while its own transaction is the current one. */
  predicate InOwnTxn(e: Event, segments: seq<Segment>) {
    match e
    case Timed(x, t) => x < |segments| && t == Some(segments[x].txn)
    case Ended(x, t) => x < |segments| && t == Some(segments[x].txn)
    case Discarded(x, t) => x < |segments| && t == Some(segments[x].txn)
    case _ => true
  }

  predicate Safe(s: State) {
    forall i :: 0 <= i < |s.log| ==> InOwnTxn(s.log[i], s.segments)
  }

  /** A stored segment is of the current transaction, or of one that started at another of the
      times so far. */
  predicate Told(txn: Option<Txn>, segments: seq<Segment>, segment: Option<nat>, times: set<nat>) {
    segment.Some? ==>
      && segment.value < |segments|
      && segments[segment.value].txn.start in times
      && (txn.Some? && segments[segment.value].txn.start == txn.value.start ==> segments[segment.value].txn == txn.value)
  }

  predicate Known(s: State, times: set<nat>) {
    && 0 !in times
    && (s.txn.Some? ==> s.txn.value.start in times)
    && (forall h :: h in s.curl ==> Told(s.txn, s.segments, s.curl[h].segment, times))
    && (forall m :: m in s.multis ==> Told(s.txn, s.segments, s.multis[m].segment, times))
  }

  /** Guarded holds in every run; the other two where start times tell transactions apart. */
  predicate Ok(s: State, times: set<nat>) {
    Guarded(s) && Known(s, times) && Safe(s)
  }

  /** What every operation is shown to keep. */
  predicate Keeps(s: State, t: State, times: set<nat>) {
    Guarded(t) && (Ok(s, times) ==> Ok(t, times))
  }

  // ------------------------------------------------------------------------
  // Single handles.
  // ------------------------------------------------------------------------

  lemma NotedKeeps(s: State, e: Event, times: set<nat>)
    requires Guarded(s) && (Ok(s, times) ==> InOwnTxn(e, s.segments))
    ensures Keeps(s, s.Noted(e), times)
    ensures Ok(s.Noted(e), times) ==> Ok(s, times)
  {
    assert forall i :: 0 <= i < |s.log| ==> s.log[i] == s.Noted(e).log[i];
  }

  lemma WithMdKeeps(s: State, ch: Option<nat>, times: set<nat>)
    requires Guarded(s)
    ensures Keeps(s, s.WithMd(ch), times)
  {
  }

  lemma SegmentStartKeeps(s: State, starts: bool, a: Option<nat>, o: Owner, times: set<nat>)
    requires Guarded(s)
    ensures Keeps(s, s.SegmentStart(starts, a, o), times)
  {
  }

  /** The newest segment, if it was given out for the current transaction, may be stored. */
  predicate Storable(s: State, segment: Option<nat>) {
    segment.Some? ==> segment.value < |s.segments| && Some(s.segments[segment.value].txn) == s.txn
  }

  lemma SetSegmentKeeps(s: State, ch: Option<nat>, segment: Option<nat>, times: set<nat>)
    requires Guarded(s) && Storable(s, segment)
    ensures Keeps(s, s.SetSegment(ch, segment), times)
  {
  }

  lemma ExecPreKeeps(s: State, ch: Option<nat>, a: Option<nat>, starts: bool, times: set<nat>)
    requires Guarded(s)
    ensures Keeps(s, s.ExecPre(ch, a, starts), times)
  {
    SegmentStartKeeps(s, starts, a, HandleOf(ch), times);
    SetSegmentKeeps(s.SegmentStart(starts, a, HandleOf(ch)), ch, s.NewSegment(starts), times);
  }

  /** What gets past the guard is a segment of the current transaction. */
  predicate Passed(s: State, segment: Option<nat>, times: set<nat>) {
    Ok(s, times) && segment.Some? ==> segment.value < |s.segments| && s.txn == Some(s.segments[segment.value].txn)
  }

  lemma PassedGuard(s: State, ch: Option<nat>, times: set<nat>)
    ensures Passed(s, s.GetSegment(ch), times)
  {
  }

  lemma PassedMultiGuard(s: State, mh: Option<nat>, times: set<nat>)
    ensures Passed(s, s.GetMultiSegment(mh), times)
  {
  }

  lemma EndSegmentKeeps(s: State, segment: Option<nat>, timed: bool, times: set<nat>)
    requires Guarded(s) && Passed(s, segment, times)
    ensures Keeps(s, s.EndSegment(segment, timed), times)
  {
    if segment.Some? {
      var x := segment.value;
      if timed {
        NotedKeeps(s, Timed(x, s.txn), times);
        NotedKeeps(s.Noted(Timed(x, s.txn)), Ended(x, s.txn), times);
      } else {
        NotedKeeps(s, Ended(x, s.txn), times);
      }
    }
  }

  lemma ExecPostKeeps(s: State, ch: Option<nat>, timed: bool, times: set<nat>)
    requires Guarded(s)
    ensures Keeps(s, s.ExecPost(ch, timed), times)
  {
    var w := s.WithMd(ch);
    WithMdKeeps(s, ch, times);
    var n := if ch.Some? && ch.value != 0 then w.Noted(EndStep(ch.value)) else w;
    if ch.Some? {
      NotedKeeps(w, EndStep(ch.value), times);
    }
    PassedGuard(n, ch, times);
    EndSegmentKeeps(n, n.GetSegment(ch), timed, times);
  }

  // ------------------------------------------------------------------------
  // Multi handles.
  // ------------------------------------------------------------------------

  lemma WithMultiKeeps(s: State, mh: Option<nat>, times: set<nat>)
    requires Guarded(s)
    ensures Keeps(s, s.WithMulti(mh), times)
  {
  }

  lemma WithHandlesKeeps(s: State, mh: Option<nat>, hs: seq<nat>, times: set<nat>)
    requires Guarded(s)
    ensures Keeps(s, s.WithHandles(mh, hs), times)
  {
  }

  lemma SetInitializedKeeps(s: State, mh: Option<nat>, times: set<nat>)
    requires Guarded(s)
    ensures Keeps(s, s.SetInitialized(mh), times)
  {
  }

  lemma SetMultiSegmentKeeps(s: State, mh: Option<nat>, segment: Option<nat>, times: set<nat>)
    requires Guarded(s) && Storable(s, segment)
    ensures Keeps(s, s.SetMultiSegment(mh, segment), times)
  {
  }

  lemma {:induction false} PreAllKeeps(s: State, hs: seq<nat>, a: Option<nat>, starts: set<nat>, times: set<nat>)
    requires Guarded(s)
    ensures Keeps(s, s.PreAll(hs, a, starts), times)
  {
    if hs != [] {
      var last := hs[|hs| - 1];
      PreAllKeeps(s, hs[..|hs| - 1], a, starts, times);
      ExecPreKeeps(s.PreAll(hs[..|hs| - 1], a, starts), Some(last), a, last in starts, times);
    }
  }

  lemma {:induction false} DrainAllKeeps(s: State, m: nat, hs: seq<nat>, timed: bool, times: set<nat>)
    requires Guarded(s)
    ensures Keeps(s, s.DrainAll(m, hs, timed), times)
  {
    if hs != [] {
      var last := hs[|hs| - 1];
      DrainAllKeeps(s, m, hs[..|hs| - 1], timed, times);
      var t := s.DrainAll(m, hs[..|hs| - 1], timed);
      ExecPostKeeps(t, Some(last), timed, times);
      NotedKeeps(t.ExecPost(Some(last), timed), Drained(m, last), times);
    }
  }

  lemma AddKeeps(s: State, mh: Option<nat>, ch: Option<nat>, times: set<nat>)
    requires Guarded(s)
    ensures Keeps(s, s.Add(mh, ch), times)
  {
    if mh.Some? && ch.Some? {
      WithMdKeeps(s, ch, times);
      WithMultiKeeps(s.WithMd(ch), mh, times);
      var w := s.WithMd(ch).WithMulti(mh);
      var hs := w.Handles(mh) + [ch.value];
      WithHandlesKeeps(w, mh, hs, times);
      NotedKeeps(w.WithHandles(mh, hs), Added(mh.value, ch.value), times);
    }
  }

  lemma RemoveKeeps(s: State, mh: Option<nat>, ch: Option<nat>, times: set<nat>)
    requires Guarded(s)
    ensures Keeps(s, s.Remove(mh, ch), times)
  {
    if mh.Some? && ch.Some? {
      WithMdKeeps(s, ch, times);
      WithMultiKeeps(s.WithMd(ch), mh, times);
      var w := s.WithMd(ch).WithMulti(mh);
      var hs := Without(w.Handles(mh), ch.value);
      WithHandlesKeeps(w, mh, hs, times);
      NotedKeeps(w.WithHandles(mh, hs), Removed(mh.value, ch.value), times);
    }
  }

  lemma MultiPreKeeps(s: State, mh: Option<nat>, rootStarts: bool, starts: set<nat>, times: set<nat>)
    requires Guarded(s)
    ensures Keeps(s, s.MultiPre(mh, rootStarts, starts), times)
  {
    WithMultiKeeps(s, mh, times);
    var w := s.WithMulti(mh);
    var x := w.SegmentStart(rootStarts, w.AsyncIndex(mh), RootOf(mh));
    SegmentStartKeeps(w, rootStarts, w.AsyncIndex(mh), RootOf(mh), times);
    SetMultiSegmentKeeps(x, mh, w.NewSegment(rootStarts), times);
    var y := x.SetMultiSegment(mh, w.NewSegment(rootStarts));
    PreAllKeeps(y, w.Handles(mh), w.AsyncIndex(mh), starts, times);
    SetInitializedKeeps(y.PreAll(w.Handles(mh), w.AsyncIndex(mh), starts), mh, times);
  }

  lemma RetimeRootKeeps(s: State, mh: Option<nat>, times: set<nat>)
    requires Guarded(s)
    ensures Keeps(s, s.RetimeRoot(mh), times)
  {
    var root := s.GetMultiSegment(mh);
    if root.Some? {
      PassedMultiGuard(s, mh, times);
      NotedKeeps(s, Timed(root.value, s.txn), times);
    }
  }

  lemma MultiPostKeeps(s: State, mh: Option<nat>, finished: set<nat>, times: set<nat>)
    requires Guarded(s)
    ensures Keeps(s, s.MultiPost(mh, finished), times)
  {
    WithMultiKeeps(s, mh, times);
    var w := s.WithMulti(mh);
    if w.Multi(mh).Some? {
      var hs := w.Handles(mh);
      DrainAllKeeps(w, mh.value, Those(hs, finished), true, times);
      var d := w.DrainAll(mh.value, Those(hs, finished), true);
      WithHandlesKeeps(d, mh, Others(hs, finished), times);
      RetimeRootKeeps(d.WithHandles(mh, Others(hs, finished)), mh, times);
    }
  }

  lemma FinalizeKeeps(s: State, mh: Option<nat>, times: set<nat>)
    requires Guarded(s)
    ensures Keeps(s, s.Finalize(mh), times)
  {
    WithMultiKeeps(s, mh, times);
    var w := s.WithMulti(mh);
    if w.Multi(mh).Some? {
      DrainAllKeeps(w, mh.value, w.Handles(mh), false, times);
      var d := w.DrainAll(mh.value, w.Handles(mh), false);
      WithHandlesKeeps(d, mh, [], times);
      var t := d.WithHandles(mh, []);
      PassedMultiGuard(t, mh, times);
      EndSegmentKeeps(t, t.GetMultiSegment(mh), false, times);
    }
  }

  // ------------------------------------------------------------------------
  // Runs.
  // ------------------------------------------------------------------------

  /** The start times of the transactions begun in a run. */
  function Times(ops: seq<Op>): set<nat> {
    if ops == [] then {}
    else Times(ops[..|ops| - 1]) + match ops[|ops| - 1] case BeginTxn(start, _) => {start} case _ => {}
  }

  /** A transaction that begins with metadata left over starts at a time of its own. */
  predicate ToldApart(op: Op, times: set<nat>) {
    op.BeginTxn? ==> op.start != 0 && (op.kept ==> op.start !in times)
  }

  predicate AllToldApart(ops: seq<Op>) {
    forall i :: 0 <= i < |ops| ==> ToldApart(ops[i], Times(ops[..i]))
  }

  lemma BeginKeeps(s: State, serial: nat, start: nat, kept: bool, times: set<nat>)
    requires Guarded(s)
    ensures var t := Step(s, serial, BeginTxn(start, kept));
            Guarded(t) && (Ok(s, times) && ToldApart(BeginTxn(start, kept), times) ==> Ok(t, times + {start}))
  {
  }

  lemma EndKeeps(s: State, kept: bool, times: set<nat>)
    requires Guarded(s)
    ensures Keeps(s, Cleared(s.(txn := None), kept), times)
  {
  }

  lemma AddHandleKeeps(s: State, mh: Option<nat>, ch: Option<nat>, starts: bool, times: set<nat>)
    requires Guarded(s)
    ensures Keeps(s, Step(s, 0, AddHandle(mh, ch, starts)), times)
  {
    AddKeeps(s, mh, ch, times);
    var t := s.Add(mh, ch);
    ExecPreKeeps(t, ch, t.AsyncIndex(mh), starts, times);
  }

  lemma RemoveHandleKeeps(s: State, mh: Option<nat>, ch: Option<nat>, times: set<nat>)
    requires Guarded(s)
    ensures Keeps(s, Step(s, 0, RemoveHandle(mh, ch)), times)
  {
    RemoveKeeps(s, mh, ch, times);
    var t := s.Remove(mh, ch);
    PassedGuard(t, ch, times);
    if t.GetSegment(ch).Some? {
      NotedKeeps(t, Discarded(t.GetSegment(ch).value, t.txn), times);
    }
  }

  lemma MultiExecKeeps(s: State, mh: Option<nat>, rootStarts: bool, started: set<nat>, finished: set<nat>, running: bool,
                       times: set<nat>)
    requires Guarded(s)
    ensures Keeps(s, Step(s, 0, MultiExec(mh, rootStarts, started, finished, running)), times)
  {
    MultiPreKeeps(s, mh, rootStarts, started, times);
    var p := s.MultiPre(mh, rootStarts, started);
    MultiPostKeeps(p, mh, finished, times);
    FinalizeKeeps(p.MultiPost(mh, finished), mh, times);
  }

  lemma StepKeeps(s: State, serial: nat, op: Op, times: set<nat>)
    requires Guarded(s)
    ensures var t := Step(s, serial, op);
            && Guarded(t)
            && (Ok(s, times) && ToldApart(op, times) ==>
                  Ok(t, times + match op case BeginTxn(start, _) => {start} case _ => {}))
  {
    if op.BeginTxn? {
      BeginKeeps(s, serial, op.start, op.kept, times);
    } else {
      assert times + {} == times;
      match op
      case Exec(ch, starts) =>
        ExecPreKeeps(s, ch, None, starts, times);
        ExecPostKeeps(s.ExecPre(ch, None, starts), ch, false, times);
      case AddHandle(mh, ch, starts) => AddHandleKeeps(s, mh, ch, starts, times);
      case RemoveHandle(mh, ch) => RemoveHandleKeeps(s, mh, ch, times);
      case MultiExec(mh, rootStarts, started, finished, running) =>
        MultiExecKeeps(s, mh, rootStarts, started, finished, running, times);
      case EndTxn(kept) => EndKeeps(s, kept, times);
      case Shutdown => EndKeeps(s, true, times);
    }
  }

  /** In every run, the time stored with a segment is when its own transaction started. */
  lemma {:induction false} AlwaysGuarded(ops: seq<Op>)
    ensures Guarded(Run(ops))
  {
    if ops != [] {
      AlwaysGuarded(ops[..|ops| - 1]);
      StepKeeps(Run(ops[..|ops| - 1]), |ops|, ops[|ops| - 1], {});
    }
  }

  lemma {:induction false} RunOk(ops: seq<Op>)
    requires AllToldApart(ops)
    ensures Ok(Run(ops), Times(ops))
  {
    if ops != [] {
      var init, last := ops[..|ops| - 1], ops[|ops| - 1];
      assert AllToldApart(init) by {
        forall i | 0 <= i < |init|
          ensures ToldApart(init[i], Times(init[..i]))
        {
          assert init[..i] == ops[..i];
        }
      }
      RunOk(init);
      StepKeeps(Run(init), |ops|, last, Times(init));
    }
  }

  /** No run whose transactions are told apart ever times, ends or discards a segment of a
      transaction other than the current one, nor would a look-up return one. */
  lemma StaleSegmentsUntouched(ops: seq<Op>, ch: Option<nat>, mh: Option<nat>)
    requires AllToldApart(ops)
    ensures Safe(Run(ops))
    ensures var s := Run(ops);
            && (s.GetSegment(ch).Some? ==>
                  s.GetSegment(ch).value < |s.segments| && s.txn == Some(s.segments[s.GetSegment(ch).value].txn))
            && (s.GetMultiSegment(mh).Some? ==>
                  s.GetMultiSegment(mh).value < |s.segments|
                  && s.txn == Some(s.segments[s.GetMultiSegment(mh).value].txn))
  {
    RunOk(ops);
    PassedGuard(Run(ops), ch, Times(ops));
    PassedMultiGuard(Run(ops), mh, Times(ops));
  }

  lemma OneMore(ops: seq<Op>, op: Op)
    ensures Run(ops + [op]) == Step(Run(ops), |ops| + 1, op)
  {
    var more := ops + [op];
    assert more[..|more| - 1] == ops && more[|more| - 1] == op;
  }

  lemma OneMoreTime(ops: seq<Op>, op: Op)
    ensures Times(ops + [op]) == Times(ops) + match op case BeginTxn(start, _) => {start} case _ => {}
  {
    var more := ops + [op];
    assert more[..|more| - 1] == ops && more[|more| - 1] == op;
  }

  /** What the agent does: both tables are cleared with every transaction. Then no two transactions
      need start at different times. */
  lemma ClearedTablesSuffice(ops: seq<Op>, ch: Option<nat>, mh: Option<nat>)
    requires forall i :: 0 <= i < |ops| && ops[i].BeginTxn? ==> !ops[i].kept && ops[i].start != 0
    ensures AllToldApart(ops) && Safe(Run(ops))
    ensures var s := Run(ops);
            s.GetSegment(ch).Some? ==>
              s.GetSegment(ch).value < |s.segments| && s.txn == Some(s.segments[s.GetSegment(ch).value].txn)
    ensures var s := Run(ops);
            s.GetMultiSegment(mh).Some? ==>
              s.GetMultiSegment(mh).value < |s.segments| && s.txn == Some(s.segments[s.GetMultiSegment(mh).value].txn)
  {
    StaleSegmentsUntouched(ops, ch, mh);
  }

  /** Why they have to be cleared, or the start times to differ. This run is one the agent does not
      have: were the tables kept, and did the next transaction start at the same time, a left-over
      segment would be ended again. */
  lemma SameStartMixesTxns(start: nat)
    requires start != 0
    ensures var before := [BeginTxn(start, false)] + [Exec(Some(1), true)] + [EndTxn(true)];
            && !ToldApart(BeginTxn(start, true), Times(before))
            && !Safe(Run(before + [BeginTxn(start, true)] + [Exec(Some(1), false)]))
  {
    var a := [BeginTxn(start, false)];
    var b := a + [Exec(Some(1), true)];
    var c := b + [EndTxn(true)];
    var d := c + [BeginTxn(start, true)];
    OneMore([], BeginTxn(start, false));
    OneMoreTime([], BeginTxn(start, false));
    assert [] + a == a;
    OneMore(a, Exec(Some(1), true));
    OneMoreTime(a, Exec(Some(1), true));
    OneMore(b, EndTxn(true));
    OneMoreTime(b, EndTxn(true));
    OneMore(c, BeginTxn(start, true));
    OneMore(d, Exec(Some(1), false));
    assert Run(a) == State(Some(Txn(1, start)), map[], map[], [], [MultisDestroyed]);
    assert Run(b).segments == [Segment(Txn(1, start), None, Handle(1), 1)] && Run(b).curl[1] == CurlMd(Some(0), start);
    var five := Run(d + [Exec(Some(1), false)]);
    assert five.log[|five.log| - 1] == Ended(0, Some(Txn(4, start)));
  }
}
