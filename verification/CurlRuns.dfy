/** What the lists and names of multi handles are like after any run of curl operations. */
module CurlRuns {
  import opened Options
  import opened CurlState
  import opened CurlLists

  // ------------------------------------------------------------------------
  // One call.
  // ------------------------------------------------------------------------

  /** After a call of curl_multi_exec: exactly the finished handles have had their end steps run,
      once and in order, and exactly the others are still listed, in order. */
  lemma MultiPostExact(s: State, mh: Option<nat>, finished: set<nat>)
    requires Books(s) && mh.Some? && mh.value != 0
    ensures var t := s.MultiPost(mh, finished);
            && t.Handles(mh) == Others(s.Handles(mh), finished)
            && EndSteps(t.log) == EndSteps(s.log) + Those(s.Handles(mh), finished)
            && DrainedFrom(t.log, mh.value) == DrainedFrom(s.log, mh.value) + Those(s.Handles(mh), finished)
  {
    WithMultiBooks(s, mh);
    var w := s.WithMulti(mh);
    var m, hs := mh.value, w.Handles(mh);
    assert hs == s.Handles(mh) && 0 !in hs;
    SplitHandles(hs, finished);
    DrainAllLog(w, m, Those(hs, finished), true);
    var t := w.DrainAll(m, Those(hs, finished), true).WithHandles(mh, Others(hs, finished));
    RetimeRootLog(t, mh);
    EndingsAside(t.log, t.RetimeRoot(mh).log, m);
  }

  lemma MultiPostBlocks(s: State, mh: Option<nat>, finished: set<nat>)
    requires Books(s) && Blocks(s.log)
    ensures Blocks(s.MultiPost(mh, finished).log)
  {
    WithMultiBooks(s, mh);
    var w := s.WithMulti(mh);
    if w.Multi(mh).Some? {
      var m, hs := mh.value, w.Handles(mh);
      SplitHandles(hs, finished);
      DrainAllLog(w, m, Those(hs, finished), true);
      var t := w.DrainAll(m, Those(hs, finished), true).WithHandles(mh, Others(hs, finished));
      RetimeRootLog(t, mh);
      NoDrainsBlocks(t.log, t.RetimeRoot(mh).log);
    }
  }

  /** When nothing is running any more, the rest of the list is worked off in the same way. */
  lemma FinalizeExact(s: State, mh: Option<nat>)
    requires Books(s) && mh.Some? && mh.value != 0
    ensures var t := s.Finalize(mh);
            && t.Handles(mh) == []
            && EndSteps(t.log) == EndSteps(s.log) + s.Handles(mh)
            && DrainedFrom(t.log, mh.value) == DrainedFrom(s.log, mh.value) + s.Handles(mh)
  {
    WithMultiBooks(s, mh);
    var w := s.WithMulti(mh);
    assert w.Handles(mh) == s.Handles(mh) && 0 !in w.Handles(mh);
    DrainAllLog(w, mh.value, w.Handles(mh), false);
    var t := w.DrainAll(mh.value, w.Handles(mh), false).WithHandles(mh, []);
    EndSegmentLog(t, t.GetMultiSegment(mh), false);
    EndingsAside(t.log, t.EndSegment(t.GetMultiSegment(mh), false).log, mh.value);
  }

  lemma FinalizeBlocks(s: State, mh: Option<nat>)
    requires Books(s) && Blocks(s.log)
    ensures Blocks(s.Finalize(mh).log)
  {
    WithMultiBooks(s, mh);
    var w := s.WithMulti(mh);
    if w.Multi(mh).Some? {
      DrainAllLog(w, mh.value, w.Handles(mh), false);
      var t := w.DrainAll(mh.value, w.Handles(mh), false).WithHandles(mh, []);
      EndSegmentLog(t, t.GetMultiSegment(mh), false);
      NoDrainsBlocks(t.log, t.EndSegment(t.GetMultiSegment(mh), false).log);
    }
  }

  // ------------------------------------------------------------------------
  // Names.
  // ------------------------------------------------------------------------

  function Decimal(n: nat): (r: string)
    ensures |r| > 0
  {
    (if n < 10 then "" else Decimal(n / 10)) + [('0' as int + n % 10) as char]
  }

  /** The name of the async context of a multi handle, formatted from its number. */
  function AsyncContext(s: State, mh: Option<nat>): Option<string> {
    var index := s.AsyncIndex(mh);
    if index.Some? then Some("curl_multi_exec #" + Decimal(index.value)) else None
  }

  lemma {:induction false} SameDecimal(m: nat, n: nat)
    requires Decimal(m) == Decimal(n)
    ensures m == n
    decreases m
  {
    var r := Decimal(m);
    assert r[|r| - 1] == ('0' as int + m % 10) as char == ('0' as int + n % 10) as char;
    assert m % 10 == n % 10;
    if m >= 10 {
      assert r[..|r| - 1] == Decimal(m / 10);
      assert n >= 10;
      assert r[..|r| - 1] == Decimal(n / 10);
      SameDecimal(m / 10, n / 10);
    }
  }

  /** The number that digits stand for. */
  function Number(digits: string): int {
    if digits == "" then 0 else 10 * Number(digits[..|digits| - 1]) + (digits[|digits| - 1] as int - '0' as int)
  }

  lemma {:induction false} DecimalReads(n: nat)
    ensures Number(Decimal(n)) == n
  {
    if n >= 10 {
      DecimalReads(n / 10);
      DigitBehind(Decimal(n / 10), n % 10);
    } else {
      DigitBehind("", n);
    }
  }

  lemma DigitBehind(init: string, d: nat)
    requires d < 10
    ensures Number(init + [('0' as int + d) as char]) == 10 * Number(init) + d
  {
    var c := ('0' as int + d) as char;
    assert (init + [c])[..|init|] == init;
  }

  /** What an async context is called. */
  lemma NameText(s: State, m: nat)
    requires m != 0 && m in s.multis
    ensures var name := AsyncContext(s, Some(m));
            && name.Some? && |name.value| > 17 && name.value[..17] == "curl_multi_exec #"
            && Number(name.value[17..]) == s.multis[m].index
  {
    var prefix, digits := "curl_multi_exec #", Decimal(s.multis[m].index);
    DecimalReads(s.multis[m].index);
    assert (prefix + digits)[..17] == prefix && (prefix + digits)[17..] == digits;
  }

  lemma SameName(m: nat, n: nat)
    requires "curl_multi_exec #" + Decimal(m) == "curl_multi_exec #" + Decimal(n)
    ensures m == n
  {
    var prefix := "curl_multi_exec #";
    assert (prefix + Decimal(m))[|prefix|..] == Decimal(m) && (prefix + Decimal(n))[|prefix|..] == Decimal(n);
    SameDecimal(m, n);
  }

  /** A multi handle known before is still known, under the same number. */
  predicate NamesKept(s: State, t: State) {
    forall m :: m in s.multis ==> m in t.multis && t.multis[m].index == s.multis[m].index
  }

  lemma AddNames(s: State, mh: Option<nat>, ch: Option<nat>)
    ensures NamesKept(s, s.Add(mh, ch)) && NoDrains(s.log, s.Add(mh, ch).log)
  {
  }

  lemma RemoveNames(s: State, mh: Option<nat>, ch: Option<nat>)
    ensures NamesKept(s, s.Remove(mh, ch)) && NoDrains(s.log, s.Remove(mh, ch).log)
  {
  }

  lemma MultiPreNames(s: State, mh: Option<nat>, rootStarts: bool, starts: set<nat>)
    ensures NamesKept(s, s.MultiPre(mh, rootStarts, starts))
  {
    var w := s.WithMulti(mh);
    var y := w.SegmentStart(rootStarts, w.AsyncIndex(mh), RootOf(mh)).SetMultiSegment(mh, w.NewSegment(rootStarts));
    PreAllLog(y, w.Handles(mh), w.AsyncIndex(mh), starts);
  }

  lemma MultiPostNames(s: State, mh: Option<nat>, finished: set<nat>)
    requires Books(s)
    ensures NamesKept(s, s.MultiPost(mh, finished))
  {
    WithMultiBooks(s, mh);
    var w := s.WithMulti(mh);
    if w.Multi(mh).Some? {
      SplitHandles(w.Handles(mh), finished);
      DrainAllLog(w, mh.value, Those(w.Handles(mh), finished), true);
      var d := w.DrainAll(mh.value, Those(w.Handles(mh), finished), true);
      RetimeRootLog(d.WithHandles(mh, Others(w.Handles(mh), finished)), mh);
    }
  }

  lemma FinalizeNames(s: State, mh: Option<nat>)
    requires Books(s)
    ensures NamesKept(s, s.Finalize(mh))
  {
    WithMultiBooks(s, mh);
    var w := s.WithMulti(mh);
    if w.Multi(mh).Some? {
      DrainAllLog(w, mh.value, w.Handles(mh), false);
      var t := w.DrainAll(mh.value, w.Handles(mh), false).WithHandles(mh, []);
      EndSegmentLog(t, t.GetMultiSegment(mh), false);
    }
  }

  // ------------------------------------------------------------------------
  // Runs.
  // ------------------------------------------------------------------------

  predicate Destroys(s: State, op: Op) {
    match op
    case BeginTxn(_, kept) => s.txn.None? && !kept
    case EndTxn(kept) => !kept
    case Shutdown => s.txn.Some?
    case _ => false
  }

  ghost predicate Kept(s: State, t: State) {
    && Books(t)
    && (Blocks(s.log) ==> Blocks(t.log))
    && NamesKept(s, t)
  }

  lemma DestroyKeeps(s: State)
    requires Books(s)
    ensures Books(DestroyMultis(s)) && (Blocks(s.log) ==> Blocks(DestroyMultis(s).log))
  {
    var t := DestroyMultis(s);
    assert t.log[..|s.log|] == s.log;
    if Blocks(s.log) {
      NoDrainsBlocks(s.log, t.log);
    }
  }

  /** Steps that leave the multi metadata alone and drain nothing. */
  lemma QuietKeeps(s: State, t: State)
    requires Books(s) && t.multis == s.multis && Neutral(s.log, t.log) && NoDrains(s.log, t.log)
    ensures Kept(s, t)
  {
    NeutralBooks(s, t);
    if Blocks(s.log) {
      NoDrainsBlocks(s.log, t.log);
    }
  }

  lemma KeptTwice(s: State, t: State, u: State)
    requires Kept(s, t) && Kept(t, u)
    ensures Kept(s, u)
  {
  }

  lemma AddKept(s: State, mh: Option<nat>, ch: Option<nat>)
    requires Books(s)
    ensures Kept(s, s.Add(mh, ch))
  {
    AddBooks(s, mh, ch);
    AddNames(s, mh, ch);
    if Blocks(s.log) {
      NoDrainsBlocks(s.log, s.Add(mh, ch).log);
    }
  }

  lemma RemoveKept(s: State, mh: Option<nat>, ch: Option<nat>)
    requires Books(s)
    ensures Kept(s, s.Remove(mh, ch))
  {
    RemoveBooks(s, mh, ch);
    RemoveNames(s, mh, ch);
    if Blocks(s.log) {
      NoDrainsBlocks(s.log, s.Remove(mh, ch).log);
    }
  }

  lemma ExecPreKept(s: State, ch: Option<nat>, a: Option<nat>, starts: bool)
    requires Books(s)
    ensures Kept(s, s.ExecPre(ch, a, starts))
  {
    ExecPreLog(s, ch, a, starts);
    QuietKeeps(s, s.ExecPre(ch, a, starts));
  }

  lemma DiscardKept(s: State, segment: Option<nat>)
    requires Books(s)
    ensures Kept(s, Discard(s, segment))
  {
    QuietKeeps(s, Discard(s, segment));
  }

  lemma ExecKeeps(s: State, ch: Option<nat>, starts: bool)
    requires Books(s)
    ensures Kept(s, Step(s, 0, Exec(ch, starts)))
  {
    var t := s.ExecPre(ch, None, starts);
    ExecPreKept(s, ch, None, starts);
    ExecPostLog(t, ch, false);
    QuietKeeps(t, t.ExecPost(ch, false));
    KeptTwice(s, t, t.ExecPost(ch, false));
  }

  lemma AddHandleKeeps(s: State, mh: Option<nat>, ch: Option<nat>, starts: bool)
    requires Books(s)
    ensures Kept(s, Step(s, 0, AddHandle(mh, ch, starts)))
  {
    var t := s.Add(mh, ch);
    AddKept(s, mh, ch);
    ExecPreKept(t, ch, t.AsyncIndex(mh), starts);
    KeptTwice(s, t, t.ExecPre(ch, t.AsyncIndex(mh), starts));
  }

  lemma RemoveHandleKeeps(s: State, mh: Option<nat>, ch: Option<nat>)
    requires Books(s)
    ensures Kept(s, Step(s, 0, RemoveHandle(mh, ch)))
  {
    var t := s.Remove(mh, ch);
    RemoveKept(s, mh, ch);
    DiscardKept(t, t.GetSegment(ch));
    KeptTwice(s, t, Discard(t, t.GetSegment(ch)));
  }

  lemma MultiPreKept(s: State, mh: Option<nat>, rootStarts: bool, starts: set<nat>)
    requires Books(s)
    ensures Kept(s, s.MultiPre(mh, rootStarts, starts))
  {
    MultiPreBooks(s, mh, rootStarts, starts);
    MultiPreNames(s, mh, rootStarts, starts);
  }

  lemma MultiPostKept(s: State, mh: Option<nat>, finished: set<nat>)
    requires Books(s)
    ensures Kept(s, s.MultiPost(mh, finished))
  {
    MultiPostBooks(s, mh, finished);
    MultiPostNames(s, mh, finished);
    if Blocks(s.log) {
      MultiPostBlocks(s, mh, finished);
    }
  }

  lemma FinalizeKept(s: State, mh: Option<nat>)
    requires Books(s)
    ensures Kept(s, s.Finalize(mh))
  {
    FinalizeBooks(s, mh);
    FinalizeNames(s, mh);
    if Blocks(s.log) {
      FinalizeBlocks(s, mh);
    }
  }

  lemma PreAndPostKept(s: State, mh: Option<nat>, rootStarts: bool, started: set<nat>, finished: set<nat>)
    requires Books(s)
    ensures Kept(s, s.MultiPre(mh, rootStarts, started).MultiPost(mh, finished))
  {
    var p := s.MultiPre(mh, rootStarts, started);
    MultiPreKept(s, mh, rootStarts, started);
    MultiPostKept(p, mh, finished);
    KeptTwice(s, p, p.MultiPost(mh, finished));
  }

  lemma FinallyKept(s: State, q: State, mh: Option<nat>)
    requires Kept(s, q)
    ensures Kept(s, q.Finalize(mh))
  {
    FinalizeKept(q, mh);
    KeptTwice(s, q, q.Finalize(mh));
  }

  lemma MultiExecKeeps(s: State, mh: Option<nat>, rootStarts: bool, started: set<nat>, finished: set<nat>, running: bool)
    requires Books(s)
    ensures Kept(s, Step(s, 0, MultiExec(mh, rootStarts, started, finished, running)))
  {
    PreAndPostKept(s, mh, rootStarts, started, finished);
    FinallyKept(s, s.MultiPre(mh, rootStarts, started).MultiPost(mh, finished), mh);
  }

  lemma DestroyedKeeps(s: State, serial: nat, op: Op)
    requires Books(s) && Destroys(s, op)
    ensures var t := Step(s, serial, op); Books(t) && (Blocks(s.log) ==> Blocks(t.log)) && t.multis == map[]
  {
    match op
    case BeginTxn(start, kept) => DestroyKeeps(s.(curl := map[]));
    case EndTxn(kept) => DestroyKeeps(s.(txn := None, curl := map[]));
    case Shutdown => DestroyKeeps(s);
  }

  /** Transactions that come and go and leave the tables alone. */
  lemma TxnKeeps(s: State, serial: nat, op: Op)
    requires Books(s) && (op.BeginTxn? || op.EndTxn? || op.Shutdown?) && !Destroys(s, op)
    ensures Kept(s, Step(s, serial, op))
  {
    QuietKeeps(s, Step(s, serial, op));
  }

  lemma StepKeeps(s: State, serial: nat, op: Op)
    requires Books(s)
    ensures var t := Step(s, serial, op);
            && Books(t)
            && (Blocks(s.log) ==> Blocks(t.log))
            && (if Destroys(s, op) then t.multis == map[] else NamesKept(s, t))
  {
    if Destroys(s, op) {
      DestroyedKeeps(s, serial, op);
      return;
    }
    match op
    case Exec(ch, starts) => ExecKeeps(s, ch, starts);
    case AddHandle(mh, ch, starts) => AddHandleKeeps(s, mh, ch, starts);
    case RemoveHandle(mh, ch) => RemoveHandleKeeps(s, mh, ch);
    case MultiExec(mh, rootStarts, started, finished, running) =>
      MultiExecKeeps(s, mh, rootStarts, started, finished, running);
    case _ => TxnKeeps(s, serial, op);
  }

  /** After any run: successful adds are handles still listed plus handles drained plus handles
      removed; no handle is listed twice; each drained handle had its own end step right before;
      multi handles are numbered from 1 on without gap or repeat. */
  lemma {:induction false} RunBooks(ops: seq<Op>)
    ensures Books(Run(ops)) && Blocks(Run(ops).log)
  {
    if ops != [] {
      RunBooks(ops[..|ops| - 1]);
      StepKeeps(Run(ops[..|ops| - 1]), |ops|, ops[|ops| - 1]);
    }
  }

  /** Multi handles never share a name, and one handle keeps its name until all are forgotten. */
  lemma Names(ops: seq<Op>, op: Op, m: nat, n: nat)
    requires m in Run(ops).multis && n in Run(ops).multis && m != 0 && n != 0
    ensures var s := Run(ops);
            && (AsyncContext(s, Some(m)) == AsyncContext(s, Some(n)) <==> m == n)
            && (!Destroys(s, op) ==> AsyncContext(Run(ops + [op]), Some(m)) == AsyncContext(s, Some(m)))
  {
    RunBooks(ops);
    var s := Run(ops);
    if AsyncContext(s, Some(m)) == AsyncContext(s, Some(n)) {
      SameName(s.multis[m].index, s.multis[n].index);
    }
    assert (ops + [op])[..|ops|] == ops;
    StepKeeps(s, |ops| + 1, op);
  }
}
