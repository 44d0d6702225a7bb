/** The lists of multi handles, over whole runs: agent/php_curl_md.c:69-143, 354-433 and
    agent/php_curl.c:757-824. */
module CurlLists {
  import opened Options
  import opened CurlState

  predicate Distinct(hs: seq<nat>) {
    forall i, j :: 0 <= i < j < |hs| ==> hs[i] != hs[j]
  }

  predicate HasIndex(multis: map<nat, MultiMd>, i: nat) {
    exists m :: m in multis && multis[m].index == i
  }

  /** Listed handles are real and listed once; multi handles are numbered from 1 on, without gap
      or repeat. */
  predicate ListsOk(multis: map<nat, MultiMd>) {
    && (forall m :: m in multis ==> Distinct(multis[m].handles) && 0 !in multis[m].handles)
    && (forall m :: m in multis ==> 1 <= multis[m].index <= |multis|)
    && (forall m, n :: m in multis && n in multis && multis[m].index == multis[n].index ==> m == n)
    && (forall i {:trigger HasIndex(multis, i)} :: 1 <= i <= |multis| ==> HasIndex(multis, i))
  }

  /** How often h was added to m, less how often it was drained or removed, in the log since the
      multi metadata was last destroyed. */
  function Net(log: seq<Event>, m: nat, h: nat): int {
    if log == [] then 0
    else
      var before := Net(log[..|log| - 1], m, h);
      match log[|log| - 1]
      case Added(n, k) => if n == m && k == h then before + 1 else before
      case Removed(n, k) => if n == m && k == h then before - 1 else before
      case Drained(n, k) => if n == m && k == h then before - 1 else before
      case MultisDestroyed => 0
      case _ => before
  }

  /** The same, for all handles together. */
  function NetTotal(log: seq<Event>, m: nat): int {
    if log == [] then 0
    else
      var before := NetTotal(log[..|log| - 1], m);
      match log[|log| - 1]
      case Added(n, k) => if n == m then before + 1 else before
      case Removed(n, k) => if n == m then before - 1 else before
      case Drained(n, k) => if n == m then before - 1 else before
      case MultisDestroyed => 0
      case _ => before
  }

  function ListOf(multis: map<nat, MultiMd>, m: nat): seq<nat> {
    if m in multis then multis[m].handles else []
  }

  function Listed(multis: map<nat, MultiMd>, m: nat, h: nat): int {
    if h in ListOf(multis, m) then 1 else 0
  }

  /** Successful adds are handles still listed, handles drained and handles removed. */
  ghost predicate Conserved(log: seq<Event>, multis: map<nat, MultiMd>) {
    && (forall m, h {:trigger Net(log, m, h)} :: Net(log, m, h) == Listed(multis, m, h))
    && (forall m {:trigger NetTotal(log, m)} :: NetTotal(log, m) == |ListOf(multis, m)|)
  }

  ghost predicate Books(s: State) {
    ListsOk(s.multis) && Conserved(s.log, s.multis)
  }

  // ------------------------------------------------------------------------
  // What appears in the log.
  // ------------------------------------------------------------------------

  predicate IsNeutral(e: Event) {
    e.Timed? || e.Ended? || e.Discarded? || e.EndStep?
  }

  /** Nothing that was appended concerns a list. */
  predicate Neutral(before: seq<Event>, after: seq<Event>) {
    before <= after && forall i :: |before| <= i < |after| ==> IsNeutral(after[i])
  }

  ghost predicate SameNet(before: seq<Event>, after: seq<Event>) {
    && (forall m, h {:trigger Net(after, m, h)} :: Net(after, m, h) == Net(before, m, h))
    && (forall m {:trigger NetTotal(after, m)} :: NetTotal(after, m) == NetTotal(before, m))
  }

  lemma {:induction false} NeutralNet(before: seq<Event>, after: seq<Event>)
    requires Neutral(before, after)
    ensures SameNet(before, after)
    decreases |after|
  {
    if |before| < |after| {
      var init := after[..|after| - 1];
      assert IsNeutral(after[|after| - 1]);
      NeutralNet(before, init);
      assert forall m, h {:trigger Net(after, m, h)} :: Net(after, m, h) == Net(init, m, h);
      assert forall m {:trigger NetTotal(after, m)} :: NetTotal(after, m) == NetTotal(init, m);
    } else {
      assert before == after;
    }
  }

  lemma NeutralBooks(s: State, t: State)
    requires Books(s) && t.multis == s.multis && Neutral(s.log, t.log)
    ensures Books(t)
  {
    NeutralNet(s.log, t.log);
  }

  /** The handles whose end steps a log shows, in order; and those taken off the list of m. */
  function EndSteps(log: seq<Event>): seq<nat> {
    if log == [] then []
    else EndSteps(log[..|log| - 1]) + if log[|log| - 1].EndStep? then [log[|log| - 1].handle] else []
  }

  function DrainedFrom(log: seq<Event>, m: nat): seq<nat> {
    if log == [] then []
    else
      var last := log[|log| - 1];
      DrainedFrom(log[..|log| - 1], m) + if last.Drained? && last.multi == m then [last.handle] else []
  }

  /** The end step of a handle, whatever came of it, and then its being drained. */
  predicate DrainBlock(log: seq<Event>, j: int, i: int)
    requires 0 <= i < |log| && log[i].Drained?
  {
    && 0 <= j < i && log[j] == EndStep(log[i].handle)
    && forall k :: j < k < i ==> IsEnding(log[k])
  }

  ghost predicate Blocks(log: seq<Event>) {
    forall i :: 0 <= i < |log| && log[i].Drained? ==> exists j :: DrainBlock(log, j, i)
  }

  /** Appending anything but a Drained event. */
  predicate NoDrains(before: seq<Event>, after: seq<Event>) {
    before <= after && forall i :: |before| <= i < |after| ==> !after[i].Drained?
  }

  lemma NoDrainsBlocks(before: seq<Event>, after: seq<Event>)
    requires Blocks(before) && NoDrains(before, after)
    ensures Blocks(after)
  {
    forall i | 0 <= i < |after| && after[i].Drained?
      ensures exists j :: DrainBlock(after, j, i)
    {
      assert before[i] == after[i];
      var j :| DrainBlock(before, j, i);
      assert DrainBlock(after, j, i);
    }
  }

  predicate IsEnding(e: Event) {
    e.Timed? || e.Ended?
  }

  /** All that was appended from a place on is about ending segments. */
  predicate OnlyEndings(before: seq<Event>, after: seq<Event>) {
    before <= after && forall i :: |before| <= i < |after| ==> IsEnding(after[i])
  }

  lemma {:induction false} EndingsAside(before: seq<Event>, after: seq<Event>, m: nat)
    requires OnlyEndings(before, after)
    ensures EndSteps(after) == EndSteps(before) && DrainedFrom(after, m) == DrainedFrom(before, m)
    decreases |after|
  {
    if |before| < |after| {
      assert IsEnding(after[|after| - 1]);
      EndingsAside(before, after[..|after| - 1], m);
    } else {
      assert before == after;
    }
  }

  lemma EndSegmentLog(s: State, segment: Option<nat>, timed: bool)
    ensures var t := s.EndSegment(segment, timed);
            t == s.(log := t.log) && OnlyEndings(s.log, t.log) && Neutral(s.log, t.log)
  {
  }

  predicate Real(ch: Option<nat>) {
    ch.Some? && ch.value != 0
  }

  /** A request that is over leaves its end step in the log, and then what came of it. */
  lemma ExecPostLog(s: State, ch: Option<nat>, timed: bool)
    ensures var t := s.ExecPost(ch, timed);
            && t.multis == s.multis && Neutral(s.log, t.log)
            && OnlyEndings(s.log + if Real(ch) then [EndStep(ch.value)] else [], t.log)
  {
    var w := s.WithMd(ch);
    var n := if Real(ch) then w.Noted(EndStep(ch.value)) else w;
    EndSegmentLog(n, w.GetSegment(ch), timed);
    assert s.log + [] == s.log;
  }

  lemma ExecPreLog(s: State, ch: Option<nat>, a: Option<nat>, starts: bool)
    ensures var t := s.ExecPre(ch, a, starts); t.multis == s.multis && t.log == s.log
  {
  }

  lemma {:induction false} PreAllLog(s: State, hs: seq<nat>, a: Option<nat>, starts: set<nat>)
    ensures var t := s.PreAll(hs, a, starts); t.multis == s.multis && t.log == s.log
  {
    if hs != [] {
      var last := hs[|hs| - 1];
      PreAllLog(s, hs[..|hs| - 1], a, starts);
      ExecPreLog(s.PreAll(hs[..|hs| - 1], a, starts), Some(last), a, last in starts);
    }
  }

  // ------------------------------------------------------------------------
  // Draining lists.
  // ------------------------------------------------------------------------

  /** What taking hs off the list of m does to the balance. */
  ghost predicate LessNet(before: seq<Event>, after: seq<Event>, m: nat, hs: seq<nat>) {
    && (forall n, h {:trigger Net(after, n, h)} ::
          Net(after, n, h) == Net(before, n, h) - if n == m && h in hs then 1 else 0)
    && (forall n {:trigger NetTotal(after, n)} ::
          NetTotal(after, n) == NetTotal(before, n) - if n == m then |hs| else 0)
  }

  lemma DrainNet(s: State, m: nat, h: nat, timed: bool)
    ensures var t := s.Drain(m, h, timed); t.multis == s.multis && LessNet(s.log, t.log, m, [h])
  {
    var t := s.ExecPost(Some(h), timed);
    ExecPostLog(s, Some(h), timed);
    NeutralNet(s.log, t.log);
    var log := t.Noted(Drained(m, h)).log;
    assert log[..|t.log|] == t.log;
    assert forall n :: NetTotal(log, n) == NetTotal(t.log, n) - if n == m then 1 else 0;
  }

  lemma {:induction false} DrainAllNet(s: State, m: nat, hs: seq<nat>, timed: bool)
    requires Distinct(hs)
    ensures var t := s.DrainAll(m, hs, timed); t.multis == s.multis && LessNet(s.log, t.log, m, hs)
  {
    if hs != [] {
      var init, last := hs[..|hs| - 1], hs[|hs| - 1];
      DrainAllNet(s, m, init, timed);
      DrainNet(s.DrainAll(m, init, timed), m, last, timed);
      assert hs == init + [last] && last !in init;
    }
  }

  lemma OneMoreBlock(before: seq<Event>, j: int, m: nat, h: nat)
    requires Blocks(before) && 0 <= j < |before| && before[j] == EndStep(h)
    requires forall k :: j < k < |before| ==> IsEnding(before[k])
    ensures Blocks(before + [Drained(m, h)])
  {
    var log := before + [Drained(m, h)];
    assert DrainBlock(log, j, |before|);
    forall i | 0 <= i < |before| && log[i].Drained?
      ensures exists j :: DrainBlock(log, j, i)
    {
      var k :| DrainBlock(before, k, i);
      assert DrainBlock(log, k, i);
    }
  }

  lemma DrainBlocks(s: State, m: nat, h: nat, timed: bool)
    requires Blocks(s.log) && h != 0
    ensures Blocks(s.Drain(m, h, timed).log)
  {
    var t := s.ExecPost(Some(h), timed);
    ExecPostLog(s, Some(h), timed);
    NoDrainsBlocks(s.log, t.log);
    OneMoreBlock(t.log, |s.log|, m, h);
  }

  lemma EndStepNoted(log: seq<Event>, h: nat, m: nat)
    ensures EndSteps(log + [EndStep(h)]) == EndSteps(log) + [h]
    ensures DrainedFrom(log + [EndStep(h)], m) == DrainedFrom(log, m)
  {
    assert (log + [EndStep(h)])[..|log|] == log;
  }

  lemma DrainedNoted(log: seq<Event>, m: nat, h: nat)
    ensures EndSteps(log + [Drained(m, h)]) == EndSteps(log)
    ensures DrainedFrom(log + [Drained(m, h)], m) == DrainedFrom(log, m) + [h]
  {
    assert (log + [Drained(m, h)])[..|log|] == log;
  }

  lemma DrainLog(s: State, m: nat, h: nat, timed: bool)
    requires h != 0
    ensures var t := s.Drain(m, h, timed);
            && t.multis == s.multis
            && EndSteps(t.log) == EndSteps(s.log) + [h]
            && DrainedFrom(t.log, m) == DrainedFrom(s.log, m) + [h]
  {
    var t := s.ExecPost(Some(h), timed);
    ExecPostLog(s, Some(h), timed);
    EndStepNoted(s.log, h, m);
    EndingsAside(s.log + [EndStep(h)], t.log, m);
    DrainedNoted(t.log, m, h);
  }

  lemma {:induction false} DrainAllBlocks(s: State, m: nat, hs: seq<nat>, timed: bool)
    requires 0 !in hs && Blocks(s.log)
    ensures Blocks(s.DrainAll(m, hs, timed).log)
  {
    if hs != [] {
      var init, last := hs[..|hs| - 1], hs[|hs| - 1];
      DrainAllBlocks(s, m, init, timed);
      DrainBlocks(s.DrainAll(m, init, timed), m, last, timed);
    }
  }

  lemma {:induction false} DrainAllEnds(s: State, m: nat, hs: seq<nat>, timed: bool)
    requires 0 !in hs
    ensures EndSteps(s.DrainAll(m, hs, timed).log) == EndSteps(s.log) + hs
  {
    if hs != [] {
      var init, last := hs[..|hs| - 1], hs[|hs| - 1];
      DrainAllEnds(s, m, init, timed);
      DrainLog(s.DrainAll(m, init, timed), m, last, timed);
      assert EndSteps(s.log) + init + [last] == EndSteps(s.log) + hs;
    }
  }

  lemma {:induction false} DrainAllDrained(s: State, m: nat, hs: seq<nat>, timed: bool)
    requires 0 !in hs
    ensures var t := s.DrainAll(m, hs, timed);
            t.multis == s.multis && DrainedFrom(t.log, m) == DrainedFrom(s.log, m) + hs
  {
    if hs != [] {
      var init, last := hs[..|hs| - 1], hs[|hs| - 1];
      DrainAllDrained(s, m, init, timed);
      DrainLog(s.DrainAll(m, init, timed), m, last, timed);
      assert DrainedFrom(s.log, m) + init + [last] == DrainedFrom(s.log, m) + hs;
    }
  }

  /** Each handle has its end step run once, in the order of the list, right before it goes. */
  lemma DrainAllLog(s: State, m: nat, hs: seq<nat>, timed: bool)
    requires 0 !in hs
    ensures var t := s.DrainAll(m, hs, timed);
            && t.multis == s.multis
            && EndSteps(t.log) == EndSteps(s.log) + hs
            && DrainedFrom(t.log, m) == DrainedFrom(s.log, m) + hs
            && (Blocks(s.log) ==> Blocks(t.log))
  {
    DrainAllEnds(s, m, hs, timed);
    DrainAllDrained(s, m, hs, timed);
    if Blocks(s.log) {
      DrainAllBlocks(s, m, hs, timed);
    }
  }

  lemma {:induction false} SplitMembers(hs: seq<nat>, chosen: set<nat>)
    ensures forall h :: h in Those(hs, chosen) <==> h in hs && h in chosen
    ensures forall h :: h in Others(hs, chosen) <==> h in hs && h !in chosen
    ensures |Those(hs, chosen)| + |Others(hs, chosen)| == |hs|
  {
    if hs != [] {
      SplitMembers(hs[..|hs| - 1], chosen);
      assert hs == hs[..|hs| - 1] + [hs[|hs| - 1]];
    }
  }

  lemma DistinctMore(hs: seq<nat>, h: nat)
    requires Distinct(hs) && h !in hs
    ensures Distinct(hs + [h])
  {
  }

  lemma {:induction false} SplitDistinct(hs: seq<nat>, chosen: set<nat>)
    requires Distinct(hs)
    ensures Distinct(Those(hs, chosen)) && Distinct(Others(hs, chosen))
  {
    if hs != [] {
      var init, last := hs[..|hs| - 1], hs[|hs| - 1];
      assert last !in init;
      SplitDistinct(init, chosen);
      SplitMembers(init, chosen);
      if last in chosen {
        DistinctMore(Those(init, chosen), last);
        assert Others(init, chosen) + [] == Others(init, chosen);
      } else {
        DistinctMore(Others(init, chosen), last);
        assert Those(init, chosen) + [] == Those(init, chosen);
      }
    }
  }

  /** The two parts of a list: together its handles, each once. */
  lemma SplitHandles(hs: seq<nat>, chosen: set<nat>)
    ensures forall h :: h in Those(hs, chosen) <==> h in hs && h in chosen
    ensures forall h :: h in Others(hs, chosen) <==> h in hs && h !in chosen
    ensures |Those(hs, chosen)| + |Others(hs, chosen)| == |hs|
    ensures Distinct(hs) ==> Distinct(Those(hs, chosen)) && Distinct(Others(hs, chosen))
  {
    SplitMembers(hs, chosen);
    if Distinct(hs) {
      SplitDistinct(hs, chosen);
    }
  }

  lemma DistinctFront(h: nat, hs: seq<nat>)
    requires Distinct(hs) && h !in hs
    ensures Distinct([h] + hs)
  {
  }

  lemma {:induction false} WithoutOne(hs: seq<nat>, h: nat)
    requires Distinct(hs) && h in hs
    ensures forall k :: k in Without(hs, h) <==> k in hs && k != h
    ensures |Without(hs, h)| == |hs| - 1 && Distinct(Without(hs, h))
  {
    var first, rest := hs[0], hs[1..];
    assert hs == [first] + rest;
    assert first !in rest;
    if first != h {
      WithoutOne(rest, h);
      DistinctFront(first, Without(rest, h));
    }
  }

  // ------------------------------------------------------------------------
  // Multi handles.
  // ------------------------------------------------------------------------

  lemma ListsKept(multis: map<nat, MultiMd>, m: nat, md: MultiMd)
    requires ListsOk(multis) && m in multis
    requires md.index == multis[m].index && Distinct(md.handles) && 0 !in md.handles
    ensures ListsOk(multis[m := md])
  {
    var after := multis[m := md];
    assert |after| == |multis| by {
      assert after.Keys == multis.Keys;
    }
    forall i | 1 <= i <= |after|
      ensures HasIndex(after, i)
    {
      assert HasIndex(multis, i);
      var n :| n in multis && multis[n].index == i;
      assert n in after && after[n].index == i;
    }
  }

  lemma ListsGrow(multis: map<nat, MultiMd>, m: nat)
    requires ListsOk(multis) && m !in multis
    ensures ListsOk(multis[m := MultiMd(|multis| + 1, [], None, 0, false)])
    ensures forall n :: ListOf(multis[m := MultiMd(|multis| + 1, [], None, 0, false)], n) == ListOf(multis, n)
  {
    var after := multis[m := MultiMd(|multis| + 1, [], None, 0, false)];
    assert |after| == |multis| + 1;
    forall i | 1 <= i <= |after|
      ensures HasIndex(after, i)
    {
      if i == |after| {
        assert m in after && after[m].index == i;
      } else {
        assert HasIndex(multis, i);
        var n :| n in multis && multis[n].index == i;
        assert n in after && after[n].index == i;
      }
    }
  }

  lemma SameListsConserved(log: seq<Event>, before: map<nat, MultiMd>, after: map<nat, MultiMd>)
    requires Conserved(log, before) && forall m :: ListOf(after, m) == ListOf(before, m)
    ensures Conserved(log, after)
  {
    forall m, h
      ensures Net(log, m, h) == Listed(after, m, h) && NetTotal(log, m) == |ListOf(after, m)|
    {
      assert Net(log, m, h) == Listed(before, m, h) && NetTotal(log, m) == |ListOf(before, m)|;
    }
  }

  lemma WithMultiBooks(s: State, mh: Option<nat>)
    requires Books(s)
    ensures Books(s.WithMulti(mh))
  {
    var t := s.WithMulti(mh);
    if t != s {
      ListsGrow(s.multis, mh.value);
      SameListsConserved(s.log, s.multis, t.multis);
    }
  }

  /** Giving m another list, with a log whose balance has moved along. */
  lemma NewListBooks(s: State, t: State, m: nat, hs: seq<nat>)
    requires Books(s) && m in s.multis && Distinct(hs) && 0 !in hs
    requires t.multis == s.multis[m := s.multis[m].(handles := hs)]
    requires forall n, h {:trigger Net(t.log, n, h)} ::
               Net(t.log, n, h) == if n == m then (if h in hs then 1 else 0) else Net(s.log, n, h)
    requires forall n {:trigger NetTotal(t.log, n)} ::
               NetTotal(t.log, n) == if n == m then |hs| else NetTotal(s.log, n)
    ensures Books(t)
  {
    ListsKept(s.multis, m, s.multis[m].(handles := hs));
    assert forall n :: ListOf(t.multis, n) == if n == m then hs else ListOf(s.multis, n);
  }

  /** Changing a multi handle's segment or flag, but not its list. */
  lemma SameListBooks(s: State, m: nat, md: MultiMd)
    requires Books(s) && m in s.multis && md.index == s.multis[m].index && md.handles == s.multis[m].handles
    ensures Books(s.(multis := s.multis[m := md]))
  {
    ListsKept(s.multis, m, md);
    SameListsConserved(s.log, s.multis, s.multis[m := md]);
  }

  lemma AppendBooks(w: State, m: nat, h: nat)
    requires Books(w) && m in w.multis && m != 0 && h != 0 && h !in w.multis[m].handles
    ensures Books(w.WithHandles(Some(m), w.Handles(Some(m)) + [h]).Noted(Added(m, h)))
  {
    var hs := w.Handles(Some(m)) + [h];
    var t := w.WithHandles(Some(m), hs).Noted(Added(m, h));
    assert t.log[..|w.log|] == w.log;
    assert forall k :: k in hs <==> k in w.Handles(Some(m)) || k == h;
    NewListBooks(w, t, m, hs);
  }

  lemma CutBooks(w: State, m: nat, h: nat)
    requires Books(w) && m in w.multis && m != 0 && h in w.multis[m].handles
    ensures Books(w.WithHandles(Some(m), Without(w.Handles(Some(m)), h)).Noted(Removed(m, h)))
  {
    var hs := Without(w.Handles(Some(m)), h);
    var t := w.WithHandles(Some(m), hs).Noted(Removed(m, h));
    assert t.log[..|w.log|] == w.log;
    WithoutOne(w.Handles(Some(m)), h);
    NewListBooks(w, t, m, hs);
  }

  lemma WithMdBooks(s: State, ch: Option<nat>)
    requires Books(s)
    ensures Books(s.WithMd(ch))
  {
  }

  lemma ReadyBooks(s: State, mh: Option<nat>, ch: Option<nat>)
    requires Books(s)
    ensures Books(s.WithMd(ch).WithMulti(mh))
  {
    WithMdBooks(s, ch);
    WithMultiBooks(s.WithMd(ch), mh);
  }

  lemma AddBooks(s: State, mh: Option<nat>, ch: Option<nat>)
    requires Books(s)
    ensures Books(s.Add(mh, ch))
  {
    ReadyBooks(s, mh, ch);
    var w := s.WithMd(ch).WithMulti(mh);
    if mh.Some? && ch.Some? && ch.value != 0 && mh.value != 0 && ch.value !in w.Handles(mh) {
      AppendBooks(w, mh.value, ch.value);
    }
  }

  lemma RemoveBooks(s: State, mh: Option<nat>, ch: Option<nat>)
    requires Books(s)
    ensures Books(s.Remove(mh, ch))
  {
    ReadyBooks(s, mh, ch);
    var w := s.WithMd(ch).WithMulti(mh);
    if mh.Some? && ch.Some? && ch.value != 0 && mh.value != 0 && ch.value in w.Handles(mh) {
      CutBooks(w, mh.value, ch.value);
    }
  }

  lemma SetMultiSegmentBooks(s: State, mh: Option<nat>, segment: Option<nat>)
    requires Books(s) && s.WithMulti(mh) == s
    ensures var t := s.SetMultiSegment(mh, segment); Books(t) && t.log == s.log && t.WithMulti(mh) == t
  {
    var t := s.SetMultiSegment(mh, segment);
    if t != s {
      SameListBooks(s, mh.value, t.multis[mh.value]);
    }
  }

  lemma SetInitializedBooks(s: State, mh: Option<nat>)
    requires Books(s)
    ensures var t := s.SetInitialized(mh); Books(t) && t.log == s.log
  {
    if s.Multi(mh).Some? {
      SameListBooks(s, mh.value, s.Multi(mh).value.(initialized := true));
    }
  }

  lemma MultiPreBooks(s: State, mh: Option<nat>, rootStarts: bool, starts: set<nat>)
    requires Books(s)
    ensures var t := s.MultiPre(mh, rootStarts, starts); Books(t) && t.log == s.log
  {
    WithMultiBooks(s, mh);
    var w := s.WithMulti(mh);
    var x := w.SegmentStart(rootStarts, w.AsyncIndex(mh), RootOf(mh));
    NeutralBooks(w, x);
    SetMultiSegmentBooks(x, mh, w.NewSegment(rootStarts));
    var y := x.SetMultiSegment(mh, w.NewSegment(rootStarts));
    var z := y.PreAll(w.Handles(mh), w.AsyncIndex(mh), starts);
    PreAllLog(y, w.Handles(mh), w.AsyncIndex(mh), starts);
    NeutralBooks(y, z);
    SetInitializedBooks(z, mh);
  }

  /** Draining some of a list's handles and keeping the others on it. */
  lemma DrainedBooks(s: State, m: nat, drained: seq<nat>, kept: seq<nat>, timed: bool)
    requires Books(s) && m in s.multis && m != 0 && Distinct(drained) && Distinct(kept)
    requires forall h :: h in s.multis[m].handles <==> h in drained || h in kept
    requires forall h :: !(h in drained && h in kept)
    requires |drained| + |kept| == |s.multis[m].handles|
    ensures Books(s.DrainAll(m, drained, timed).WithHandles(Some(m), kept))
  {
    DrainAllNet(s, m, drained, timed);
    var d := s.DrainAll(m, drained, timed);
    NewListBooks(s, d.WithHandles(Some(m), kept), m, kept);
  }

  lemma RetimeRootLog(s: State, mh: Option<nat>)
    ensures var t := s.RetimeRoot(mh);
            t.multis == s.multis && OnlyEndings(s.log, t.log) && Neutral(s.log, t.log)
  {
  }

  lemma MultiPostBooks(s: State, mh: Option<nat>, finished: set<nat>)
    requires Books(s)
    ensures Books(s.MultiPost(mh, finished))
  {
    WithMultiBooks(s, mh);
    var w := s.WithMulti(mh);
    if w.Multi(mh).Some? {
      var m, hs := mh.value, w.Handles(mh);
      SplitHandles(hs, finished);
      DrainedBooks(w, m, Those(hs, finished), Others(hs, finished), true);
      var t := w.DrainAll(m, Those(hs, finished), true).WithHandles(mh, Others(hs, finished));
      RetimeRootLog(t, mh);
      NeutralBooks(t, t.RetimeRoot(mh));
    }
  }

  lemma FinalizeBooks(s: State, mh: Option<nat>)
    requires Books(s)
    ensures Books(s.Finalize(mh))
  {
    WithMultiBooks(s, mh);
    var w := s.WithMulti(mh);
    if w.Multi(mh).Some? {
      DrainedBooks(w, mh.value, w.Handles(mh), [], false);
      var t := w.DrainAll(mh.value, w.Handles(mh), false).WithHandles(mh, []);
      EndSegmentLog(t, t.GetMultiSegment(mh), false);
      NeutralBooks(t, t.EndSegment(t.GetMultiSegment(mh), false));
    }
  }
}
