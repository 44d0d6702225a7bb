/** The curl instrumentation as it is written: tables of metadata, filled on demand and changed in
    place. agent/php_curl_md.c:93-143, 279-344, 354-543, agent/php_curl.c:659-824,
    agent/php_internal_instrument.c:2426-2531, 2870-2927. */
module CurlTracker {
  import opened CIntegers
  import opened CurlLists
  import opened CurlState
  import opened Options

  import CurlGuard
  import CurlRuns

  // A size_t is one more, or one less, modulo its range.

  function Next(pos: nat): (r: nat)
    ensures pos + 1 < SIZE_T ==> r == pos + 1
  {
    SizeT(pos + 1)
  }

  function Previous(pos: nat): nat {
    SizeT(pos - 1)
  }

  // ------------------------------------------------------------------------
  // How the loops relate to the functions they compute.
  // ------------------------------------------------------------------------

  /** Ids have 32 bits. */
  predicate AreIds(hs: seq<nat>) {
    forall h :: h in hs ==> h < INT
  }

  /** How ids are compared: as ints. */
  function Compare(a: nat, b: nat): int {
    if ToInt(a) < ToInt(b) then -1 else if ToInt(a) > ToInt(b) then 1 else 0
  }

  /** Ids of 32 bits, such as those of objects, are told apart although the cast makes some of them
      negative; in general two ids are taken for one exactly when their low 32 bits agree. */
  lemma CompareExactly(a: nat, b: nat)
    ensures Compare(a, b) == 0 <==> a % INT == b % INT
    ensures a < INT && b < INT ==> (Compare(a, b) == 0 <==> a == b)
  {
  }

  lemma {:induction false} WithoutAt(hs: seq<nat>, i: nat)
    requires i < |hs| && hs[i] !in hs[..i]
    ensures Without(hs, hs[i]) == hs[..i] + hs[i + 1..]
  {
    if i > 0 {
      var rest := hs[1..];
      assert rest[i - 1] == hs[i] && rest[..i - 1] == hs[1..i] && rest[i..] == hs[i + 1..];
      assert hs[1..i] == hs[..i][1..];
      WithoutAt(rest, i - 1);
      assert hs[..i] == [hs[0]] + hs[1..i];
    }
  }

  lemma EndSegmentAside(s: State, multis: map<nat, MultiMd>, segment: Option<nat>, timed: bool)
    ensures s.(multis := multis).EndSegment(segment, timed) == s.EndSegment(segment, timed).(multis := multis)
  {
  }

  /** Ending a request has nothing to do with the lists. */
  lemma ExecPostAside(s: State, multis: map<nat, MultiMd>, ch: Option<nat>, timed: bool)
    ensures s.(multis := multis).ExecPost(ch, timed) == s.ExecPost(ch, timed).(multis := multis)
  {
    var w := s.WithMd(ch);
    var n := if ch.Some? && ch.value != 0 then w.Noted(EndStep(ch.value)) else w;
    EndSegmentAside(n, multis, w.GetSegment(ch), timed);
    var v := s.(multis := multis).WithMd(ch);
    assert v == w.(multis := multis);
    assert v.GetSegment(ch) == w.GetSegment(ch);
  }

  lemma {:induction false} DrainAllTables(s: State, mh: nat, hs: seq<nat>, timed: bool)
    ensures var t := s.DrainAll(mh, hs, timed); t.multis == s.multis && t.txn == s.txn && t.segments == s.segments
  {
    if hs != [] {
      DrainAllTables(s, mh, hs[..|hs| - 1], timed);
    }
  }

  // What the first turns of the loop come to: the handles that stay, and the state but for the list.
  datatype Walk = Walk(kept: seq<nat>, state: State)

  ghost function Walked(s: State, mh: nat, hs: seq<nat>, finished: set<nat>, k: nat): (w: Walk)
    requires k <= |hs|
    ensures |w.kept| <= k
  {
    if k == 0 then Walk([], s)
    else
      var w := Walked(s, mh, hs, finished, k - 1);
      if hs[k - 1] in finished then Walk(w.kept, w.state.Drain(mh, hs[k - 1], true))
      else Walk(w.kept + [hs[k - 1]], w.state)
  }

  lemma WalkedOn(s: State, mh: nat, hs: seq<nat>, finished: set<nat>, k: nat)
    requires k < |hs|
    ensures var w := Walked(s, mh, hs, finished, k);
            Walked(s, mh, hs, finished, k + 1)
            == if hs[k] in finished then Walk(w.kept, w.state.Drain(mh, hs[k], true)) else Walk(w.kept + [hs[k]], w.state)
  {
  }

  lemma {:induction false} WalkedIs(s: State, mh: nat, hs: seq<nat>, finished: set<nat>, k: nat)
    requires k <= |hs|
    ensures Walked(s, mh, hs, finished, k)
            == Walk(Others(hs[..k], finished), s.DrainAll(mh, Those(hs[..k], finished), true))
  {
    if k > 0 {
      WalkedIs(s, mh, hs, finished, k - 1);
      assert hs[..k][..k - 1] == hs[..k - 1] && hs[..k][k - 1] == hs[k - 1];
      var before := Those(hs[..k - 1], finished);
      DrainOneMore(s, mh, before, hs[k - 1], true);
      assert before + [] == before && Others(hs[..k - 1], finished) + [] == Others(hs[..k - 1], finished);
    }
  }

  lemma WalkedAll(s: State, mh: nat, hs: seq<nat>, finished: set<nat>)
    ensures Walked(s, mh, hs, finished, |hs|) == Walk(Others(hs, finished), s.DrainAll(mh, Those(hs, finished), true))
    ensures Others(hs, finished) + hs[|hs|..] == Others(hs, finished)
  {
    WalkedIs(s, mh, hs, finished, |hs|);
    assert hs[..|hs|] == hs;
  }

  /** The vector holds what stays and what has not been looked at. */
  lemma NextInVector(kept: seq<nat>, hs: seq<nat>, k: nat)
    requires k <= |hs| && |kept| < |kept + hs[k..]|
    ensures k < |hs| && (kept + hs[k..])[|kept|] == hs[k] && hs[..k] + [hs[k]] == hs[..k + 1]
    ensures (kept + [hs[k]]) + hs[k + 1..] == kept + hs[k..]
    ensures (kept + hs[k..])[..|kept|] + (kept + hs[k..])[|kept| + 1..] == kept + hs[k + 1..]
  {
  }

  lemma DrainOneMore(s: State, mh: nat, hs: seq<nat>, h: nat, timed: bool)
    ensures s.DrainAll(mh, hs + [h], timed) == s.DrainAll(mh, hs, timed).Drain(mh, h, timed)
  {
    assert (hs + [h])[..|hs|] == hs;
  }

  /** Stepping back and then on again ends where it began, also at 0, where the step back wraps. */
  lemma BackAndOn(pos: nat)
    requires pos < SIZE_T
    ensures Next(Previous(pos)) == pos
  {
    if pos == 0 {
      assert Previous(pos) == SIZE_T - 1;
    } else {
      assert Previous(pos) == pos - 1;
    }
  }

  /** s, with only the list of mh another one. */
  function Relisted(s: State, mh: nat, list: seq<nat>): State
    requires mh in s.multis
  {
    s.(multis := s.multis[mh := s.multis[mh].(handles := list)])
  }

  /** Neither before nor after a run does a list grow. */
  lemma MultiPreLists(s: State, mh: Option<nat>, rootStarts: bool, starts: set<nat>)
    ensures s.MultiPre(mh, rootStarts, starts).Handles(mh) == s.Handles(mh)
  {
    var w := s.WithMulti(mh);
    var t := w.SegmentStart(rootStarts, w.AsyncIndex(mh), RootOf(mh)).SetMultiSegment(mh, w.NewSegment(rootStarts));
    PreAllLog(t, w.Handles(mh), w.AsyncIndex(mh), starts);
  }

  lemma MultiPostLists(s: State, mh: Option<nat>, finished: set<nat>)
    ensures |s.MultiPost(mh, finished).Handles(mh)| <= |s.Handles(mh)|
  {
    var w := s.WithMulti(mh);
    if w.Multi(mh).Some? {
      var hs := w.Handles(mh);
      DrainAllTables(w, mh.value, Those(hs, finished), true);
    }
  }

  lemma DrainTables(s: State, mh: nat, h: nat, timed: bool)
    ensures var t := s.Drain(mh, h, timed); t.multis == s.multis && t.txn == s.txn && t.segments == s.segments
  {
  }

  /** One turn of the loop that takes a handle off the list. */
  lemma DrainTurn(d: State, mh: nat, h: nat, timed: bool, list: seq<nat>, left: seq<nat>)
    requires mh in d.multis
    ensures mh in d.Drain(mh, h, timed).multis
    ensures var t := Relisted(d, mh, list).ExecPost(Some(h), timed);
            && mh in t.multis && t.multis[mh].handles == list
            && Relisted(t, mh, left).Noted(Drained(mh, h)) == Relisted(d.Drain(mh, h, timed), mh, left)
  {
    DrainTables(d, mh, h, timed);
    ExecPostAside(d, Relisted(d, mh, list).multis, Some(h), timed);
  }

  /** What the types of ids and of vectors allow. */
  predicate Fits(s: State, op: Op) {
    match op
    case AddHandle(mh, ch, _) => AreIds(s.Handles(mh)) && (ch.Some? ==> ch.value < INT)
    case RemoveHandle(mh, ch) => AreIds(s.Handles(mh)) && (ch.Some? ==> ch.value < INT)
    case MultiExec(mh, _, _, _, _) => |s.Handles(mh)| < SIZE_T
    case _ => true
  }

  class CurlTracker {
    var txn: Option<Txn>
    var curlMetadata: map<nat, CurlMd>
    var curlMultiMetadata: map<nat, MultiMd>
    var segments: seq<Segment>
    var log: seq<Event>      // what has been done, for the statements about runs

    ghost function View(): State
      reads this
    {
      State(txn, curlMetadata, curlMultiMetadata, segments, log)
    }

    function TxnStartTime(): nat
      reads this
    {
      if txn.Some? then txn.value.start else 0
    }

    constructor ()
      ensures View() == Initial
    {
      txn, curlMetadata, curlMultiMetadata, segments, log := None, map[], map[], [], [];
    }

    method GetCurlMetadata(ch: nat) returns (md: Option<CurlMd>)
      modifies this
      ensures View() == old(View()).WithMd(Some(ch))
      ensures md == old(View()).Md(Some(ch)) && (md.Some? ==> ch in curlMetadata && curlMetadata[ch] == md.value)
    {
      if ch == 0 {
        return None;
      }
      if ch !in curlMetadata {
        curlMetadata := curlMetadata[ch := CurlMd(None, 0)];
      }
      md := Some(curlMetadata[ch]);
    }

    method GetCurlMultiMetadata(mh: nat) returns (md: Option<MultiMd>)
      modifies this
      ensures View() == old(View()).WithMulti(Some(mh)) && md == View().Multi(Some(mh))
      ensures md.Some? <==> mh != 0
    {
      if mh == 0 {
        return None;
      }
      if mh !in curlMultiMetadata {
        var index := |curlMultiMetadata| + 1;
        curlMultiMetadata := curlMultiMetadata[mh := MultiMd(index, [], None, 0, false)];
      }
      md := Some(curlMultiMetadata[mh]);
    }

    method MdSetSegment(ch: Option<nat>, segment: Option<nat>)
      requires segment.Some? ==> segment.value < |segments|
      modifies this
      ensures View() == old(View()).SetSegment(ch, segment)
    {
      if ch.None? || segment.None? {
        return;
      }
      var md := GetCurlMetadata(ch.value);
      if md.Some? {
        curlMetadata := curlMetadata[ch.value := CurlMd(segment, segments[segment.value].txn.start)];
      }
    }

    method MdGetSegment(ch: Option<nat>) returns (segment: Option<nat>)
      modifies this
      ensures View() == old(View()).WithMd(ch) && segment == old(View()).GetSegment(ch)
    {
      if ch.None? {
        return None;
      }
      var md := GetCurlMetadata(ch.value);
      if md.None? || TxnStartTime() != md.value.txnStart {
        return None;
      }
      segment := md.value.segment;
    }

    method MultiMdSetSegment(mh: Option<nat>, segment: Option<nat>)
      requires segment.Some? ==> segment.value < |segments|
      modifies this
      ensures View() == old(View()).SetMultiSegment(mh, segment)
    {
      if mh.None? || segment.None? {
        return;
      }
      var md := GetCurlMultiMetadata(mh.value);
      if md.Some? {
        var start := segments[segment.value].txn.start;
        curlMultiMetadata := curlMultiMetadata[mh.value := md.value.(segment := segment, txnStart := start)];
      }
    }

    method MultiMdGetSegment(mh: Option<nat>) returns (segment: Option<nat>)
      modifies this
      ensures View() == old(View()).WithMulti(mh) && segment == View().GetMultiSegment(mh)
    {
      if mh.None? {
        return None;
      }
      var md := GetCurlMultiMetadata(mh.value);
      if md.None? || TxnStartTime() != md.value.txnStart {
        return None;
      }
      segment := md.value.segment;
    }

    method MultiMdGetAsyncContext(mh: Option<nat>) returns (index: Option<nat>)
      modifies this
      ensures View() == old(View()).WithMulti(mh) && index == View().AsyncIndex(mh)
    {
      if mh.None? {
        return None;
      }
      var md := GetCurlMultiMetadata(mh.value);
      index := if md.Some? then Some(md.value.index) else None;
    }

    /** The list of a multi handle, or none. */
    method MultiMdGetHandles(mh: Option<nat>) returns (handles: Option<seq<nat>>)
      modifies this
      ensures View() == old(View()).WithMulti(mh)
      ensures handles == if View().Multi(mh).Some? then Some(View().Handles(mh)) else None
    {
      if mh.None? {
        return None;
      }
      var md := GetCurlMultiMetadata(mh.value);
      handles := if md.Some? then Some(md.value.handles) else None;
    }

    method MultiMdIsInitialized(mh: Option<nat>) returns (b: bool)
      modifies this
      ensures View() == old(View()).WithMulti(mh)
      ensures b == (View().Multi(mh).Some? && View().Multi(mh).value.initialized)
    {
      if mh.None? {
        return false;
      }
      var md := GetCurlMultiMetadata(mh.value);
      b := md.Some? && md.value.initialized;
    }

    method MultiMdSetInitialized(mh: Option<nat>)
      modifies this
      ensures View() == old(View()).WithMulti(mh).SetInitialized(mh)
    {
      if mh.None? {
        return;
      }
      var md := GetCurlMultiMetadata(mh.value);
      if md.Some? {
        curlMultiMetadata := curlMultiMetadata[mh.value := md.value.(initialized := true)];
      }
    }

    /** The first place of a handle in a list. */
    static method FindFirst(handles: seq<nat>, h: nat) returns (found: bool, index: nat)
      requires AreIds(handles) && h < INT
      ensures found <==> h in handles
      ensures found ==> index < |handles| && handles[index] == h && h !in handles[..index]
    {
      index := 0;
      while index < |handles|
        invariant index <= |handles| && h !in handles[..index]
      {
        assert handles[index] in handles;
        CompareExactly(handles[index], h);
        if Compare(handles[index], h) == 0 {
          return true, index;
        }
        index := index + 1;
      }
      found := false;
    }

    method MultiMdAdd(mh: Option<nat>, ch: Option<nat>) returns (ok: bool)
      requires AreIds(View().Handles(mh)) && (ch.Some? ==> ch.value < INT)
      modifies this
      ensures View() == old(View()).Add(mh, ch) && ok == old(View()).CanAdd(mh, ch)
    {
      if mh.None? || ch.None? {
        return false;
      }
      var md := GetCurlMetadata(ch.value);
      if md.None? {
        return false;
      }
      var multi := GetCurlMultiMetadata(mh.value);
      if multi.None? {
        return false;
      }
      var found, _ := FindFirst(multi.value.handles, ch.value);
      if found {
        return false;
      }
      curlMultiMetadata := curlMultiMetadata[mh.value := multi.value.(handles := multi.value.handles + [ch.value])];
      log := log + [Added(mh.value, ch.value)];
      ok := true;
    }

    method MultiMdRemove(mh: Option<nat>, ch: Option<nat>) returns (ok: bool)
      requires AreIds(View().Handles(mh)) && (ch.Some? ==> ch.value < INT)
      modifies this
      ensures View() == old(View()).Remove(mh, ch) && ok == old(View()).CanRemove(mh, ch)
    {
      if mh.None? || ch.None? {
        return false;
      }
      var md := GetCurlMetadata(ch.value);
      if md.None? {
        return false;
      }
      var multi := GetCurlMultiMetadata(mh.value);
      if multi.None? {
        return false;
      }
      var handles := multi.value.handles;
      var found, index := FindFirst(handles, ch.value);
      if !found {
        return false;
      }
      WithoutAt(handles, index);
      curlMultiMetadata := curlMultiMetadata[mh.value := multi.value.(handles := handles[..index] + handles[index + 1..])];
      log := log + [Removed(mh.value, ch.value)];
      ok := true;
    }

    method SegmentStart(starts: bool, asyncIndex: Option<nat>, owner: Owner) returns (segment: Option<nat>)
      modifies this
      ensures View() == old(View()).SegmentStart(starts, asyncIndex, owner) && segment == old(View()).NewSegment(starts)
    {
      if !starts || txn.None? {
        return None;
      }
      segment := Some(|segments|);
      segments := segments + [Segment(txn.value, asyncIndex, owner, |log|)];
    }

    method ExecPre(ch: Option<nat>, asyncIndex: Option<nat>, starts: bool)
      modifies this
      ensures View() == old(View()).ExecPre(ch, asyncIndex, starts)
    {
      if starts {
        var segment := SegmentStart(true, asyncIndex, HandleOf(ch));
        MdSetSegment(ch, segment);
      }
    }

    method ExecPost(ch: Option<nat>, timed: bool)
      modifies this
      ensures View() == old(View()).ExecPost(ch, timed)
    {
      var segment := MdGetSegment(ch);
      if ch.Some? && ch.value != 0 {
        log := log + [EndStep(ch.value)];
      }
      if segment.None? {
        return;
      }
      if timed {
        log := log + [Timed(segment.value, txn)];
      }
      log := log + [Ended(segment.value, txn)];
    }

    method ExecPreAll(list: seq<nat>, asyncIndex: Option<nat>, starts: set<nat>)
      modifies this
      ensures View() == old(View()).PreAll(list, asyncIndex, starts)
    {
      var pos := 0;
      while pos < |list|
        invariant pos <= |list|
        invariant View() == old(View()).PreAll(list[..pos], asyncIndex, starts)
      {
        assert list[..pos + 1][..pos] == list[..pos];
        ExecPre(Some(list[pos]), asyncIndex, list[pos] in starts);
        pos := pos + 1;
      }
      assert list[..|list|] == list;
    }

    method MultiExecPre(mh: Option<nat>, rootStarts: bool, starts: set<nat>)
      modifies this
      ensures View() == old(View()).MultiPre(mh, rootStarts, starts)
    {
      var done := MultiMdIsInitialized(mh);
      if done {
        return;
      }
      if rootStarts {
        var root := MultiMdGetAsyncContext(mh);
        var segment := SegmentStart(true, root, RootOf(mh));
        MultiMdSetSegment(mh, segment);
      }
      ghost var t := View();
      var handles := MultiMdGetHandles(mh);
      var index := MultiMdGetAsyncContext(mh);
      assert View() == t;
      var list := if handles.Some? then handles.value else [];
      ExecPreAll(list, index, starts);
      PreAllLog(t, list, index, starts);
      MultiMdSetInitialized(mh);
    }

    /** Takes the handle at a place off the list. */
    method VectorRemove(mh: nat, pos: nat)
      requires mh in curlMultiMetadata && pos < |curlMultiMetadata[mh].handles|
      modifies this
      ensures var hs := old(curlMultiMetadata[mh].handles);
              View() == Relisted(old(View()), mh, hs[..pos] + hs[pos + 1..]).Noted(Drained(mh, hs[pos]))
    {
      var md := curlMultiMetadata[mh];
      curlMultiMetadata := curlMultiMetadata[mh := md.(handles := md.handles[..pos] + md.handles[pos + 1..])];
      log := log + [Drained(mh, md.handles[pos])];
    }

    /** Ends the request at a place of the list, and takes it off. */
    method DrainAt(mh: nat, pos: nat, timed: bool, ghost d: State, ghost list: seq<nat>)
      requires mh in d.multis && pos < |list| && View() == Relisted(d, mh, list)
      modifies this
      ensures mh in d.Drain(mh, list[pos], timed).multis
      ensures View() == Relisted(d.Drain(mh, list[pos], timed), mh, list[..pos] + list[pos + 1..])
    {
      DrainTurn(d, mh, list[pos], timed, list, list[..pos] + list[pos + 1..]);
      ExecPost(Some(curlMultiMetadata[mh].handles[pos]), timed);
      VectorRemove(mh, pos);
    }

    /** The loop takes elements from the vector it walks, and steps back after each, which wraps
        at 0. It looks at every handle that was listed once, in order. */
    method DrainFinished(mh: nat, finished: set<nat>) returns (ghost examined: seq<nat>)
      requires mh in curlMultiMetadata && |curlMultiMetadata[mh].handles| < SIZE_T
      modifies this
      ensures var (s, hs) := (old(View()), old(curlMultiMetadata[mh].handles));
              && examined == hs
              && mh in s.DrainAll(mh, Those(hs, finished), true).multis
              && View() == Relisted(s.DrainAll(mh, Those(hs, finished), true), mh, Others(hs, finished))
    {
      ghost var s, hs := View(), curlMultiMetadata[mh].handles;
      examined := [];
      ghost var k, w := 0, Walk([], s);
      var pos := 0;
      assert Relisted(s, mh, hs).multis == s.multis && [] + hs[0..] == hs;
      while pos < |curlMultiMetadata[mh].handles|
        invariant k <= |hs| && examined == hs[..k]
        invariant w == Walked(s, mh, hs, finished, k) && pos == |w.kept| && mh in w.state.multis
        invariant View() == Relisted(w.state, mh, w.kept + hs[k..])
        decreases |hs| - k
      {
        NextInVector(w.kept, hs, k);
        WalkedOn(s, mh, hs, finished, k);
        var handle := curlMultiMetadata[mh].handles[pos];
        k, examined := k + 1, examined + [handle];
        if handle !in finished {
          w := Walk(w.kept + [handle], w.state);
          pos := Next(pos);
          continue;
        }
        DrainAt(mh, pos, true, w.state, w.kept + hs[k - 1..]);
        w := Walk(w.kept, w.state.Drain(mh, handle, true));
        BackAndOn(pos);
        pos := Previous(pos);
        pos := Next(pos);
      }
      assert examined == hs;
      WalkedAll(s, mh, hs, finished);
    }

    method DrainRest(mh: nat) returns (ghost examined: seq<nat>)
      requires mh in curlMultiMetadata && |curlMultiMetadata[mh].handles| < SIZE_T
      modifies this
      ensures var (s, hs) := (old(View()), old(curlMultiMetadata[mh].handles));
              && examined == hs
              && mh in s.DrainAll(mh, hs, false).multis
              && View() == Relisted(s.DrainAll(mh, hs, false), mh, [])
    {
      ghost var s, hs, d := View(), curlMultiMetadata[mh].handles, View();
      examined := [];
      var pos := 0;
      assert Relisted(s, mh, hs).multis == s.multis;
      while pos < |curlMultiMetadata[mh].handles|
        invariant |examined| <= |hs| && examined == hs[..|examined|] && pos == 0
        invariant d == s.DrainAll(mh, examined, false) && mh in d.multis
        invariant View() == Relisted(d, mh, hs[|examined|..])
        decreases |hs| - |examined|
      {
        ghost var h, left := hs[|examined|], hs[|examined| + 1..];
        assert hs[|examined|..] == [h] + left && ([h] + left)[..0] + ([h] + left)[1..] == left;
        DrainAt(mh, pos, false, d, [h] + left);
        DrainOneMore(s, mh, examined, h, false);
        d, examined := d.Drain(mh, h, false), examined + [h];
        BackAndOn(pos);
        pos := Previous(pos);
        pos := Next(pos);
      }
      assert examined == hs;
    }

    method MultiExecPost(mh: Option<nat>, finished: set<nat>)
      requires |View().Handles(mh)| < SIZE_T
      modifies this
      ensures View() == old(View()).MultiPost(mh, finished)
    {
      var handles := MultiMdGetHandles(mh);
      if handles.Some? {
        var _ := DrainFinished(mh.value, finished);
      }
      var segment := MultiMdGetSegment(mh);
      if segment.Some? {
        log := log + [Timed(segment.value, txn)];
      }
    }

    method MultiExecFinalize(mh: Option<nat>)
      requires |View().Handles(mh)| < SIZE_T
      modifies this
      ensures View() == old(View()).Finalize(mh)
    {
      var handles := MultiMdGetHandles(mh);
      if handles.Some? {
        var _ := DrainRest(mh.value);
      }
      var segment := MultiMdGetSegment(mh);
      if segment.Some? {
        log := log + [Ended(segment.value, txn)];
      }
    }

    // -- the instrumented PHP functions, and what happens to transactions -----------------------

    method CurlExec(ch: Option<nat>, starts: bool, ghost serial: nat)
      modifies this
      ensures View() == Step(old(View()), serial, Exec(ch, starts))
    {
      ExecPre(ch, None, starts);
      ExecPost(ch, false);
    }

    method CurlMultiAddHandle(mh: Option<nat>, ch: Option<nat>, starts: bool, ghost serial: nat)
      requires AreIds(View().Handles(mh)) && (ch.Some? ==> ch.value < INT)
      modifies this
      ensures View() == Step(old(View()), serial, AddHandle(mh, ch, starts))
    {
      var added := MultiMdAdd(mh, ch);
      if added {
        var initialized := MultiMdIsInitialized(mh);
        if initialized {
          var _ := MultiMdGetSegment(mh);
          var index := MultiMdGetAsyncContext(mh);
          ExecPre(ch, index, starts);
        }
      }
    }

    method CurlMultiRemoveHandle(mh: Option<nat>, ch: Option<nat>, ghost serial: nat)
      requires AreIds(View().Handles(mh)) && (ch.Some? ==> ch.value < INT)
      modifies this
      ensures View() == Step(old(View()), serial, RemoveHandle(mh, ch))
    {
      var removed := MultiMdRemove(mh, ch);
      if removed {
        var segment := MdGetSegment(ch);
        if segment.Some? {
          log := log + [Discarded(segment.value, txn)];
        }
      }
    }

    /** What happens before and after the call, whether it is the last one or not. */
    method AroundMultiExec(mh: Option<nat>, rootStarts: bool, started: set<nat>, finished: set<nat>)
      requires |View().Handles(mh)| < SIZE_T
      modifies this
      ensures View() == old(View()).MultiPre(mh, rootStarts, started).MultiPost(mh, finished)
      ensures |View().Handles(mh)| < SIZE_T
    {
      MultiPreLists(View(), mh, rootStarts, started);
      MultiExecPre(mh, rootStarts, started);
      MultiPostLists(View(), mh, finished);
      MultiExecPost(mh, finished);
    }

    method CurlMultiExec(mh: Option<nat>, rootStarts: bool, started: set<nat>, finished: set<nat>, running: bool,
                         ghost serial: nat)
      requires |View().Handles(mh)| < SIZE_T
      modifies this
      ensures View() == Step(old(View()), serial, MultiExec(mh, rootStarts, started, finished, running))
    {
      AroundMultiExec(mh, rootStarts, started, finished);
      if !running {
        MultiExecFinalize(mh);
      }
    }

    /** The tables go with the transaction they belong to, if they do. */
    method ClearTables(kept: bool)
      modifies this
      ensures View() == Cleared(old(View()), kept)
    {
      if !kept {
        curlMetadata := map[];
        curlMultiMetadata := map[];
        log := log + [MultisDestroyed];
      }
    }

    method TxnBegin(serial: nat, start: nat, kept: bool)
      modifies this
      ensures View() == Step(old(View()), serial, BeginTxn(start, kept))
    {
      if txn.Some? {
        return;
      }
      ClearTables(kept);
      txn := Some(Txn(serial, start));
    }

    method TxnEnd(kept: bool, ghost serial: nat)
      modifies this
      ensures View() == Step(old(View()), serial, EndTxn(kept))
    {
      txn := None;
      ClearTables(kept);
    }

    method CurlRshutdown(ghost serial: nat)
      modifies this
      ensures View() == Step(old(View()), serial, Shutdown)
    {
      if txn.Some? {
        curlMultiMetadata := map[];
        log := log + [MultisDestroyed];
      }
    }

    method Perform(serial: nat, op: Op)
      requires Fits(View(), op)
      modifies this
      ensures View() == Step(old(View()), serial, op)
    {
      match op {
        case Exec(ch, starts) => CurlExec(ch, starts, serial);
        case AddHandle(mh, ch, starts) => CurlMultiAddHandle(mh, ch, starts, serial);
        case RemoveHandle(mh, ch) => CurlMultiRemoveHandle(mh, ch, serial);
        case MultiExec(mh, rootStarts, started, finished, running) =>
          CurlMultiExec(mh, rootStarts, started, finished, running, serial);
        case BeginTxn(start, kept) => TxnBegin(serial, start, kept);
        case EndTxn(kept) => TxnEnd(kept, serial);
        case Shutdown => CurlRshutdown(serial);
      }
    }

    /** The code, through any run whatever: the books balance and every stored segment is guarded;
        and where transactions can be told apart, none is touched outside its own. */
    method RunAll(ops: seq<Op>)
      requires View() == Initial
      requires forall i :: 0 <= i < |ops| ==> Fits(Run(ops[..i]), ops[i])
      modifies this
      ensures View() == Run(ops)
      ensures Books(View()) && Blocks(log) && CurlGuard.Guarded(View())
      ensures CurlGuard.AllToldApart(ops) ==> CurlGuard.Safe(View())
    {
      var i := 0;
      while i < |ops|
        invariant i <= |ops| && View() == Run(ops[..i])
      {
        assert ops[..i + 1][..i] == ops[..i];
        Perform(i + 1, ops[i]);
        i := i + 1;
      }
      assert ops[..|ops|] == ops;
      CurlRuns.RunBooks(ops);
      CurlGuard.AlwaysGuarded(ops);
      if CurlGuard.AllToldApart(ops) {
        CurlGuard.RunOk(ops);
      }
    }
  }
}
