/** The state behind curl instrumentation, and what each operation does to it:
    agent/php_curl_md.c, agent/php_curl.c, agent/php_internal_instrument.c. */
module CurlState {
  import opened Options

  // serial tells transactions apart; the code only ever looks at the start time.
  datatype Txn = Txn(serial: nat, start: nat)

  // What a segment is started for: a handle or a multi handle, by its id, or one that has none.
  datatype Owner = Handle(id: nat) | Root(id: nat) | NoOne

  // A segment the agent has given out. asyncIndex is the number in its async context's name; owner
  // and since, the number of events before it was started, are for the statements about runs.
  datatype Segment = Segment(txn: Txn, asyncIndex: Option<nat>, owner: Owner, since: nat)

  datatype CurlMd = CurlMd(segment: Option<nat>, txnStart: nat)

  datatype MultiMd = MultiMd(index: nat, handles: seq<nat>, segment: Option<nat>, txnStart: nat, initialized: bool)

  // What is done to segments and handles, in order. txn is the current transaction at the time.
  datatype Event =
    | Timed(segment: nat, txn: Option<Txn>)
    | Ended(segment: nat, txn: Option<Txn>)
    | Discarded(segment: nat, txn: Option<Txn>)
    | EndStep(handle: nat)
    | Added(multi: nat, handle: nat)
    | Removed(multi: nat, handle: nat)
    | Drained(multi: nat, handle: nat)
    | MultisDestroyed

  // Segments are numbered in the order in which they are given out.
  datatype State = State(txn: Option<Txn>, curl: map<nat, CurlMd>, multis: map<nat, MultiMd>,
                         segments: seq<Segment>, log: seq<Event>)
  {
    function Start(): nat {
      if txn.Some? then txn.value.start else 0
    }

    function Noted(e: Event): State {
      this.(log := log + [e])
    }

    // -- metadata of single handles; a handle that is none has no id ---------------------------

    /** The metadata of a handle, created on demand; none for an invalid handle or the id 0. */
    function WithMd(ch: Option<nat>): State {
      if ch.Some? && ch.value != 0 && ch.value !in curl then this.(curl := curl[ch.value := CurlMd(None, 0)]) else this
    }

    function Md(ch: Option<nat>): Option<CurlMd> {
      if ch.Some? && ch.value != 0 then Some(if ch.value in curl then curl[ch.value] else CurlMd(None, 0)) else None
    }

    function SetSegment(ch: Option<nat>, segment: Option<nat>): State {
      if ch.Some? && ch.value != 0 && segment.Some? && segment.value < |segments| then
        this.(curl := curl[ch.value := CurlMd(segment, segments[segment.value].txn.start)])
      else this
    }

    /** The stored segment, unless it belongs to a transaction that started at another time. */
    function GetSegment(ch: Option<nat>): Option<nat> {
      var md := Md(ch);
      if md.Some? && md.value.txnStart == Start() then md.value.segment else None
    }

    // -- metadata of multi handles ------------------------------------------------------------

    /** Created on demand as well; its number is the count of multi handles known by then. */
    function WithMulti(mh: Option<nat>): State {
      if mh.Some? && mh.value != 0 && mh.value !in multis then
        this.(multis := multis[mh.value := MultiMd(|multis| + 1, [], None, 0, false)])
      else this
    }

    function Multi(mh: Option<nat>): Option<MultiMd> {
      if mh.Some? && mh.value != 0 && mh.value in multis then Some(multis[mh.value]) else None
    }

    function Handles(mh: Option<nat>): seq<nat> {
      if Multi(mh).Some? then Multi(mh).value.handles else []
    }

    function WithHandles(mh: Option<nat>, handles: seq<nat>): State {
      if Multi(mh).Some? then this.(multis := multis[mh.value := Multi(mh).value.(handles := handles)]) else this
    }

    function GetMultiSegment(mh: Option<nat>): Option<nat> {
      var md := Multi(mh);
      if md.Some? && md.value.txnStart == Start() then md.value.segment else None
    }

    function SetMultiSegment(mh: Option<nat>, segment: Option<nat>): State {
      if mh.Some? && mh.value != 0 && segment.Some? && segment.value < |segments| then
        var s := WithMulti(mh);
        s.(multis := s.multis[mh.value := s.multis[mh.value].(segment := segment,
                                                              txnStart := segments[segment.value].txn.start)])
      else this
    }

    function AsyncIndex(mh: Option<nat>): Option<nat> {
      if Multi(mh).Some? then Some(Multi(mh).value.index) else None
    }

    // -- adding and removing ------------------------------------------------------------------

    /** Would adding succeed? */
    predicate CanAdd(mh: Option<nat>, ch: Option<nat>) {
      mh.Some? && ch.Some? && mh.value != 0 && ch.value != 0 && ch.value !in Handles(mh)
    }

    function Add(mh: Option<nat>, ch: Option<nat>): State {
      if mh.None? || ch.None? || ch.value == 0 then this
      else
        var s := WithMd(ch).WithMulti(mh);
        if mh.value == 0 || ch.value in s.Handles(mh) then s
        else s.WithHandles(mh, s.Handles(mh) + [ch.value]).Noted(Added(mh.value, ch.value))
    }

    predicate CanRemove(mh: Option<nat>, ch: Option<nat>) {
      mh.Some? && ch.Some? && ch.value != 0 && ch.value in Handles(mh)
    }

    function Remove(mh: Option<nat>, ch: Option<nat>): State {
      if mh.None? || ch.None? || ch.value == 0 then this
      else
        var s := WithMd(ch).WithMulti(mh);
        if mh.value == 0 || ch.value !in s.Handles(mh) then s
        else s.WithHandles(mh, Without(s.Handles(mh), ch.value)).Noted(Removed(mh.value, ch.value))
    }

    // -- running one handle -------------------------------------------------------------------

    /** A new segment, if there is a transaction to put it in. */
    function SegmentStart(starts: bool, asyncIndex: Option<nat>, owner: Owner): State {
      if starts && txn.Some? then this.(segments := segments + [Segment(txn.value, asyncIndex, owner, |log|)]) else this
    }

    function NewSegment(starts: bool): Option<nat> {
      if starts && txn.Some? then Some(|segments|) else None
    }

    /** Before a request: starts says whether the request is one to be instrumented. */
    function ExecPre(ch: Option<nat>, asyncIndex: Option<nat>, starts: bool): State {
      SegmentStart(starts, asyncIndex, HandleOf(ch)).SetSegment(ch, NewSegment(starts))
    }

    function EndSegment(segment: Option<nat>, timed: bool): State {
      if segment.None? then this
      else if timed then Noted(Timed(segment.value, txn)).Noted(Ended(segment.value, txn))
      else Noted(Ended(segment.value, txn))
    }

    /** After a request: the stored segment, if it is still good, is timed and ended. */
    function ExecPost(ch: Option<nat>, timed: bool): State {
      var s := WithMd(ch);
      var t := if ch.Some? && ch.value != 0 then s.Noted(EndStep(ch.value)) else s;
      t.EndSegment(s.GetSegment(ch), timed)
    }

    // -- running a multi handle ---------------------------------------------------------------

    function PreAll(handles: seq<nat>, asyncIndex: Option<nat>, starts: set<nat>): State {
      if handles == [] then this
      else
        var last := handles[|handles| - 1];
        PreAll(handles[..|handles| - 1], asyncIndex, starts).ExecPre(Some(last), asyncIndex, last in starts)
    }

    /** The first run of a multi handle: its root segment and all requests listed by then. */
    function MultiPre(mh: Option<nat>, rootStarts: bool, starts: set<nat>): State {
      var s := WithMulti(mh);
      if s.Multi(mh).Some? && s.Multi(mh).value.initialized then s
      else
        var t := s.SegmentStart(rootStarts, s.AsyncIndex(mh), RootOf(mh)).SetMultiSegment(mh, s.NewSegment(rootStarts));
        t.PreAll(s.Handles(mh), s.AsyncIndex(mh), starts).SetInitialized(mh)
    }

    function SetInitialized(mh: Option<nat>): State {
      if Multi(mh).Some? then this.(multis := multis[mh.value := Multi(mh).value.(initialized := true)]) else this
    }

    /** The end step of a listed handle and the note that it is taken off the list. */
    function Drain(mh: nat, h: nat, timed: bool): State {
      ExecPost(Some(h), timed).Noted(Drained(mh, h))
    }

    function DrainAll(mh: nat, hs: seq<nat>, timed: bool): State {
      if hs == [] then this
      else DrainAll(mh, hs[..|hs| - 1], timed).Drain(mh, hs[|hs| - 1], timed)
    }

    function RetimeRoot(mh: Option<nat>): State {
      var root := GetMultiSegment(mh);
      if root.Some? then Noted(Timed(root.value, txn)) else this
    }

    /** After a run: finished handles are ended and taken off the list, the root is re-timed. */
    function MultiPost(mh: Option<nat>, finished: set<nat>): State {
      var s := WithMulti(mh);
      var hs := s.Handles(mh);
      if s.Multi(mh).None? then s
      else s.DrainAll(mh.value, Those(hs, finished), true).WithHandles(mh, Others(hs, finished)).RetimeRoot(mh)
    }

    /** After the last run: all handles are ended and taken off the list, and the root is ended. */
    function Finalize(mh: Option<nat>): State {
      var s := WithMulti(mh);
      if s.Multi(mh).None? then s
      else
        var t := s.DrainAll(mh.value, s.Handles(mh), false).WithHandles(mh, []);
        t.EndSegment(t.GetMultiSegment(mh), false)
    }
  }

  function HandleOf(ch: Option<nat>): Owner {
    if ch.Some? && ch.value != 0 then Handle(ch.value) else NoOne
  }

  function RootOf(mh: Option<nat>): Owner {
    if mh.Some? && mh.value != 0 then Root(mh.value) else NoOne
  }

  function Without(hs: seq<nat>, h: nat): seq<nat> {
    if hs == [] then []
    else if hs[0] == h then hs[1..]
    else [hs[0]] + Without(hs[1..], h)
  }

  /** The handles among hs that are in a set, and those that are not, each in their order. */
  function Those(hs: seq<nat>, chosen: set<nat>): seq<nat> {
    if hs == [] then []
    else Those(hs[..|hs| - 1], chosen) + if hs[|hs| - 1] in chosen then [hs[|hs| - 1]] else []
  }

  function Others(hs: seq<nat>, chosen: set<nat>): (r: seq<nat>)
    ensures |r| <= |hs|
  {
    if hs == [] then []
    else Others(hs[..|hs| - 1], chosen) + if hs[|hs| - 1] in chosen then [] else [hs[|hs| - 1]]
  }

  // ------------------------------------------------------------------------
  // Runs: whatever PHP code does with handles, and transactions that come and go.
  // ------------------------------------------------------------------------

  datatype Op =
    | Exec(ch: Option<nat>, starts: bool)
    | AddHandle(mh: Option<nat>, ch: Option<nat>, starts: bool)
    | RemoveHandle(mh: Option<nat>, ch: Option<nat>)
    | MultiExec(mh: Option<nat>, rootStarts: bool, started: set<nat>, finished: set<nat>, running: bool)
    | BeginTxn(start: nat, kept: bool)
    | EndTxn(kept: bool)
    | Shutdown                   // at the end of a request the multi metadata goes first

  // The agent clears both kinds of metadata when a transaction ends and again when one begins.
  // Runs in which they are kept instead are allowed here too: what follows does not rest on it.

  function Discard(s: State, segment: Option<nat>): State {
    if segment.Some? then s.Noted(Discarded(segment.value, s.txn)) else s
  }

  function DestroyMultis(s: State): State {
    s.(multis := map[]).Noted(MultisDestroyed)
  }

  function Cleared(s: State, kept: bool): State {
    if kept then s else DestroyMultis(s.(curl := map[]))
  }

  function Step(s: State, serial: nat, op: Op): State {
    match op
    case Exec(ch, starts) => s.ExecPre(ch, None, starts).ExecPost(ch, false)
    case AddHandle(mh, ch, starts) =>
      var t := s.Add(mh, ch);
      if s.CanAdd(mh, ch) && t.Multi(mh).Some? && t.Multi(mh).value.initialized then
        t.ExecPre(ch, t.AsyncIndex(mh), starts)
      else t
    case RemoveHandle(mh, ch) =>
      var t := s.Remove(mh, ch);
      if s.CanRemove(mh, ch) then Discard(t, t.GetSegment(ch)) else t
    case MultiExec(mh, rootStarts, started, finished, running) =>
      var t := s.MultiPre(mh, rootStarts, started).MultiPost(mh, finished);
      if running then t else t.Finalize(mh)
    case BeginTxn(start, kept) =>
      if s.txn.Some? then s else Cleared(s, kept).(txn := Some(Txn(serial, start)))
    case EndTxn(kept) => Cleared(s.(txn := None), kept)
    case Shutdown => if s.txn.Some? then DestroyMultis(s) else s
  }

  const Initial := State(None, map[], map[], [], [])

  /** Transactions are numbered by the operation that begins them. */
  function Run(ops: seq<Op>): State {
    if ops == [] then Initial else Step(Run(ops[..|ops| - 1]), |ops|, ops[|ops| - 1])
  }
}
