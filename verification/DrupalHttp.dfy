/** Nested drupal_http_request calls: agent/fw_drupal.c. */
module DrupalHttp {
  import opened Options

  datatype Exit = Normal | Exceptional

  // A call of drupal_http_request: its URL argument as the after-callback finds it, whether the
  // agent would give out a segment for it, the calls made inside it, how it ends.
  datatype Request = Request(url: Option<string>, startable: bool, children: seq<Request>, exit: Exit)

  /** A call that reaches the end of its external segment. */
  predicate Finishes(r: Request) {
    r.exit.Normal? && r.url.Some? && r.url.value != ""
  }

  // ------------------------------------------------------------------------
  // What a run of calls should do.
  // ------------------------------------------------------------------------

  /** The number of open calls when the call has been entered, all through it, and at its end. */
  function Depths(r: Request, open: nat): seq<nat>
    decreases r, 1
  {
    [open + 1] + DepthsOfAll(r.children, open + 1) + [open]
  }

  function DepthsOfAll(rs: seq<Request>, open: nat): seq<nat>
    decreases rs, 0
  {
    if rs == [] then [] else DepthsOfAll(rs[..|rs| - 1], open) + Depths(rs[|rs| - 1], open)
  }

  /** The segments that outermost calls start, numbered from next on. */
  function Starts(rs: seq<Request>, next: nat): seq<nat> {
    if rs == [] then []
    else
      var before := Starts(rs[..|rs| - 1], next);
      if rs[|rs| - 1].startable then before + [next + |before|] else before
  }

  /** The ones among them that are ended again. */
  function Ends(rs: seq<Request>, next: nat): seq<nat> {
    if rs == [] then []
    else
      var last := rs[|rs| - 1];
      Ends(rs[..|rs| - 1], next)
      + if last.startable && Finishes(last) then [next + |Starts(rs[..|rs| - 1], next)|] else []
  }

  // ------------------------------------------------------------------------
  // The callbacks.
  // ------------------------------------------------------------------------

  class HttpRequests {
    var depth: nat
    var segment: Option<nat>
    var next: nat             // the agent's segments are numbered as they are given out
    var started: seq<nat>
    var ended: seq<nat>

    constructor ()
      ensures depth == 0 && segment == None && next == 0 && started == [] && ended == []
    {
      depth, segment, next, started, ended := 0, None, 0, [], [];
    }

    method SegmentStart(startable: bool) returns (s: Option<nat>)
      modifies this`next, this`started
      ensures s == if startable then Some(old(next)) else None
      ensures next == old(next) + (if startable then 1 else 0)
      ensures started == old(started) + (if startable then [old(next)] else [])
    {
      if !startable {
        return None;
      }
      s := Some(next);
      started := started + [next];
      next := next + 1;
    }

    /** Ending no segment does nothing. */
    method ExternalEnd(s: Option<nat>)
      modifies this`ended
      ensures ended == old(ended) + (if s.Some? then [s.value] else [])
    {
      if s.Some? {
        ended := ended + [s.value];
      }
    }

    method Before(startable: bool)
      modifies this
      ensures depth == old(depth) + 1 && ended == old(ended)
      ensures old(depth) == 0 ==>
                && segment == (if startable then Some(old(next)) else None)
                && next == old(next) + (if startable then 1 else 0)
                && started == old(started) + (if startable then [old(next)] else [])
      ensures old(depth) > 0 ==> segment == old(segment) && next == old(next) && started == old(started)
    {
      depth := depth + 1;
      if depth == 1 {
        segment := SegmentStart(startable);
      }
    }

    method After(url: Option<string>)
      requires depth > 0
      modifies this
      ensures depth == old(depth) - 1 && next == old(next) && started == old(started)
      ensures var ends := old(depth) == 1 && url.Some? && url.value != "";
              && segment == (if ends then None else old(segment))
              && ended == old(ended) + (if ends && old(segment).Some? then [old(segment).value] else [])
    {
      if url.Some? && url.value != "" {
        if depth == 1 {
          ExternalEnd(segment);
          segment := None;
        }
      }
      depth := depth - 1;
    }

    method Clean()
      requires depth > 0
      modifies this`depth
      ensures depth == old(depth) - 1
    {
      depth := depth - 1;
    }

    /** One call with everything inside it: a nested one leaves all segments alone; an outermost
        one starts one segment, and ends that one if it finishes. */
    method HttpRequest(r: Request) returns (depths: seq<nat>)
      modifies this
      ensures depth == old(depth) && depths == Depths(r, old(depth))
      ensures old(depth) > 0 ==>
                segment == old(segment) && next == old(next) && started == old(started) && ended == old(ended)
      ensures old(depth) == 0 ==>
                var own := if r.startable then [old(next)] else [];
                && started == old(started) + own && next == old(next) + |own|
                && ended == old(ended) + (if Finishes(r) then own else [])
                && (r.startable && !Finishes(r) ==> segment == Some(old(next)))
                && (!r.startable || Finishes(r) ==> segment == None)
      decreases r, 1
    {
      Before(r.startable);
      depths := [depth];
      var nested := Inside(r.children);
      if r.exit.Normal? {
        After(r.url);
      } else {
        Clean();
      }
      depths := depths + nested + [depth];
    }

    method Inside(rs: seq<Request>) returns (depths: seq<nat>)
      requires depth > 0
      modifies this
      ensures depth == old(depth) && depths == DepthsOfAll(rs, old(depth))
      ensures segment == old(segment) && next == old(next) && started == old(started) && ended == old(ended)
      decreases rs, 0
    {
      depths := [];
      for i := 0 to |rs|
        invariant depth == old(depth) && depths == DepthsOfAll(rs[..i], old(depth))
        invariant segment == old(segment) && next == old(next) && started == old(started) && ended == old(ended)
      {
        var more := HttpRequest(rs[i]);
        assert rs[..i + 1][..i] == rs[..i];
        depths := depths + more;
      }
      assert rs[..|rs|] == rs;
    }
  }

  /** A whole request of outermost calls, one after the other. */
  method RunAll(rs: seq<Request>) returns (depths: seq<nat>, started: seq<nat>, ended: seq<nat>, depth: nat)
    ensures depths == DepthsOfAll(rs, 0) && depth == 0
    ensures started == Starts(rs, 0) && ended == Ends(rs, 0)
  {
    var http := new HttpRequests();
    depths := [];
    for i := 0 to |rs|
      invariant fresh(http) && http.depth == 0 && depths == DepthsOfAll(rs[..i], 0)
      invariant http.started == Starts(rs[..i], 0) && http.next == |http.started|
      invariant http.ended == Ends(rs[..i], 0)
    {
      var more := http.HttpRequest(rs[i]);
      assert rs[..i + 1][..i] == rs[..i];
      depths := depths + more;
    }
    assert rs[..|rs|] == rs;
    started, ended, depth := http.started, http.ended, http.depth;
  }

  /** Segments are started and ended at most once each, and only those that were started; all of
      them are ended exactly when every outermost call that got a segment finishes. */
  lemma {:induction false} EndsAreStarts(rs: seq<Request>, next: nat)
    ensures forall i :: 0 <= i < |Starts(rs, next)| ==> Starts(rs, next)[i] == next + i
    ensures forall s :: s in Ends(rs, next) ==> s in Starts(rs, next)
    ensures forall i, j :: 0 <= i < j < |Ends(rs, next)| ==> Ends(rs, next)[i] < Ends(rs, next)[j]
    ensures |Ends(rs, next)| <= |Starts(rs, next)|
    ensures |Ends(rs, next)| == |Starts(rs, next)| <==> forall r :: r in rs && r.startable ==> Finishes(r)
  {
    if rs != [] {
      var init, last := rs[..|rs| - 1], rs[|rs| - 1];
      EndsAreStarts(init, next);
      assert rs == init + [last];
      var ends, starts := Ends(init, next), Starts(init, next);
      assert forall i :: 0 <= i < |ends| ==> ends[i] in ends;
      assert forall s :: s in starts ==> s < next + |starts|;
    }
  }

  // ------------------------------------------------------------------------
  // The answers spelled out.
  // ------------------------------------------------------------------------

  /** An outermost call starts a segment if it is given one, and ends it exactly when it ends
      normally with a URL. */
  lemma OneRequest(r: Request, next: nat)
    ensures Starts([r], next) == if r.startable then [next] else []
    ensures Ends([r], next) ==
            if r.startable && r.exit == Normal && r.url != None && r.url != Some("") then [next] else []
  {
    assert [r][..0] == [];
    assert Starts([], next) == [];
  }

  lemma {:induction false} StartsOfBoth(a: seq<Request>, b: seq<Request>, next: nat)
    ensures Starts(a + b, next) == Starts(a, next) + Starts(b, next + |Starts(a, next)|)
  {
    if b == [] {
      assert a + b == a;
    } else {
      StartsOfBoth(a, b[..|b| - 1], next);
      assert (a + b)[..|a + b| - 1] == a + b[..|b| - 1];
    }
  }

  lemma {:induction false} EndsOfBoth(a: seq<Request>, b: seq<Request>, next: nat)
    ensures Ends(a + b, next) == Ends(a, next) + Ends(b, next + |Starts(a, next)|)
  {
    if b == [] {
      assert a + b == a;
    } else {
      var init := b[..|b| - 1];
      EndsOfBoth(a, init, next);
      StartsOfBoth(a, init, next);
      assert (a + b)[..|a + b| - 1] == a + init;
    }
  }

  /** From one point to the next the depth changes by one, and it ends where it began. */
  predicate Steps(open: nat, depths: seq<nat>) {
    && (depths != [] ==> depths[0] == open + 1 && depths[|depths| - 1] == open)
    && forall i :: 0 < i < |depths| ==> depths[i] == depths[i - 1] + 1 || depths[i] + 1 == depths[i - 1]
  }

  lemma StepsOfBoth(open: nat, a: seq<nat>, b: seq<nat>)
    requires Steps(open, a) && Steps(open, b)
    ensures Steps(open, a + b)
  {
  }

  lemma StepsAround(open: nat, a: seq<nat>)
    requires Steps(open + 1, a)
    ensures Steps(open, [open + 1] + a + [open])
  {
  }

  lemma {:induction false} DepthsStep(r: Request, open: nat)
    ensures Steps(open, Depths(r, open)) && |Depths(r, open)| == 2 * Calls(r)
    ensures forall d :: d in Depths(r, open) ==> d >= open
    decreases r, 1
  {
    DepthsOfAllStep(r.children, open + 1);
    StepsAround(open, DepthsOfAll(r.children, open + 1));
  }

  /** The depth is counted twice for each call, at its begin and its end. */
  lemma {:induction false} DepthsOfAllStep(rs: seq<Request>, open: nat)
    ensures Steps(open, DepthsOfAll(rs, open)) && |DepthsOfAll(rs, open)| == 2 * CallsOfAll(rs)
    ensures forall d :: d in DepthsOfAll(rs, open) ==> d >= open
    decreases rs, 0
  {
    if rs != [] {
      DepthsOfAllStep(rs[..|rs| - 1], open);
      DepthsStep(rs[|rs| - 1], open);
      StepsOfBoth(open, DepthsOfAll(rs[..|rs| - 1], open), Depths(rs[|rs| - 1], open));
    }
  }

  function Calls(r: Request): nat
    decreases r, 1
  {
    1 + CallsOfAll(r.children)
  }

  function CallsOfAll(rs: seq<Request>): nat
    decreases rs, 0
  {
    if rs == [] then 0 else CallsOfAll(rs[..|rs| - 1]) + Calls(rs[|rs| - 1])
  }
}
