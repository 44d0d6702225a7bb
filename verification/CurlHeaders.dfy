/** The headers of curl requests: what the user set is saved, and set again together with the
    agent's own. agent/php_curl.c:180-362, 445-491, agent/php_curl_md.c:218-244,
    agent/php_internal_instrument.c:2355-2379. */
module CurlHeaders {
  import opened CStrings
  import opened Options

  // An element of a header array; PHP code may put in what is not a string.
  datatype Header = Text(text: string) | NoText(id: nat)

  // The third argument of curl_setopt. Of an object, iterating and curl itself need not see the
  // same.
  datatype Value = Array(list: seq<Header>) | Traversable(iterated: seq<Header>, seen: seq<Header>) | Other

  function Contains(h: string, needle: string): bool {
    IndexOf(LowerAll(CStr(h)), LowerAll(needle)) >= 0
  }

  predicate IsNewrelic(h: Header) {
    h.Text? && (Contains(h.text, "X-NewRelic-ID") || Contains(h.text, "X-NewRelic-Transaction")
                || Contains(h.text, "X-NewRelic-Synthetics") || Contains(h.text, "newrelic"))
  }

  predicate NamesVendor(h: string) {
    exists i :: 0 <= i <= |h| && OccursAt(LowerAll(CStr(h)), "newrelic", i)
  }

  lemma OccursWithin(s: string, pattern: string, at: int, part: string, offset: nat)
    requires OccursAt(s, pattern, at) && OccursAt(pattern, part, offset)
    ensures OccursAt(s, part, at + offset)
  {
    forall k | 0 <= k < |part|
      ensures s[at + offset + k] == part[k]
    {
      OccursByte(pattern, part, offset, k);
      OccursByte(s, pattern, at, offset + k);
    }
  }

  lemma NameContainsVendor(h: string, name: string)
    requires |name| >= 10 && name[2..10] == "NewRelic"
    ensures Contains(h, name) ==> NamesVendor(h)
  {
    if Contains(h, name) {
      var s, lower := LowerAll(CStr(h)), LowerAll(name);
      assert forall k :: 0 <= k < 8 ==> lower[2..10][k] == Lower(name[2..10][k]);
      assert lower[2..10] == "newrelic";
      OccursWithin(s, lower, IndexOf(s, lower), "newrelic", 2);
    }
  }

  lemma VendorItself(h: string)
    ensures Contains(h, "newrelic") <==> NamesVendor(h)
  {
    assert LowerAll("newrelic") == "newrelic";
  }

  lemma AnyOfFour(h: string, a: string, b: string, c: string)
    requires |a| >= 10 && a[2..10] == "NewRelic" && |b| >= 10 && b[2..10] == "NewRelic"
    requires |c| >= 10 && c[2..10] == "NewRelic"
    ensures Contains(h, a) || Contains(h, b) || Contains(h, c) || Contains(h, "newrelic") <==> NamesVendor(h)
  {
    VendorItself(h);
    NameContainsVendor(h, a);
    NameContainsVendor(h, b);
    NameContainsVendor(h, c);
  }

  /** The last of the four tests decides: the other three names contain the fourth. */
  lemma OneTestDecides(h: Header)
    ensures IsNewrelic(h) <==> h.Text? && NamesVendor(h.text)
  {
    if h.Text? {
      AnyOfFour(h.text, "X-NewRelic-ID", "X-NewRelic-Transaction", "X-NewRelic-Synthetics");
    }
  }

  /** What the agent saves of a value, and what curl itself makes of it. */
  function Saved(v: Value): Option<seq<Header>> {
    match v
    case Array(list) => Some(list)
    case Traversable(iterated, _) => Some(iterated)
    case Other => None
  }

  function Taken(v: Value): Option<seq<Header>> {
    match v
    case Array(list) => Some(list)
    case Traversable(_, seen) => Some(seen)
    case Other => None
  }

  // The agent's own headers for one request, by name.
  function Formatted(generated: seq<(string, string)>): seq<Header> {
    seq(|generated|, i requires 0 <= i < |generated| => Text(generated[i].0 + ": " + generated[i].1))
  }

  predicate AnyNewrelic(list: seq<Header>) {
    exists h :: h in list && IsNewrelic(h)
  }

  function ListOf(lists: map<nat, seq<Header>>, ch: nat): seq<Header> {
    if ch in lists then lists[ch] else []
  }

  // saved is the agent's metadata, curl what curl itself holds.
  datatype State = State(saved: map<nat, seq<Header>>, curl: map<nat, seq<Header>>, ignoreSetopt: int)
  {
    /** curl_setopt with CURLOPT_HTTPHEADER, as instrumented. */
    function Setopt(ch: Option<nat>, v: Value, crossProcess: bool): State {
      var taken := if ch.Some? && Taken(v).Some? then this.(curl := curl[ch.value := Taken(v).value]) else this;
      if ignoreSetopt == 0 && crossProcess && ch.Some? && ch.value != 0 && Saved(v).Some? then
        taken.(saved := saved[ch.value := Saved(v).value])
      else taken
    }

    /** Does a request get headers from the agent? */
    predicate Effective(ch: Option<nat>, segment: bool, crossProcess: bool, generated: Option<seq<(string, string)>>,
                        constant: bool)
    {
      segment && crossProcess && ch.Some? && ch.value != 0 && !AnyNewrelic(ListOf(saved, ch.value))
      && generated.Some? && constant
    }
  }

  // ------------------------------------------------------------------------
  // The code.
  // ------------------------------------------------------------------------

  class CurlHeaders {
    var outboundHeaders: map<nat, seq<Header>>
    var curlOptions: map<nat, seq<Header>>
    var curlIgnoreSetopt: int

    function View(): State
      reads this
    {
      State(outboundHeaders, curlOptions, curlIgnoreSetopt)
    }

    constructor ()
      ensures View() == State(map[], map[], 0)
    {
      outboundHeaders, curlOptions, curlIgnoreSetopt := map[], map[], 0;
    }

    method MdSetOutboundHeaders(ch: Option<nat>, headers: seq<Header>)
      modifies `outboundHeaders
      ensures outboundHeaders == if ch.Some? && ch.value != 0 then old(outboundHeaders)[ch.value := headers]
                                 else old(outboundHeaders)
    {
      if ch.None? || ch.value == 0 {
        return;
      }
      outboundHeaders := outboundHeaders[ch.value := headers];
    }

    method SetoptPost(ch: Option<nat>, v: Value, crossProcess: bool)
      modifies `outboundHeaders
      ensures outboundHeaders == if crossProcess && ch.Some? && ch.value != 0 && Saved(v).Some?
                                 then old(outboundHeaders)[ch.value := Saved(v).value] else old(outboundHeaders)
    {
      if !crossProcess || ch.None? {
        return;
      }
      match v
      case Array(list) => MdSetOutboundHeaders(ch, list);
      case Traversable(iterated, _) => MdSetOutboundHeaders(ch, iterated);
      case Other =>
    }

    /** The instrumented curl_setopt: curl takes the value, and unless the flag says otherwise the
        agent saves it. */
    method CurlSetopt(ch: Option<nat>, v: Value, crossProcess: bool)
      modifies this
      ensures View() == old(View()).Setopt(ch, v, crossProcess)
    {
      if ch.Some? && Taken(v).Some? {
        curlOptions := curlOptions[ch.value := Taken(v).value];
      }
      if curlIgnoreSetopt == 0 {
        SetoptPost(ch, v, crossProcess);
      }
    }

    /** Sets the flag, calls the instrumented curl_setopt and sets the flag back: in the end the
        saved headers and the flag are what they were, and curl has the saved headers followed by
        the generated ones, or what it had. */
    method ExecSetHttpheaders(ch: Option<nat>, segment: bool, crossProcess: bool,
                              generated: Option<seq<(string, string)>>, constant: bool)
      modifies this
      ensures View() == Step(old(View()), Request(ch, segment, crossProcess, generated, constant))
      ensures outboundHeaders == old(outboundHeaders) && curlIgnoreSetopt == old(curlIgnoreSetopt)
      ensures curlOptions == if old(View()).Effective(ch, segment, crossProcess, generated, constant)
                             then old(curlOptions)[ch.value := ListOf(old(outboundHeaders), ch.value)
                                                               + Formatted(generated.value)]
                             else old(curlOptions)
    {
      var oldCurlIgnoreSetopt := curlIgnoreSetopt;
      if !segment || !crossProcess || ch.None? || ch.value == 0 {
        return;
      }
      var headers: seq<Header> := [];
      if ch.value in outboundHeaders {
        var saved := outboundHeaders[ch.value];
        var i := 0;
        while i < |saved|
          invariant i <= |saved| && headers == saved[..i] && !AnyNewrelic(saved[..i])
        {
          if IsNewrelic(saved[i]) {
            return;
          }
          assert forall h :: h in saved[..i + 1] ==> h in saved[..i] || h == saved[i];
          headers := headers + [saved[i]];
          i := i + 1;
        }
        assert saved[..|saved|] == saved;
      }
      if generated.None? {
        return;
      }
      ghost var saved := headers;
      var keys := generated.value;
      var i := 0;
      while i < |keys|
        invariant i <= |keys| && headers == saved + Formatted(keys[..i])
      {
        assert Formatted(keys[..i + 1]) == Formatted(keys[..i]) + [Text(keys[i].0 + ": " + keys[i].1)];
        headers := headers + [Text(keys[i].0 + ": " + keys[i].1)];
        i := i + 1;
      }
      assert keys[..|keys|] == keys;
      if !constant {
        return;
      }
      curlIgnoreSetopt := 1;
      CurlSetopt(ch, Array(headers), crossProcess);
      curlIgnoreSetopt := oldCurlIgnoreSetopt;
    }
  }

  // ------------------------------------------------------------------------
  // Runs.
  // ------------------------------------------------------------------------

  datatype Op =
    | UserSets(ch: Option<nat>, v: Value, crossProcess: bool)
    | Request(ch: Option<nat>, segment: bool, crossProcess: bool, generated: Option<seq<(string, string)>>,
              constant: bool)
    | Forget      // the metadata goes with its transaction

  function Step(s: State, op: Op): State {
    match op
    case UserSets(ch, v, crossProcess) => s.Setopt(ch, v, crossProcess)
    case Request(ch, segment, crossProcess, generated, constant) =>
      if s.Effective(ch, segment, crossProcess, generated, constant) then
        s.(curl := s.curl[ch.value := ListOf(s.saved, ch.value) + Formatted(generated.value)])
      else s
    case Forget => s.(saved := map[])
  }

  function Run(ops: seq<Op>): State {
    if ops == [] then State(map[], map[], 0) else Step(Run(ops[..|ops| - 1]), ops[|ops| - 1])
  }

  /** The list the user has set last. */
  function UserList(ops: seq<Op>, ch: nat): seq<Header> {
    if ops == [] then []
    else
      match ops[|ops| - 1]
      case UserSets(c, v, _) => if c == Some(ch) && Taken(v).Some? then Taken(v).value else UserList(ops[..|ops| - 1], ch)
      case _ => UserList(ops[..|ops| - 1], ch)
  }

  /** The list the agent heard last, unless it has forgotten it. */
  function HeardList(ops: seq<Op>, ch: nat): seq<Header> {
    if ops == [] then []
    else
      var before := ops[..|ops| - 1];
      match ops[|ops| - 1]
      case UserSets(c, v, crossProcess) =>
        if c == Some(ch) && crossProcess && Saved(v).Some? then Saved(v).value else HeardList(before, ch)
      case Request(_, _, _, _, _) => HeardList(before, ch)
      case Forget => []
  }

  /** Was the list the user set last heard, as curl sees it, and not forgotten since? */
  predicate LastHeard(ops: seq<Op>, ch: nat) {
    ops == [] ||
    var before := ops[..|ops| - 1];
    match ops[|ops| - 1]
    case UserSets(c, v, crossProcess) =>
      if c == Some(ch) && Taken(v).Some? then crossProcess && Saved(v) == Taken(v) else LastHeard(before, ch)
    case Request(_, _, _, _, _) => LastHeard(before, ch)
    case Forget => UserList(before, ch) == [] && LastHeard(before, ch)
  }

  /** Does a request of this handle get headers from the agent? */
  predicate Served(op: Op, heard: seq<Header>, ch: nat) {
    && op.Request? && op.ch == Some(ch) && op.segment && op.crossProcess && !AnyNewrelic(heard)
    && op.generated.Some? && op.constant
  }

  /** What the last request that got headers, since the user set a list, got from the agent. */
  function LastGenerated(ops: seq<Op>, ch: nat): seq<Header> {
    if ops == [] then []
    else
      var before, op := ops[..|ops| - 1], ops[|ops| - 1];
      match op
      case UserSets(c, v, _) => if c == Some(ch) && Taken(v).Some? then [] else LastGenerated(before, ch)
      case Request(_, _, _, generated, _) =>
        if Served(op, HeardList(before, ch), ch) then Formatted(generated.value) else LastGenerated(before, ch)
      case Forget => LastGenerated(before, ch)
  }

  /** The list curl was handed last, less what was generated: the user's, as long as no request got
      headers, and what was heard by then when one did. */
  function Base(ops: seq<Op>, ch: nat): seq<Header> {
    if ops == [] then []
    else
      var before, op := ops[..|ops| - 1], ops[|ops| - 1];
      match op
      case UserSets(c, v, _) => if c == Some(ch) && Taken(v).Some? then Taken(v).value else Base(before, ch)
      case Request(_, _, _, _, _) =>
        if Served(op, HeardList(before, ch), ch) then HeardList(before, ch) else Base(before, ch)
      case Forget => Base(before, ch)
  }

  lemma StepHeaders(s: State, op: Op, ch: nat)
    requires ch != 0 && s.ignoreSetopt == 0
    ensures var t := Step(s, op);
            && t.ignoreSetopt == 0
            && match op
               case UserSets(c, v, crossProcess) =>
                 && ListOf(t.curl, ch) == (if c == Some(ch) && Taken(v).Some? then Taken(v).value else ListOf(s.curl, ch))
                 && ListOf(t.saved, ch) == (if c == Some(ch) && crossProcess && Saved(v).Some? then Saved(v).value
                                            else ListOf(s.saved, ch))
               case Request(_, _, _, generated, _) =>
                 && ListOf(t.saved, ch) == ListOf(s.saved, ch)
                 && ListOf(t.curl, ch) == (if Served(op, ListOf(s.saved, ch), ch)
                                           then ListOf(s.saved, ch) + Formatted(generated.value)
                                           else ListOf(s.curl, ch))
               case Forget => ListOf(t.saved, ch) == [] && ListOf(t.curl, ch) == ListOf(s.curl, ch)
  {
  }

  /** What is saved and what curl has, after any run whatever. */
  lemma {:induction false} ListsOfRun(ops: seq<Op>, ch: nat)
    requires ch != 0
    ensures Run(ops).ignoreSetopt == 0
    ensures ListOf(Run(ops).saved, ch) == HeardList(ops, ch)
    ensures ListOf(Run(ops).curl, ch) == Base(ops, ch) + LastGenerated(ops, ch)
  {
    if ops != [] {
      var before, op := ops[..|ops| - 1], ops[|ops| - 1];
      ListsOfRun(before, ch);
      StepHeaders(Run(before), op, ch);
      assert Base(ops, ch) + [] == Base(ops, ch);
    }
  }

  lemma {:induction false} HeardIsUsers(ops: seq<Op>, ch: nat)
    requires LastHeard(ops, ch)
    ensures HeardList(ops, ch) == UserList(ops, ch) == Base(ops, ch)
  {
    if ops != [] && LastHeard(ops[..|ops| - 1], ch) {
      HeardIsUsers(ops[..|ops| - 1], ch);
    }
  }

  /** However many requests are made: as long as the list the user set last was heard, curl has it,
      once and in order, followed by the headers of the last request that got any. */
  lemma HeadersOfRun(ops: seq<Op>, ch: nat)
    requires ch != 0 && LastHeard(ops, ch)
    ensures Run(ops).ignoreSetopt == 0
    ensures ListOf(Run(ops).saved, ch) == UserList(ops, ch)
    ensures ListOf(Run(ops).curl, ch) == UserList(ops, ch) + LastGenerated(ops, ch)
  {
    ListsOfRun(ops, ch);
    HeardIsUsers(ops, ch);
  }

  /** Would a request find the user's list saved? Decided by the last operation that matters: the
      list the user set last was heard, as curl sees it, or not heard but the same as the one heard
      before; or the agent has forgotten all lists, and the user's is empty. */
  predicate InStep(ops: seq<Op>, ch: nat) {
    ops == [] ||
    var before := ops[..|ops| - 1];
    match ops[|ops| - 1]
    case UserSets(c, v, crossProcess) =>
      if c == Some(ch) && Taken(v).Some? then
        (if crossProcess then Saved(v) == Taken(v) else Taken(v).value == HeardList(before, ch))
      else InStep(before, ch)
    case Request(_, _, _, _, _) => InStep(before, ch)
    case Forget => UserList(before, ch) == []
  }

  lemma {:induction false} InStepExactly(ops: seq<Op>, ch: nat)
    ensures InStep(ops, ch) <==> HeardList(ops, ch) == UserList(ops, ch)
  {
    if ops != [] {
      InStepExactly(ops[..|ops| - 1], ch);
    }
  }

  /** Has the last request that got headers, since the user set a list, found that list saved? */
  predicate Spared(ops: seq<Op>, ch: nat) {
    ops == [] ||
    var before, op := ops[..|ops| - 1], ops[|ops| - 1];
    match op
    case UserSets(c, v, _) => (c == Some(ch) && Taken(v).Some?) || Spared(before, ch)
    case Request(_, _, _, _, _) =>
      if Served(op, HeardList(before, ch), ch) then InStep(before, ch) else Spared(before, ch)
    case Forget => Spared(before, ch)
  }

  lemma {:induction false} BaseIsUsers(ops: seq<Op>, ch: nat)
    ensures Base(ops, ch) == UserList(ops, ch) <==> Spared(ops, ch)
  {
    if ops != [] {
      BaseIsUsers(ops[..|ops| - 1], ch);
      InStepExactly(ops[..|ops| - 1], ch);
    }
  }

  /** After any run whatever, curl has the user's list followed by generated headers exactly when the
      last request that got headers since then found it saved. */
  lemma SurvivesExactly(ops: seq<Op>, ch: nat)
    requires ch != 0
    ensures ListOf(Run(ops).curl, ch) == UserList(ops, ch) + LastGenerated(ops, ch) <==> Spared(ops, ch)
  {
    ListsOfRun(ops, ch);
    BaseIsUsers(ops, ch);
    var base, user, tail := Base(ops, ch), UserList(ops, ch), LastGenerated(ops, ch);
    if base + tail == user + tail {
      assert |base| == |user|;
      assert (base + tail)[..|base|] == base && (user + tail)[..|user|] == user;
    }
  }

  /** The next request that gets headers replaces what curl has by the list heard last; the user's
      survives that exactly if the two are in step, as they are when the user's was heard. */
  lemma ReplacedUnlessSaved(ops: seq<Op>, ch: nat, generated: seq<(string, string)>)
    requires ch != 0 && !AnyNewrelic(HeardList(ops, ch))
    ensures var more := ops + [Request(Some(ch), true, true, Some(generated), true)];
            && ListOf(Run(more).curl, ch) == HeardList(ops, ch) + Formatted(generated)
            && (ListOf(Run(more).curl, ch) == UserList(ops, ch) + Formatted(generated) <==> InStep(ops, ch))
            && (LastHeard(ops, ch) ==> InStep(ops, ch))
  {
    var op := Request(Some(ch), true, true, Some(generated), true);
    var more := ops + [op];
    assert more[..|ops|] == ops;
    ListsOfRun(more, ch);
    SurvivesExactly(more, ch);
    InStepExactly(ops, ch);
    if LastHeard(ops, ch) {
      HeardIsUsers(ops, ch);
    }
  }

  /** A list set while the agent was not listening is lost with the first such request. */
  lemma UnheardListLost(list: seq<Header>, generated: seq<(string, string)>)
    ensures var ops := [UserSets(Some(1), Array(list), false)];
            && UserList(ops, 1) == list && ListOf(Run(ops).curl, 1) == list
            && ListOf(Run(ops + [Request(Some(1), true, true, Some(generated), true)]).curl, 1) == Formatted(generated)
  {
    var ops := [UserSets(Some(1), Array(list), false)];
    var request := Request(Some(1), true, true, Some(generated), true);
    assert ops[..0] == [] && (ops + [request])[..1] == ops;
    assert Run(ops) == State(map[], map[1 := list], 0);
    assert [] + Formatted(generated) == Formatted(generated);
  }

  /** A request without a segment leaves curl alone: then curl has exactly the user's list if and only
      if the last request that got headers since that list was set, if there is one, got none. */
  lemma WithoutSegment(ops: seq<Op>, op: Op, ch: nat)
    requires ch != 0 && LastHeard(ops, ch) && op.Request? && op.ch == Some(ch) && !op.segment
    ensures var s := Run(ops + [op]);
            && s == Run(ops)
            && (ListOf(s.curl, ch) == UserList(ops, ch) <==> LastGenerated(ops, ch) == [])
  {
    assert (ops + [op])[..|ops|] == ops;
    HeadersOfRun(ops, ch);
    var user, more := UserList(ops, ch), LastGenerated(ops, ch);
    assert |user + more| == |user| + |more|;
    assert user + [] == user;
  }

  /** The headers of an earlier request stay. */
  lemma GeneratedStay(list: seq<Header>, generated: seq<(string, string)>)
    requires !AnyNewrelic(list) && generated != []
    ensures var ops := [UserSets(Some(1), Array(list), true)] + [Request(Some(1), true, true, Some(generated), true)];
            var s := Run(ops + [Request(Some(1), false, true, None, true)]);
            ListOf(s.curl, 1) == list + Formatted(generated) != list == UserList(ops, 1)
  {
    var a, served := [UserSets(Some(1), Array(list), true)], Request(Some(1), true, true, Some(generated), true);
    var op := Request(Some(1), false, true, None, true);
    assert a[..0] == [] && (a + [served])[..1] == a;
    assert UserList(a, 1) == list && HeardList(a, 1) == list && LastHeard(a, 1);
    assert UserList(a + [served], 1) == list && LastHeard(a + [served], 1);
    assert LastGenerated(a + [served], 1) == Formatted(generated);
    WithoutSegment(a + [served], op, 1);
    HeadersOfRun(a + [served], 1);
    assert |list + Formatted(generated)| > |list|;
  }

  // ------------------------------------------------------------------------
  // The text that curl is handed.
  // ------------------------------------------------------------------------

  lemma LastStep(ops: seq<Op>, op: Op)
    ensures Run(ops + [op]) == Step(Run(ops), op)
  {
    var more := ops + [op];
    assert more[..|more| - 1] == ops && more[|more| - 1] == op;
  }

  /** A header's text: the name, a colon and a blank, and the value. */
  predicate Spells(h: Header, name: string, value: string) {
    && h.Text? && |h.text| == |name| + 2 + |value|
    && h.text[..|name|] == name && h.text[|name|] == ':' && h.text[|name| + 1] == ' '
    && h.text[|name| + 2..] == value
  }

  /** Whoever splits the text at its first colon gets the name, unless that has a colon itself. */
  lemma NameReadBack(h: Header, name: string, value: string)
    requires Spells(h, name, value)
    ensures IndexOfChar(h.text, ':') == |name| <==> ':' !in name
  {
    assert forall k :: 0 <= k < |name| ==> h.text[k] == h.text[..|name|][k] == name[k];
  }

  lemma FormattedSpells(generated: seq<(string, string)>, i: nat)
    requires i < |generated|
    ensures |Formatted(generated)| == |generated|
    ensures Spells(Formatted(generated)[i], generated[i].0, generated[i].1)
  {
    var name, value, h := generated[i].0, generated[i].1, Formatted(generated)[i];
    assert h.text == name + ": " + value;
    assert h.text[..|name|] == name && h.text[|name| + 2..] == value;
  }

  /** The saved list, followed by one text for each generated header. */
  ghost predicate Handed(list: seq<Header>, saved: seq<Header>, generated: seq<(string, string)>) {
    && |list| == |saved| + |generated| && saved <= list
    && forall i :: 0 <= i < |generated| ==> Spells(list[|saved| + i], generated[i].0, generated[i].1)
  }

  lemma HandedFormatted(saved: seq<Header>, generated: seq<(string, string)>)
    ensures Handed(saved + Formatted(generated), saved, generated)
  {
    var list := saved + Formatted(generated);
    assert |Formatted(generated)| == |generated|;
    forall i | 0 <= i < |generated|
      ensures Spells(list[|saved| + i], generated[i].0, generated[i].1)
    {
      FormattedSpells(generated, i);
    }
  }

  ghost predicate NoneVendors(list: seq<Header>) {
    forall h :: h in list ==> !(h.Text? && NamesVendor(h.text))
  }

  lemma NoneVendorsExactly(list: seq<Header>)
    ensures AnyNewrelic(list) <==> !NoneVendors(list)
  {
    forall h | h in list
      ensures IsNewrelic(h) <==> h.Text? && NamesVendor(h.text)
    {
      OneTestDecides(h);
    }
  }

  lemma RequestStep(s: State, ch: nat, generated: seq<(string, string)>)
    requires ch != 0 && !AnyNewrelic(ListOf(s.saved, ch))
    ensures Step(s, Request(Some(ch), true, true, Some(generated), true))
            == s.(curl := s.curl[ch := ListOf(s.saved, ch) + Formatted(generated)])
  {
  }

  /** After a request that gets headers curl has what was saved, followed by one text for each
      generated header, its name in front of its value. */
  lemma HandedTexts(ops: seq<Op>, ch: nat, generated: seq<(string, string)>)
    requires ch != 0 && NoneVendors(ListOf(Run(ops).saved, ch))
    ensures var s, t := Run(ops), Run(ops + [Request(Some(ch), true, true, Some(generated), true)]);
            && ch in t.curl && Handed(t.curl[ch], ListOf(s.saved, ch), generated)
            && t == s.(curl := s.curl[ch := t.curl[ch]])
  {
    var s := Run(ops);
    LastStep(ops, Request(Some(ch), true, true, Some(generated), true));
    NoneVendorsExactly(ListOf(s.saved, ch));
    RequestStep(s, ch, generated);
    HandedFormatted(ListOf(s.saved, ch), generated);
  }

  /** In any other case a request hands curl nothing. */
  lemma NothingHanded(ops: seq<Op>, op: Op)
    requires op.Request?
    requires op.ch == None || op.ch == Some(0) || !op.segment || !op.crossProcess || op.generated == None || !op.constant
             || !NoneVendors(ListOf(Run(ops).saved, op.ch.value))
    ensures Run(ops + [op]) == Run(ops)
  {
    LastStep(ops, op);
    if op.ch.Some? {
      NoneVendorsExactly(ListOf(Run(ops).saved, op.ch.value));
    }
  }

  /** What the user sets: curl takes the array, or what it sees of the object, and the agent, when it
      listens to a real handle, saves the array, or what iterating over the object gives. */
  lemma SetByUser(ops: seq<Op>, ch: nat, list: seq<Header>, iterated: seq<Header>, crossProcess: bool)
    ensures var s, saves := Run(ops), crossProcess && ch != 0;
            && Run(ops + [UserSets(Some(ch), Array(list), crossProcess)])
               == s.(curl := s.curl[ch := list], saved := if saves then s.saved[ch := list] else s.saved)
            && Run(ops + [UserSets(Some(ch), Traversable(iterated, list), crossProcess)])
               == s.(curl := s.curl[ch := list], saved := if saves then s.saved[ch := iterated] else s.saved)
            && Run(ops + [UserSets(Some(ch), Other, crossProcess)]) == s
            && Run(ops + [UserSets(None, Array(list), crossProcess)]) == s
            && Run(ops + [Forget]) == s.(saved := map[])
  {
    LastStep(ops, UserSets(Some(ch), Array(list), crossProcess));
    LastStep(ops, UserSets(Some(ch), Traversable(iterated, list), crossProcess));
    LastStep(ops, UserSets(Some(ch), Other, crossProcess));
    LastStep(ops, UserSets(None, Array(list), crossProcess));
    LastStep(ops, Forget);
    ListsOfRun(ops, 1);
  }
}
