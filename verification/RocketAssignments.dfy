/** The scanner for "key => value" lines: agent/php_environment.c. */
module RocketAssignments {
  import opened CStrings

  datatype Pair = Pair(key: string, value: string)

  // ------------------------------------------------------------------------
  // The meaning of a text, line by line. Nothing here overwrites anything.
  // ------------------------------------------------------------------------

  /** The first '=' or newline of t at or after position j, or |t|. */
  function KeyEnd(t: string, j: nat): (e: nat)
    requires j <= |t|
    ensures j <= e <= |t|
    ensures e < |t| ==> t[e] == '=' || t[e] == '\n'
    ensures forall i :: j <= i < e ==> t[i] != '=' && t[i] != '\n'
    decreases |t| - j
  {
    if j == |t| || t[j] == '=' || t[j] == '\n' then j else KeyEnd(t, j + 1)
  }

  /** The recorded key: one blank before the '=' is dropped, and a C reader stops at a NUL. */
  function KeyText(k: string): string
    requires k != ""
  {
    CStr(if k[|k| - 1] == ' ' then k[..|k| - 1] else k)
  }

  /** The hash refuses an empty key, and then nothing is recorded. */
  function Recorded(key: string, value: string): (ps: seq<Pair>)
    ensures |ps| <= 1
  {
    if key == "" then [] else [Pair(key, value)]
  }

  /** Everything recorded from a text: the first line is skipped. */
  function Assignments(text: string): seq<Pair> {
    var n := IndexOfChar(text, '\n');
    if n < 0 then [] else Lines(text[n + 1..])
  }

  /** Everything recorded from a text that starts at the beginning of a line. */
  function Lines(t: string): seq<Pair>
    decreases |t|, 2
  {
    if t == "" then []
    else if t[0] == '\n' then Lines(t[1..])
    else
      var e := KeyEnd(t, 1);
      if e == |t| then []
      else if t[e] == '\n' then Lines(t[e + 1..])
      else AfterEquals(KeyText(t[..e]), t[e + 1..])
  }

  /** Two bytes behind the '=' are skipped without being looked at. */
  function AfterEquals(key: string, v: string): seq<Pair>
    decreases |v|, 1
  {
    if |v| < 2 then [] else Value(key, v[2..])
  }

  /** A value runs to the end of its line. An empty one swallows the newline and the byte after it. */
  function Value(key: string, w: string): seq<Pair>
    decreases |w|, 0
  {
    if w == "" then []
    else if w[0] == '\n' then
      if |w| == 1 then [] else Recorded(key, "\n") + Lines(w[2..])
    else
      var m := IndexOfChar(w, '\n');
      if m < 0 then [] else Recorded(key, CStr(w[..m])) + Lines(w[m + 1..])
  }

  /** The hash after a run of set operations: a later value replaces an earlier one. */
  function SetAll(m: map<string, string>, ps: seq<Pair>): map<string, string>
    decreases |ps|
  {
    if ps == [] then m else SetAll(m, ps[..|ps| - 1])[ps[|ps| - 1].key := ps[|ps| - 1].value]
  }

  lemma SetAllAppend(m: map<string, string>, ps: seq<Pair>, p: Pair)
    ensures SetAll(m, ps + [p]) == SetAll(m, ps)[p.key := p.value]
  {
    assert (ps + [p])[..|ps|] == ps;
  }

  // ------------------------------------------------------------------------
  // The state machine over the buffer.
  // ------------------------------------------------------------------------

  class KvHash {
    var entries: map<string, string>

    /** An empty key is an error to the search for it, and nothing is set. */
    method SetHashString(key: string, value: string)
      modifies this
      ensures entries == if key == "" then old(entries) else old(entries)[key := value]
    {
      if key == "" {
        return;
      }
      entries := entries[key := value];
    }
  }

  /** Text that the key scanner runs through: it starts a key and has not ended it. */
  predicate IsOpenKey(k: string) {
    k != "" && k[0] != '\n' && forall i :: 0 < i < |k| ==> k[i] != '=' && k[i] != '\n'
  }

  lemma OpenKeyEnd(k: string, rest: string)
    requires IsOpenKey(k)
    requires rest != "" ==> rest[0] == '=' || rest[0] == '\n'
    ensures KeyEnd(k + rest, 1) == |k|
  {
    var t := k + rest;
    assert forall i :: 0 < i < |k| ==> t[i] == k[i];
    assert rest != "" ==> t[|k|] == rest[0];
  }

  /** What is still to be recorded when the scanner meets the end of a key, or runs out of text. */
  lemma KeyEnds(k: string, rest: string)
    requires IsOpenKey(k)
    ensures rest == "" ==> Lines(k + rest) == []
    ensures rest != "" && rest[0] == '\n' ==> Lines(k + rest) == Lines(rest[1..])
    ensures rest != "" && rest[0] == '=' ==> Lines(k + rest) == AfterEquals(KeyText(k), rest[1..])
  {
    var t := k + rest;
    assert t[0] == k[0];
    if rest == "" || rest[0] == '\n' || rest[0] == '=' {
      OpenKeyEnd(k, rest);
    }
    if rest != "" {
      assert t[|k|] == rest[0];
      assert t[..|k|] == k;
      assert t[|k| + 1..] == rest[1..];
    }
  }

  lemma ValueUpTo(key: string, w: string, m: nat)
    requires 0 < m < |w| && w[m] == '\n' && '\n' !in w[..m]
    ensures Value(key, w) == Recorded(key, CStr(w[..m])) + Lines(w[m + 1..])
  {
    assert w[..m][0] == w[0];
    IndexOfCharIs(w, '\n', m);
  }

  /** What is still to be recorded when the scanner meets the end of a value, or runs out of text. */
  lemma ValueEnds(key: string, v: string, rest: string)
    requires v != "" && '\n' !in v
    ensures rest == "" ==> Value(key, v + rest) == []
    ensures rest != "" && rest[0] == '\n' ==> Value(key, v + rest) == Recorded(key, CStr(v)) + Lines(rest[1..])
  {
    if rest == "" {
      assert v + rest == v;
    } else if rest[0] == '\n' {
      var w := v + rest;
      assert w[..|v|] == v && w[|v|] == '\n';
      assert w[|v| + 1..] == rest[1..];
      ValueUpTo(key, w, |v|);
    }
  }

  lemma FirstLineStep(t: string)
    requires t != ""
    ensures Assignments(t) == if t[0] == '\n' then Lines(t[1..]) else Assignments(t[1..])
  {
    var n := IndexOfChar(t, '\n');
    if n > 0 {
      assert t[n + 1..] == t[1..][n..];
    }
  }

  // ------------------------------------------------------------------------
  // The scanner as a transition system over the buffer's bytes.
  // ------------------------------------------------------------------------

  // The C variables at the head of the loop; key and value are positions.
  datatype Scan = Scan(state: int, key: int, value: int, s: int)
  datatype Next = Next(buf: string, c: Scan, recorded: seq<Pair>)

  predicate Sane(buf: string, len: nat, c: Scan) {
    && len <= |buf| && 0 <= c.state <= 6 && 0 <= c.s <= len + 1
    && (2 <= c.state ==> 0 <= c.key < c.s)
    && (3 <= c.state <= 4 ==> c.key < c.s - 1)
    && (5 <= c.state ==> c.key < c.value < c.s <= len)
    && (c.s == len + 1 ==> c.state == 4)
  }

  function Step(buf: string, len: nat, c: Scan): (n: Next)
    requires Sane(buf, len, c) && c.s < len
    ensures |n.buf| == |buf| && Sane(n.buf, len, n.c)
    ensures |n.recorded| <= 1
    ensures n.c.s > c.s || (n.c.s == c.s && c.state == 5 && n.c.state == 6)
  {
    var newline := buf[c.s] == '\n';
    match c.state
    case 0 => Next(buf, c.(state := if newline then 1 else 0, s := c.s + 1), [])
    case 1 => Next(buf, Scan(if newline then 1 else 2, c.s, c.value, c.s + 1), [])
    case 2 =>
      if buf[c.s] == '=' then
        Next(if buf[c.s - 1] == ' ' then buf[c.s - 1 := NUL] else buf, c.(state := 3, s := c.s + 1), [])
      else
        Next(buf, c.(state := if newline then 1 else 2, s := c.s + 1), [])
    case 3 => Next(buf[c.s - 1 := NUL], c.(state := 4, s := c.s + 2), [])
    case 4 => Next(buf, Scan(if newline then 6 else 5, c.key, c.s, c.s + 1), [])
    case 5 => Next(buf, if newline then c.(state := 6) else c.(s := c.s + 1), [])
    case _ =>
      var b := buf[c.s := NUL];
      Next(b, c.(state := 1, s := c.s + 1), Recorded(CStr(b[c.key..len]), CStr(b[c.value..len])))
  }

  /** The final buffer and everything recorded on the way. The step from state 5 to state 6
      consumes nothing, so the measure is lexicographic. */
  function Run(buf: string, len: nat, c: Scan): (n: Next)
    requires Sane(buf, len, c)
    decreases len + 1 - c.s, if c.state == 5 then 1 else 0
  {
    if c.s >= len then Next(buf, c, [])
    else
      var n := Step(buf, len, c);
      var m := Run(n.buf, len, n.c);
      m.(recorded := n.recorded + m.recorded)
  }

  lemma SetAllStep(was: map<string, string>, done: seq<Pair>, more: seq<Pair>)
    requires |more| <= 1
    ensures SetAll(was, done + more)
            == if more == [] then SetAll(was, done) else SetAll(was, done)[more[0].key := more[0].value]
  {
    if more == [] {
      assert done + more == done;
    } else {
      SetAllAppend(was, done, more[0]);
      assert done + more == done + [more[0]];
    }
  }

  lemma RunStep(buf: string, len: nat, c: Scan, done: seq<Pair>)
    requires Sane(buf, len, c) && c.s < len
    ensures var n := Step(buf, len, c);
            && Run(buf, len, c).buf == Run(n.buf, len, n.c).buf
            && done + Run(buf, len, c).recorded == (done + n.recorded) + Run(n.buf, len, n.c).recorded
  {
    var r := Step(buf, len, c).recorded;
    var m := Run(Step(buf, len, c).buf, len, Step(buf, len, c).c).recorded;
    assert done + (r + m) == (done + r) + m;
  }

  /** Ends a value: cuts the text at s and hands over the two C strings. */
  method EndValue(buffer: array<char>, len: nat, key: nat, value: nat, s: nat, kvHash: KvHash)
    requires key < value < s < len <= buffer.Length
    modifies buffer, kvHash
    ensures buffer[..] == old(buffer[..])[s := NUL]
    ensures var b := old(buffer[..])[s := NUL];
            kvHash.entries == (if CStr(b[key..len]) == "" then old(kvHash.entries)
                               else old(kvHash.entries)[CStr(b[key..len]) := CStr(b[value..len])])
  {
    buffer[s] := NUL;
    ghost var b := old(buffer[..])[s := NUL];
    assert buffer[key..len] == b[key..len] && buffer[value..len] == b[value..len];
    kvHash.SetHashString(CStr(buffer[key..len]), CStr(buffer[value..len]));
  }

  /** The scanner itself: it stays inside the buffer, terminates, and does what Run says. */
  method ScanBuffer(buffer: array<char>, len: nat, kvHash: KvHash)
    requires len <= buffer.Length
    modifies buffer, kvHash
    ensures var n := Run(old(buffer[..]), len, Scan(0, -1, -1, 0));
            buffer[..] == n.buf && kvHash.entries == SetAll(old(kvHash.entries), n.recorded)
  {
    var key, value, state, s := -1, -1, 0, 0;
    ghost var recorded: seq<Pair> := [];
    ghost var run := Run(buffer[..], len, Scan(0, -1, -1, 0));
    while s < len
      invariant Sane(buffer[..], len, Scan(state, key, value, s))
      invariant var m := Run(buffer[..], len, Scan(state, key, value, s));
                run.buf == m.buf && run.recorded == recorded + m.recorded
      invariant kvHash.entries == SetAll(old(kvHash.entries), recorded)
      decreases len + 1 - s, if state == 5 then 1 else 0
    {
      ghost var was := buffer[..];
      ghost var n := Step(was, len, Scan(state, key, value, s));
      RunStep(was, len, Scan(state, key, value, s), recorded);
      SetAllStep(old(kvHash.entries), recorded, n.recorded);
      match state {
        case 0 =>
          if '\n' == buffer[s] {
            state := 1;
          }
          s := s + 1;
        case 1 =>
          key := s;
          state := 2;
          if '\n' == buffer[s] {
            state := 1;
          }
          s := s + 1;
        case 2 =>
          if '=' == buffer[s] {
            state := 3;
            if ' ' == buffer[s - 1] {
              buffer[s - 1] := NUL;
            }
          }
          if '\n' == buffer[s] {
            state := 1;
          }
          s := s + 1;
        case 3 =>
          buffer[s - 1] := NUL;
          s := s + 1;
          s := s + 1;
          state := 4;
        case 4 =>
          value := s;
          state := 5;
          if '\n' == buffer[s] {
            state := 6;
          }
          s := s + 1;
        case 5 =>
          if '\n' == buffer[s] {
            state := 6;
          } else {
            s := s + 1;
          }
        case _ =>
          EndValue(buffer, len, key, value, s, kvHash);
          state := 1;
          s := s + 1;
      }
      assert buffer[..] == n.buf && Scan(state, key, value, s) == n.c;
      recorded := recorded + n.recorded;
    }
    assert recorded + [] == recorded;
  }

  // ------------------------------------------------------------------------
  // The transition system records the meaning of the text it destroys.
  // ------------------------------------------------------------------------

  // The bytes of the key and of the value gathered so far and the text not yet read.
  datatype Gathered = Gathered(k: string, v: string, rest: string) {
    function Skip(): Gathered
      requires rest != ""
    {
      this.(rest := rest[1..])
    }

    function StartKey(): Gathered
      requires rest != ""
    {
      Gathered([rest[0]], v, rest[1..])
    }

    function GrowKey(): Gathered
      requires rest != ""
    {
      Gathered(k + [rest[0]], v, rest[1..])
    }

    /** The blank in front of the '=' is overwritten, and so changes the bytes gathered. */
    function EndKey(): Gathered
      requires k != "" && rest != ""
    {
      Gathered(if k[|k| - 1] == ' ' then k[..|k| - 1] + [NUL] else k, v, rest[1..])
    }

    function SkipTwo(): Gathered {
      this.(rest := if |rest| < 2 then "" else rest[2..])
    }

    function StartValue(): Gathered
      requires rest != ""
    {
      Gathered(k, [rest[0]], rest[1..])
    }

    function GrowValue(): Gathered
      requires rest != ""
    {
      Gathered(k, v + [rest[0]], rest[1..])
    }

    ghost predicate AtValueEnd() {
      rest != "" && (v == "\n" || (v != "" && '\n' !in v && rest[0] == '\n'))
    }
  }

  // A reading of what is still to be recorded, in each state.
  type Reading = (int, Gathered) -> seq<Pair>

  /** What a reading must satisfy in a state at g for the scanner's steps to respect it. */
  ghost predicate LawAt(pending: Reading, state: int, g: Gathered) {
    var more, newline := g.rest != "", g.rest != "" && g.rest[0] == '\n';
    match state
    case 0 => pending(0, g) == if more then pending(if newline then 1 else 0, g.Skip()) else []
    case 1 =>
      pending(1, g) == if !more then [] else if newline then pending(1, g.Skip()) else pending(2, g.StartKey())
    case 2 =>
      IsOpenKey(g.k) ==>
        pending(2, g) ==
          if !more then []
          else if g.rest[0] == '=' then pending(3, g.EndKey())
          else if newline then pending(1, g.Skip()) else pending(2, g.GrowKey())
    case 3 => pending(3, g) == if more then pending(4, g.SkipTwo()) else []
    case 4 => pending(4, g) == if more then pending(if newline then 6 else 5, g.StartValue()) else []
    case 5 =>
      g.v != "" && '\n' !in g.v ==>
        pending(5, g) == if !more then [] else if newline then pending(6, g) else pending(5, g.GrowValue())
    case _ =>
      && (g.v == "\n" && !more ==> pending(6, g) == [])
      && (g.AtValueEnd() ==> pending(6, g) == Recorded(CStr(g.k), CStr(g.v)) + pending(1, g.Skip()))
  }

  ghost predicate Lawful(pending: Reading) {
    forall state, g {:trigger LawAt(pending, state, g)} :: 0 <= state <= 6 ==> LawAt(pending, state, g)
  }

  ghost predicate PartOf(t: string, buf: string, at: int) {
    0 <= at && at + |t| <= |buf| && forall i {:trigger t[i]} :: 0 <= i < |t| ==> buf[at + i] == t[i]
  }

  /** How the positions of c relate to the bytes gathered. */
  ghost predicate Located(buf: string, len: nat, c: Scan, g: Gathered) {
    && Sane(buf, len, c)
    && (if c.s <= len then PartOf(g.rest, buf, c.s) && c.s + |g.rest| == len else g.rest == "")
    && (2 <= c.state ==> PartOf(g.k, buf, c.key))
    && (c.state == 2 ==> c.key + |g.k| == c.s && IsOpenKey(g.k))
    && (c.state == 3 ==> c.key + |g.k| + 1 == c.s)
    && (c.state == 4 ==> c.key + |g.k| + 3 == c.s)
    && (4 <= c.state ==> c.key + |g.k| < len && buf[c.key + |g.k|] == NUL)
    && (5 <= c.state ==>
          g.v != "" && c.key + |g.k| < c.value && c.value + |g.v| == c.s && PartOf(g.v, buf, c.value))
    && (c.state == 5 ==> '\n' !in g.v)
    && (c.state == 6 ==> g.v == "\n" || ('\n' !in g.v && g.rest != "" && g.rest[0] == '\n'))
  }

  /** Cutting the buffer at s makes a part that ends there, or at an earlier NUL, a C string. */
  lemma CutText(buf: string, len: nat, s: nat, at: int, t: string)
    requires PartOf(t, buf, at) && at + |t| <= s < len <= |buf|
    requires at + |t| == s || buf[at + |t|] == NUL
    ensures CStr(buf[s := NUL][at..len]) == CStr(t)
  {
    CStrCut(buf[s := NUL][at..len], t);
  }

  lemma EndKeyLocated(buf: string, len: nat, c: Scan, g: Gathered)
    requires Located(buf, len, c, g) && c.s < len && c.state == 2 && buf[c.s] == '='
    ensures g.rest != ""
    ensures var n := Step(buf, len, c); Located(n.buf, len, n.c, g.EndKey())
  {
    assert buf[c.key + (|g.k| - 1)] == g.k[|g.k| - 1];
  }

  lemma PartBehind(t: string, buf: string, at: int)
    requires PartOf(t, buf, at) && t != ""
    ensures PartOf(t[1..], buf[at := NUL], at + 1)
  {
  }

  lemma CutLocated(buf: string, len: nat, c: Scan, g: Gathered)
    requires Located(buf, len, c, g) && c.s < len && c.state == 6
    ensures g.AtValueEnd() && Located(buf[c.s := NUL], len, c.(state := 1, s := c.s + 1), g.Skip())
  {
    PartBehind(g.rest, buf, c.s);
  }

  lemma LastState(buf: string, len: nat, c: Scan)
    requires Sane(buf, len, c) && c.s < len && c.state == 6
    ensures Step(buf, len, c).buf == buf[c.s := NUL] && Step(buf, len, c).c == c.(state := 1, s := c.s + 1)
  {
  }

  /** When a value ends, the two C strings in the buffer are the gathered key and value. */
  lemma EndValueTexts(buf: string, len: nat, c: Scan, g: Gathered)
    requires Located(buf, len, c, g) && c.s < len && c.state == 6
    ensures Step(buf, len, c).recorded == Recorded(CStr(g.k), CStr(g.v))
  {
    CutText(buf, len, c.s, c.key, g.k);
    CutText(buf, len, c.s, c.value, g.v);
  }

  /** One step moves from g to g', and what it records is no longer pending. */
  ghost predicate Respects(pending: Reading, buf: string, len: nat, c: Scan, g: Gathered, g': Gathered)
    requires Sane(buf, len, c) && c.s < len
  {
    var n := Step(buf, len, c);
    Located(n.buf, len, n.c, g') && pending(c.state, g) == n.recorded + pending(n.c.state, g')
  }

  lemma StepFirstLine(pending: Reading, buf: string, len: nat, c: Scan, g: Gathered)
    requires Lawful(pending) && Located(buf, len, c, g) && c.s < len && c.state == 0
    ensures g.rest != "" && Respects(pending, buf, len, c, g, g.Skip())
  {
    assert LawAt(pending, c.state, g) && buf[c.s] == g.rest[0];
  }

  lemma StepStartKey(pending: Reading, buf: string, len: nat, c: Scan, g: Gathered)
    requires Lawful(pending) && Located(buf, len, c, g) && c.s < len && c.state == 1
    ensures g.rest != "" && Respects(pending, buf, len, c, g, if g.rest[0] == '\n' then g.Skip() else g.StartKey())
  {
    assert LawAt(pending, c.state, g) && buf[c.s] == g.rest[0];
  }

  lemma StepInKey(pending: Reading, buf: string, len: nat, c: Scan, g: Gathered)
    requires Lawful(pending) && Located(buf, len, c, g) && c.s < len && c.state == 2 && buf[c.s] != '='
    ensures g.rest != "" && Respects(pending, buf, len, c, g, if g.rest[0] == '\n' then g.Skip() else g.GrowKey())
  {
    assert LawAt(pending, c.state, g) && buf[c.s] == g.rest[0];
  }

  lemma StepEndKey(pending: Reading, buf: string, len: nat, c: Scan, g: Gathered)
    requires Lawful(pending) && Located(buf, len, c, g) && c.s < len && c.state == 2 && buf[c.s] == '='
    ensures g.rest != "" && Respects(pending, buf, len, c, g, g.EndKey())
  {
    assert LawAt(pending, c.state, g) && buf[c.s] == g.rest[0];
    EndKeyLocated(buf, len, c, g);
  }

  lemma StepSkipTwo(pending: Reading, buf: string, len: nat, c: Scan, g: Gathered)
    requires Lawful(pending) && Located(buf, len, c, g) && c.s < len && c.state == 3
    ensures g.rest != "" && Respects(pending, buf, len, c, g, g.SkipTwo())
  {
    assert LawAt(pending, c.state, g) && buf[c.s] == g.rest[0];
  }

  lemma StepStartValue(pending: Reading, buf: string, len: nat, c: Scan, g: Gathered)
    requires Lawful(pending) && Located(buf, len, c, g) && c.s < len && c.state == 4
    ensures g.rest != "" && Respects(pending, buf, len, c, g, g.StartValue())
  {
    assert LawAt(pending, c.state, g) && buf[c.s] == g.rest[0];
  }

  lemma StepInValue(pending: Reading, buf: string, len: nat, c: Scan, g: Gathered)
    requires Lawful(pending) && Located(buf, len, c, g) && c.s < len && c.state == 5
    ensures g.rest != "" && Respects(pending, buf, len, c, g, if g.rest[0] == '\n' then g else g.GrowValue())
  {
    assert LawAt(pending, c.state, g) && buf[c.s] == g.rest[0];
  }

  lemma LawEndValue(pending: Reading, g: Gathered)
    requires Lawful(pending) && g.AtValueEnd()
    ensures pending(6, g) == Recorded(CStr(g.k), CStr(g.v)) + pending(1, g.Skip())
  {
    assert LawAt(pending, 6, g);
  }

  lemma StepEndValue(pending: Reading, buf: string, len: nat, c: Scan, g: Gathered)
    requires Lawful(pending) && Located(buf, len, c, g) && c.s < len && c.state == 6
    ensures g.rest != "" && Respects(pending, buf, len, c, g, g.Skip())
  {
    CutLocated(buf, len, c, g);
    LastState(buf, len, c);
    EndValueTexts(buf, len, c, g);
    LawEndValue(pending, g);
  }

  lemma OneStep(pending: Reading, buf: string, len: nat, c: Scan, g: Gathered) returns (g': Gathered)
    requires Lawful(pending) && Located(buf, len, c, g) && c.s < len
    ensures Respects(pending, buf, len, c, g, g')
  {
    match c.state {
      case 0 => StepFirstLine(pending, buf, len, c, g); return g.Skip();
      case 1 => StepStartKey(pending, buf, len, c, g); return if g.rest[0] == '\n' then g.Skip() else g.StartKey();
      case 2 =>
        if buf[c.s] == '=' {
          StepEndKey(pending, buf, len, c, g);
          return g.EndKey();
        }
        StepInKey(pending, buf, len, c, g);
        return if g.rest[0] == '\n' then g.Skip() else g.GrowKey();
      case 3 => StepSkipTwo(pending, buf, len, c, g); return g.SkipTwo();
      case 4 => StepStartValue(pending, buf, len, c, g); return g.StartValue();
      case 5 => StepInValue(pending, buf, len, c, g); return if g.rest[0] == '\n' then g else g.GrowValue();
      case _ => StepEndValue(pending, buf, len, c, g); return g.Skip();
    }
  }

  lemma {:induction false} RunRecords(pending: Reading, buf: string, len: nat, c: Scan, g: Gathered)
    requires Lawful(pending) && Located(buf, len, c, g)
    ensures Run(buf, len, c).recorded == pending(c.state, g)
    decreases len + 1 - c.s, if c.state == 5 then 1 else 0
  {
    if c.s >= len {
      assert LawAt(pending, c.state, g);
    } else {
      var n := Step(buf, len, c);
      var g' := OneStep(pending, buf, len, c, g);
      RunRecords(pending, n.buf, len, n.c, g');
    }
  }

  /** The reading given by the meaning of a text. */
  ghost function Pending(state: int, g: Gathered): seq<Pair> {
    match state
    case 0 => Assignments(g.rest)
    case 1 => Lines(g.rest)
    case 2 => Lines(g.k + g.rest)
    case 3 => AfterEquals(CStr(g.k), g.rest)
    case 4 => Value(CStr(g.k), g.rest)
    case _ => Value(CStr(g.k), g.v + g.rest)
  }

  lemma EndKeyText(g: Gathered)
    requires g.rest != "" && g.k != ""
    ensures CStr(g.EndKey().k) == KeyText(g.k)
  {
    if g.k[|g.k| - 1] == ' ' {
      CStrCut(g.EndKey().k, g.k[..|g.k| - 1]);
    }
  }

  lemma PendingKeyEnd(g: Gathered)
    requires g.rest != "" && g.rest[0] == '=' && IsOpenKey(g.k)
    ensures Pending(2, g) == Pending(3, g.EndKey())
  {
    KeyEnds(g.k, g.rest);
    EndKeyText(g);
  }

  lemma PendingKey(g: Gathered)
    requires g.rest != "" && g.rest[0] != '=' && IsOpenKey(g.k)
    ensures Pending(2, g) == if g.rest[0] == '\n' then Pending(1, g.Skip()) else Pending(2, g.GrowKey())
  {
    KeyEnds(g.k, g.rest);
    assert (g.k + [g.rest[0]]) + g.rest[1..] == g.k + g.rest;
  }

  lemma PendingValue(g: Gathered)
    requires g.rest != ""
    ensures g.v != "" && '\n' !in g.v ==>
              Pending(5, g) == if g.rest[0] == '\n' then Pending(6, g) else Pending(5, g.GrowValue())
    ensures g.AtValueEnd() ==> Pending(6, g) == Recorded(CStr(g.k), CStr(g.v)) + Pending(1, g.Skip())
  {
    assert (g.v + [g.rest[0]]) + g.rest[1..] == g.v + g.rest;
    if g.v == "\n" {
      assert (g.v + g.rest)[2..] == g.rest[1..];
    } else if g.AtValueEnd() {
      ValueEnds(CStr(g.k), g.v, g.rest);
    }
  }

  lemma PendingFirstLine(g: Gathered)
    requires g.rest != ""
    ensures Pending(0, g) == Pending(if g.rest[0] == '\n' then 1 else 0, g.Skip())
  {
    FirstLineStep(g.rest);
  }

  lemma PendingStartKey(g: Gathered)
    requires g.rest != ""
    ensures Pending(1, g) == if g.rest[0] == '\n' then Pending(1, g.Skip()) else Pending(2, g.StartKey())
  {
    if g.rest[0] != '\n' {
      assert [g.rest[0]] + g.rest[1..] == g.rest;
    }
  }

  lemma PendingStartValue(g: Gathered)
    requires g.rest != ""
    ensures Pending(4, g) == Pending(if g.rest[0] == '\n' then 6 else 5, g.StartValue())
  {
    assert [g.rest[0]] + g.rest[1..] == g.rest;
  }

  lemma PendingEnds(g: Gathered)
    requires g.rest == ""
    ensures IsOpenKey(g.k) ==> Pending(2, g) == []
    ensures g.v != "" && '\n' !in g.v ==> Pending(5, g) == []
    ensures g.v == "\n" ==> Pending(6, g) == []
  {
    if IsOpenKey(g.k) {
      KeyEnds(g.k, "");
    }
    if g.v != "" && '\n' !in g.v {
      ValueEnds(CStr(g.k), g.v, "");
    }
  }

  /** The meaning of a text, as a function that the steps need not look into. */
  ghost predicate IsPending(pending: Reading) {
    forall state, g :: pending(state, g) == Pending(state, g)
  }

  lemma PendingLaw(pending: Reading, state: int, g: Gathered)
    requires IsPending(pending) && 0 <= state <= 6 && g.rest != ""
    ensures LawAt(pending, state, g)
  {
    match state {
      case 0 => PendingFirstLine(g);
      case 1 => PendingStartKey(g);
      case 2 =>
        if IsOpenKey(g.k) {
          if g.rest[0] == '=' {
            PendingKeyEnd(g);
          } else {
            PendingKey(g);
          }
        }
      case 3 =>
      case 4 => PendingStartValue(g);
      case _ => PendingValue(g);
    }
  }

  lemma PendingLawful() returns (pending: Reading)
    ensures Lawful(pending) && forall g :: pending(0, g) == Assignments(g.rest)
  {
    pending := (state, g) => Pending(state, g);
    assert IsPending(pending);
    forall state, g | 0 <= state <= 6
      ensures LawAt(pending, state, g)
    {
      if g.rest == "" {
        PendingEnds(g);
      } else {
        PendingLaw(pending, state, g);
      }
    }
  }

  /** The scanner records what the text meant before it was overwritten. */
  lemma RunRecordsMeaning(buf: string, len: nat)
    requires len <= |buf|
    ensures Run(buf, len, Scan(0, -1, -1, 0)).recorded == Assignments(buf[..len])
  {
    var pending := PendingLawful();
    RunRecords(pending, buf, len, Scan(0, -1, -1, 0), Gathered("", "", buf[..len]));
  }

  ghost predicate OnlyNulsWritten(was: string, now: string, len: nat) {
    |now| == |was| && forall i {:trigger now[i]} :: 0 <= i < |was| ==> now[i] == was[i] || (i < len && now[i] == NUL)
  }

  /** Nothing is written but NULs, and nothing behind the first len bytes. */
  lemma {:induction false} RunOnlyWritesNuls(buf: string, len: nat, c: Scan)
    requires Sane(buf, len, c)
    ensures OnlyNulsWritten(buf, Run(buf, len, c).buf, len)
    decreases len + 1 - c.s, if c.state == 5 then 1 else 0
  {
    if c.s < len {
      var n := Step(buf, len, c);
      assert OnlyNulsWritten(buf, n.buf, len);
      RunOnlyWritesNuls(n.buf, len, n.c);
    }
  }

  /** The entry point: nothing happens without a buffer or a hash; otherwise the hash ends up as
      if the untouched text had been read line by line. */
  method ParseRocketAssignmentList(buffer: array?<char>, len: nat, kvHash: KvHash?)
    requires buffer != null ==> len <= buffer.Length
    modifies buffer, kvHash
    ensures buffer != null && kvHash != null ==>
              kvHash.entries == SetAll(old(kvHash.entries), Assignments(old(buffer[..len])))
    ensures kvHash != null && buffer == null ==> kvHash.entries == old(kvHash.entries)
    ensures buffer != null && kvHash == null ==> buffer[..] == old(buffer[..])
    ensures buffer != null ==> OnlyNulsWritten(old(buffer[..]), buffer[..], len)
  {
    if buffer == null || kvHash == null {
      return;
    }
    ghost var start := buffer[..];
    assert start[..len] == buffer[..len];
    RunRecordsMeaning(start, len);
    RunOnlyWritesNuls(start, len, Scan(0, -1, -1, 0));
    ScanBuffer(buffer, len, kvHash);
  }
}
