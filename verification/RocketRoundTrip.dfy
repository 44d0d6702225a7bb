/** Printing pairs as "key => value" lines and scanning them back: exactly which pairs survive. */
module RocketRoundTrip {
  import opened CStrings
  import opened RocketAssignments

  /** What the key of any line looks like; it may be empty. */
  predicate KeyShape(k: string) {
    NUL !in k && (k != "" ==> k[0] != '\n') && forall i :: 0 < i < |k| ==> k[i] != '=' && k[i] != '\n'
  }

  /** Keys that survive: non-empty ones; an '=' is fine at the very start. */
  predicate KeyOk(k: string) {
    k != "" && KeyShape(k)
  }

  /** Values that survive: non-empty ones on one line, and the lone newline. */
  predicate ValueOk(v: string) {
    NUL !in v && (v == "\n" || (v != "" && '\n' !in v))
  }

  predicate PairOk(p: Pair) {
    KeyOk(p.key) && ValueOk(p.value)
  }

  /** A line that assigns nothing. */
  predicate IsNoise(line: string) {
    NUL !in line && '\n' !in line && forall i :: 0 < i < |line| ==> line[i] != '='
  }

  datatype Entry = Entry(noise: seq<string>, pair: Pair)

  predicate AllNoise(es: seq<Entry>) {
    forall e, line :: e in es && line in e.noise ==> IsNoise(line)
  }

  function PrintPair(p: Pair): string {
    p.key + " => " + p.value + "\n"
  }

  function PrintNoise(noise: seq<string>): string {
    if noise == [] then "" else noise[0] + "\n" + PrintNoise(noise[1..])
  }

  function PrintEntries(es: seq<Entry>): string {
    if es == [] then "" else PrintNoise(es[0].noise) + PrintPair(es[0].pair) + PrintEntries(es[1..])
  }

  function Pairs(es: seq<Entry>): (ps: seq<Pair>)
    ensures |ps| == |es| && forall i :: 0 <= i < |es| ==> ps[i] == es[i].pair
  {
    if es == [] then [] else [es[0].pair] + Pairs(es[1..])
  }

  lemma KeyTextOfPrinted(key: string)
    requires KeyShape(key)
    ensures IsOpenKey(key + " ") && KeyText(key + " ") == key
  {
    assert (key + " ")[..|key|] == key;
  }

  lemma KeyThenEquals(k: string, rest: string)
    requires IsOpenKey(k)
    ensures Lines(k + ("=" + rest)) == AfterEquals(KeyText(k), rest)
  {
    KeyEnds(k, "=" + rest);
    assert ("=" + rest)[1..] == rest;
  }

  lemma AfterArrow(key: string, rest: string)
    ensures AfterEquals(key, "> " + rest) == Value(key, rest)
  {
    assert ("> " + rest)[2..] == rest;
  }

  lemma PrintedValue(key: string, value: string, rest: string)
    requires ValueOk(value) && key != ""
    ensures Value(key, value + "\n" + rest) == [Pair(key, value)] + Lines(rest)
  {
    var tail := "\n" + rest;
    assert value + "\n" + rest == value + tail && tail[1..] == rest;
    if value == "\n" {
      assert (value + tail)[2..] == rest;
    } else {
      ValueEnds(key, value, tail);
    }
  }

  /** What is read behind the arrow of a printed line. */
  lemma PrintedKey(key: string, value: string, rest: string)
    requires KeyShape(key)
    ensures Lines(PrintPair(Pair(key, value)) + rest) == Value(key, value + "\n" + rest)
  {
    var tail := value + "\n" + rest;
    assert PrintPair(Pair(key, value)) + rest == (key + " ") + ("=" + ("> " + tail));
    KeyTextOfPrinted(key);
    KeyThenEquals(key + " ", "> " + tail);
    AfterArrow(key, tail);
  }

  lemma PrintedPair(p: Pair, rest: string)
    requires PairOk(p)
    ensures Lines(PrintPair(p) + rest) == [p] + Lines(rest)
  {
    PrintedKey(p.key, p.value, rest);
    PrintedValue(p.key, p.value, rest);
  }

  lemma NoiseLine(line: string, rest: string)
    requires IsNoise(line)
    ensures Lines(line + "\n" + rest) == Lines(rest)
  {
    var tail := "\n" + rest;
    assert line + "\n" + rest == line + tail && tail[1..] == rest;
    if line == "" {
      assert line + tail == tail;
    } else {
      KeyEnds(line, tail);
    }
  }

  lemma {:induction false} NoiseLines(noise: seq<string>, rest: string)
    requires forall line :: line in noise ==> IsNoise(line)
    ensures Lines(PrintNoise(noise) + rest) == Lines(rest)
  {
    if noise == [] {
      assert PrintNoise(noise) + rest == rest;
    } else {
      NoiseLine(noise[0], PrintNoise(noise[1..]) + rest);
      assert PrintNoise(noise) + rest == noise[0] + "\n" + (PrintNoise(noise[1..]) + rest);
      NoiseLines(noise[1..], rest);
    }
  }

  lemma PrintedEntry(e: Entry, rest: string)
    requires (forall line :: line in e.noise ==> IsNoise(line)) && PairOk(e.pair)
    ensures Lines(PrintNoise(e.noise) + PrintPair(e.pair) + rest) == [e.pair] + Lines(rest)
  {
    NoiseLines(e.noise, PrintPair(e.pair) + rest);
    assert PrintNoise(e.noise) + PrintPair(e.pair) + rest == PrintNoise(e.noise) + (PrintPair(e.pair) + rest);
    PrintedPair(e.pair, rest);
  }

  lemma {:induction false} PrintedEntries(es: seq<Entry>)
    requires AllNoise(es) && forall p :: p in Pairs(es) ==> PairOk(p)
    ensures Lines(PrintEntries(es)) == Pairs(es)
  {
    if es != [] {
      assert es[0].pair in Pairs(es) && es[0] in es;
      assert forall p :: p in Pairs(es[1..]) ==> p in Pairs(es);
      PrintedEntry(es[0], PrintEntries(es[1..]));
      PrintedEntries(es[1..]);
    }
  }

  // ------------------------------------------------------------------------
  // Nothing else survives: the shape of whatever the scanner records, from any text.
  // ------------------------------------------------------------------------

  predicate RecordedShape(p: Pair, text: string) {
    && KeyOk(p.key)
    && NUL !in p.value
    && (p.value == "\n" || '\n' !in p.value)
    && (NUL !in text ==> p.value != "")
  }

  predicate AllShaped(ps: seq<Pair>, text: string) {
    forall p :: p in ps ==> RecordedShape(p, text)
  }

  lemma KeyTextOk(k: string)
    requires IsOpenKey(k)
    ensures KeyShape(KeyText(k))
  {
    var t := KeyText(k);
    assert t <= k;
    assert forall i :: 0 <= i < |t| ==> t[i] == k[i];
  }

  lemma {:induction false} LinesShaped(t: string, text: string)
    requires NUL !in text ==> NUL !in t
    ensures AllShaped(Lines(t), text)
    decreases |t|, 2
  {
    if t != "" {
      if t[0] == '\n' {
        LinesShaped(t[1..], text);
      } else {
        var e := KeyEnd(t, 1);
        if e < |t| {
          if t[e] == '\n' {
            LinesShaped(t[e + 1..], text);
          } else {
            KeyTextOk(t[..e]);
            AfterEqualsShaped(KeyText(t[..e]), t[e + 1..], text);
          }
        }
      }
    }
  }

  lemma {:induction false} AfterEqualsShaped(key: string, v: string, text: string)
    requires KeyShape(key) && (NUL !in text ==> NUL !in v)
    ensures AllShaped(AfterEquals(key, v), text)
    decreases |v|, 1
  {
    if |v| >= 2 {
      ValueShaped(key, v[2..], text);
    }
  }

  lemma {:induction false} ValueShaped(key: string, w: string, text: string)
    requires KeyShape(key) && (NUL !in text ==> NUL !in w)
    ensures AllShaped(Value(key, w), text)
    decreases |w|, 0
  {
    if w != "" {
      if w[0] == '\n' {
        if |w| > 1 {
          LinesShaped(w[2..], text);
        }
      } else {
        var m := IndexOfChar(w, '\n');
        if m >= 0 {
          var v := CStr(w[..m]);
          assert forall i :: 0 <= i < |v| ==> v[i] == w[i];
          LinesShaped(w[m + 1..], text);
        }
      }
    }
  }

  lemma {:induction false} PrintedNoNul(es: seq<Entry>)
    requires AllNoise(es) && forall p :: p in Pairs(es) ==> NUL !in p.key && NUL !in p.value
    ensures NUL !in PrintEntries(es)
  {
    if es != [] {
      assert es[0].pair in Pairs(es) && es[0] in es;
      assert forall p :: p in Pairs(es[1..]) ==> p in Pairs(es);
      NoiseNoNul(es[0].noise);
      PrintedNoNul(es[1..]);
    }
  }

  lemma {:induction false} NoiseNoNul(noise: seq<string>)
    requires forall line :: line in noise ==> IsNoise(line)
    ensures NUL !in PrintNoise(noise)
  {
    if noise != [] {
      assert noise[0] in noise;
      NoiseNoNul(noise[1..]);
    }
  }

  /** The round trip, exactly: behind any first line, and with any lines that assign nothing in
      between, scanning a printed list gives the list back if and only if every pair is fine. */
  lemma RoundTrip(header: string, es: seq<Entry>)
    requires '\n' !in header && AllNoise(es)
    ensures Assignments(header + "\n" + PrintEntries(es)) == Pairs(es) <==> forall p :: p in Pairs(es) ==> PairOk(p)
  {
    var body := PrintEntries(es);
    var text := header + "\n" + body;
    assert text[..|header|] == header;
    IndexOfCharIs(text, '\n', |header|);
    assert text[|header| + 1..] == body;
    if forall p :: p in Pairs(es) ==> PairOk(p) {
      PrintedEntries(es);
    }
    if Lines(body) == Pairs(es) {
      LinesShaped(body, body);
      assert forall p :: p in Pairs(es) ==> RecordedShape(p, body);
      PrintedNoNul(es);
    }
  }

  /** A line whose key is empty, blanks and NULs aside: it is read like any other, and nothing is
      recorded. " => 17" is one. */
  lemma EmptyKeyLost(value: string, rest: string)
    requires ValueOk(value)
    ensures Lines(PrintPair(Pair("", value)) + rest) == Lines(rest)
  {
    PrintedKey("", value, rest);
    EmptyKeyValue(value, rest);
  }

  lemma EmptyKeyValue(value: string, rest: string)
    requires ValueOk(value)
    ensures Value("", value + "\n" + rest) == Lines(rest)
  {
    var tail := "\n" + rest;
    assert value + "\n" + rest == value + tail && tail[1..] == rest;
    if value == "\n" {
      assert (value + tail)[2..] == rest;
    } else {
      ValueEnds("", value, tail);
    }
  }

  /** An empty value: the newline is recorded in its place, and the next line loses its first byte,
      whatever that is. */
  lemma EmptyValueSwallows(key: string, c: char, rest: string)
    requires KeyOk(key)
    ensures Lines(PrintPair(Pair(key, "")) + ([c] + rest)) == [Pair(key, "\n")] + Lines(rest)
  {
    PrintedKey(key, "", [c] + rest);
    EmptyValue(key, "" + "\n" + ([c] + rest), rest);
  }

  lemma EmptyValue(key: string, w: string, rest: string)
    requires key != "" && |w| > 1 && w[0] == '\n' && w[2..] == rest
    ensures Value(key, w) == [Pair(key, "\n")] + Lines(rest)
  {
  }

  lemma FirstByte(c: char, p: Pair)
    ensures PrintPair(Pair([c] + p.key, p.value)) == [c] + PrintPair(p)
  {
  }

  /** If that is a printed pair, its key comes without its first byte. */
  lemma NextKeyCut(key: string, c: char, p: Pair)
    requires KeyOk(key) && PairOk(p)
    ensures Lines(PrintPair(Pair(key, "")) + PrintPair(Pair([c] + p.key, p.value))) == [Pair(key, "\n"), p]
  {
    var rest := PrintPair(p);
    FirstByte(c, p);
    EmptyValueSwallows(key, c, rest);
    PrintedPair(p, "");
    assert rest + "" == rest;
  }

  /** For one, "bc" comes as "c". */
  lemma NextKeyCutOnce()
    ensures Lines(PrintPair(Pair("a", "")) + PrintPair(Pair("bc", "1"))) == [Pair("a", "\n"), Pair("c", "1")]
  {
    NextKeyCut("a", 'b', Pair("c", "1"));
    assert ['b'] + "c" == "bc";
  }

  /** The hash keeps the last value recorded for a key and what it held for all others. */
  lemma {:induction false} LastValueWins(m: map<string, string>, ps: seq<Pair>, key: string, i: int)
    requires key != "" && -1 <= i < |ps| && (i >= 0 ==> ps[i].key == key)
    requires forall j :: i < j < |ps| ==> ps[j].key != key
    ensures i >= 0 ==> key in SetAll(m, ps) && SetAll(m, ps)[key] == ps[i].value
    ensures i == -1 ==> (key in SetAll(m, ps) <==> key in m)
    ensures i == -1 && key in m ==> SetAll(m, ps)[key] == m[key]
  {
    if ps != [] && i < |ps| - 1 {
      LastValueWins(m, ps[..|ps| - 1], key, i);
    }
  }
}
