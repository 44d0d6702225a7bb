/** The in-place splitter of SQS queue URLs: agent/lib_aws_sdk_php.c. */
module SqsQueueUrl {
  import opened CStrings
  import opened Options

  const PREFIX := "https://sqs."
  const POSTFIX := "amazonaws.com/"

  datatype Queue = Queue(region: string, account: string, name: string)

  /** The URLs the splitter accepts. Region and account may be empty, the name may not, and
      no slash may follow it, not even a last one. */
  predicate WellFormed(q: Queue) {
    && '.' !in q.region && '/' !in q.account
    && q.name != "" && '/' !in q.name
  }

  function Join(q: Queue): string {
    PREFIX + q.region + "." + POSTFIX + q.account + "/" + q.name
  }

  /** The part of s before the first c and the part behind it. */
  function CutAt(s: string, c: char): (r: Option<(string, string)>)
    ensures r.None? <==> c !in s
    ensures r.Some? ==> s == r.value.0 + [c] + r.value.1 && c !in r.value.0
  {
    var i := IndexOfChar(s, c);
    if i < 0 then None else Some((s[..i], s[i + 1..]))
  }

  lemma CutAtJoin(a: string, c: char, b: string)
    requires c !in a
    ensures CutAt(a + [c] + b, c) == Some((a, b))
  {
    var s := a + [c] + b;
    assert s[..|a|] == a && s[|a|] == c && s[|a| + 1..] == b;
    IndexOfCharIs(s, c, |a|);
  }

  function SplitHost(rest: string): Option<(string, string)> {
    if rest == "" || !(POSTFIX <= rest) || rest == POSTFIX then None
    else
      match CutAt(rest[|POSTFIX|..], '/')
      case None => None
      case Some((account, name)) => if name == "" || '/' in name then None else Some((account, name))
  }

  function SplitRegion(rest: string): Option<Queue> {
    if rest == "" then None
    else
      match CutAt(rest, '.')
      case None => None
      case Some((region, host)) =>
        match SplitHost(host)
        case None => None
        case Some((account, name)) => Some(Queue(region, account, name))
  }

  function Split(url: string): Option<Queue> {
    if !(PREFIX <= url) then None else SplitRegion(url[|PREFIX|..])
  }

  lemma SplitHostExact(host: string, account: string, name: string)
    ensures SplitHost(host) == Some((account, name)) <==>
            '/' !in account && name != "" && '/' !in name && host == POSTFIX + (account + ['/'] + name)
  {
    var path := account + ['/'] + name;
    if POSTFIX <= host {
      assert host == POSTFIX + host[|POSTFIX|..];
    }
    if host == POSTFIX + path {
      assert host[|POSTFIX|..] == path;
      if '/' !in account {
        CutAtJoin(account, '/', name);
      }
    }
  }

  lemma SplitRegionExact(rest: string, q: Queue)
    ensures SplitRegion(rest) == Some(q) <==>
            WellFormed(q) && rest == q.region + ['.'] + (POSTFIX + (q.account + ['/'] + q.name))
  {
    var host := POSTFIX + (q.account + ['/'] + q.name);
    SplitHostExact(host, q.account, q.name);
    if SplitRegion(rest) == Some(q) {
      SplitHostExact(CutAt(rest, '.').value.1, q.account, q.name);
    }
    if WellFormed(q) && rest == q.region + ['.'] + host {
      CutAtJoin(q.region, '.', host);
    }
  }

  /** Exactly the joined URLs of well-formed queues are split, and each in one way only. */
  lemma SplitExact(url: string, q: Queue)
    ensures Split(url) == Some(q) <==> WellFormed(q) && url == Join(q)
  {
    var tail := q.region + ['.'] + (POSTFIX + (q.account + ['/'] + q.name));
    assert Join(q) == PREFIX + tail;
    if PREFIX <= url {
      var rest := url[|PREFIX|..];
      assert url == PREFIX + rest;
      SplitRegionExact(rest, q);
      if url == Join(q) {
        assert rest == (PREFIX + tail)[|PREFIX|..] == tail;
      }
    }
  }

  /** The language of the splitter, and that its parts are determined by the URL. */
  lemma SplitLanguage(url: string)
    ensures Split(url).Some? <==> exists q :: WellFormed(q) && url == Join(q)
    ensures forall q, r :: WellFormed(q) && WellFormed(r) && Join(q) == Join(r) ==> q == r
  {
    if Split(url).Some? {
      SplitExact(url, Split(url).value);
    }
    forall q | WellFormed(q) && url == Join(q)
      ensures Split(url).Some?
    {
      SplitExact(url, q);
    }
    forall q, r | WellFormed(q) && WellFormed(r) && Join(q) == Join(r)
      ensures q == r
    {
      SplitExact(Join(q), q);
      SplitExact(Join(q), r);
    }
  }

  /** A slash behind the name is not tolerated: the splitter moves the byte on instead of the
      pointer, so what follows the slash never looks empty. */
  lemma TrailingSlashRejected(url: string)
    requires |url| > 0 && url[|url| - 1] == '/'
    ensures Split(url) == None
  {
    if Split(url).Some? {
      SplitExact(url, Split(url).value);
      JoinedEnd(Split(url).value);
    }
  }

  lemma JoinedEnd(q: Queue)
    requires WellFormed(q)
    ensures |Join(q)| > 0 && Join(q)[|Join(q)| - 1] != '/'
  {
    assert Join(q)[|Join(q)| - 1] == q.name[|q.name| - 1];
  }

  // ------------------------------------------------------------------------
  // The splitter on the buffer. A pointer into it is a position.
  // ------------------------------------------------------------------------

  class MessageParams {
    var destinationName: Option<nat>

    constructor ()
      ensures destinationName == None
    {
      destinationName := None;
    }
  }

  class CloudAttrs {
    var accountId: Option<nat>
    var region: Option<nat>

    constructor ()
      ensures accountId == None && region == None
    {
      accountId, region := None, None;
    }
  }

  /** The text at position p of the buffer, as strncmp and strchr see it. */
  method TextAt(buffer: array<char>, p: nat, ghost t: string) returns (text: string)
    requires Reads(buffer[..], p, t)
    ensures text == t
  {
    CStrCut(buffer[p..], t);
    text := CStr(buffer[p..]);
  }

  lemma ReadsLater(s: string, p: nat, a: string, b: string)
    requires Reads(s, p, a + b)
    ensures Reads(s, p + |a|, b)
  {
    var t := a + b;
    assert forall i :: 0 <= i < |b| ==> t[|a| + i] == b[i];
  }

  lemma ReadsCut(s: string, p: nat, a: string, c: char, b: string)
    requires Reads(s, p, a + [c] + b)
    ensures Reads(s[p + |a| := NUL], p, a) && Reads(s[p + |a| := NUL], p + |a| + 1, b)
  {
    var t := a + [c] + b;
    assert forall i :: 0 <= i < |a| ==> t[i] == a[i];
    assert forall i :: 0 <= i < |b| ==> t[|a| + 1 + i] == b[i];
  }

  /** What a pointer reads does not depend on the bytes behind the NUL it stops at. */
  lemma ReadsKept(s: string, s': string, p: nat, t: string, e: nat)
    requires Reads(s, p, t) && p + |t| < e <= |s| == |s'|
    requires forall i {:trigger s'[i]} :: 0 <= i < e ==> s'[i] == s[i]
    ensures Reads(s', p, t)
  {
  }

  /** Looks for c in the text at p and cuts there: the position behind the cut, or -1. */
  method CutAtByte(buffer: array<char>, p: nat, c: char, ghost t: string) returns (q: int)
    requires Reads(buffer[..], p, t)
    modifies buffer
    ensures match CutAt(t, c)
            case None => q == -1
            case Some((before, behind)) =>
              q == p + |before| + 1 && Reads(buffer[..], p, before) && Reads(buffer[..], q, behind)
    ensures forall i :: 0 <= i < p ==> buffer[i] == old(buffer[i])
  {
    ghost var s := buffer[..];
    var text := TextAt(buffer, p, t);
    var i := IndexOfChar(text, c);
    if i < 0 {
      return -1;
    }
    assert text == text[..i] + [c] + text[i + 1..];
    ReadsCut(s, p, text[..i], c, text[i + 1..]);
    buffer[p + i] := NUL;
    assert buffer[..] == s[p + i := NUL];
    return p + i + 1;
  }

  /** The last part: a name, not empty, with no slash in it. A slash is cut off all the same, and
      then its byte, not the pointer, is moved on. */
  method NameAt(buffer: array<char>, p: nat, ghost t: string) returns (ok: bool)
    requires Reads(buffer[..], p, t)
    modifies buffer
    ensures ok <==> t != "" && '/' !in t
    ensures ok ==> buffer[..] == old(buffer[..])
    ensures forall i :: 0 <= i < p ==> buffer[i] == old(buffer[i])
  {
    assert t != "" ==> buffer[..][p] == t[0];
    if buffer[p] == NUL {
      return false;
    }
    var text := TextAt(buffer, p, t);
    var i := IndexOfChar(text, '/');
    if i >= 0 {
      buffer[p + i] := NUL;
      buffer[p + i] := (buffer[p + i] as int + 1) as char;
      if buffer[p + i] != NUL {
        return false;
      }
    }
    return true;
  }

  /** What follows the dot behind the region: host, account, name. */
  method HostAt(buffer: array<char>, p: nat, ghost t: string) returns (r: Option<(nat, nat)>)
    requires Reads(buffer[..], p, t)
    modifies buffer
    ensures forall i :: 0 <= i < p ==> buffer[i] == old(buffer[i])
    ensures match SplitHost(t)
            case None => r == None
            case Some((account, name)) =>
              r.Some? && Reads(buffer[..], r.value.0, account) && Reads(buffer[..], r.value.1, name)
  {
    assert t != "" ==> buffer[..][p] == t[0];
    if buffer[p] == NUL {
      return None;
    }
    var text := TextAt(buffer, p, t);
    if !(POSTFIX <= text) {
      return None;
    }
    ghost var behind := t[|POSTFIX|..];
    assert t == POSTFIX + behind;
    ReadsLater(buffer[..], p, POSTFIX, behind);
    var account := p + |POSTFIX|;
    assert behind != "" ==> buffer[..][account] == behind[0];
    if buffer[account] == NUL {
      return None;
    }
    var name := CutAtByte(buffer, account, '/', behind);
    if name < 0 {
      return None;
    }
    ghost var cut := buffer[..];
    ghost var parts := CutAt(behind, '/').value;
    var ok := NameAt(buffer, name, parts.1);
    return if ok then Some((account, name)) else None;
  }

  /** The pointer is set, and a C reader finds text there. */
  ghost predicate PointsTo(s: string, pointer: Option<nat>, text: string) {
    pointer.Some? && Reads(s, pointer.value, text)
  }

  /** The parts of a queue, read at three places. */
  ghost predicate PartsAt(s: string, r: Option<(nat, nat, nat)>, q: Option<Queue>) {
    match q
    case None => r == None
    case Some(q) =>
      r.Some? && Reads(s, r.value.0, q.region) && Reads(s, r.value.1, q.account) && Reads(s, r.value.2, q.name)
  }

  /** What follows the prefix: a region up to a dot, and what follows that. */
  method RegionAt(buffer: array<char>, region: nat, ghost rest: string) returns (r: Option<(nat, nat, nat)>)
    requires Reads(buffer[..], region, rest)
    modifies buffer
    ensures PartsAt(buffer[..], r, SplitRegion(rest))
  {
    assert rest != "" ==> buffer[..][region] == rest[0];
    if buffer[region] == NUL {
      return None;
    }
    var p := CutAtByte(buffer, region, '.', rest);
    if p < 0 {
      return None;
    }
    ghost var cut, parts := buffer[..], CutAt(rest, '.').value;
    var host := HostAt(buffer, p, parts.1);
    if host == None {
      return None;
    }
    ReadsKept(cut, buffer[..], region, parts.0, p);
    return Some((region, host.value.0, host.value.1));
  }

  /** The region, account and name positions of a URL that splits. */
  method SplitBuffer(buffer: array<char>, ghost url: string) returns (r: Option<(nat, nat, nat)>)
    requires Reads(buffer[..], 0, url)
    modifies buffer
    ensures PartsAt(buffer[..], r, Split(url))
  {
    var text := TextAt(buffer, 0, url);
    if !(PREFIX <= text) {
      return None;
    }
    ghost var rest := url[|PREFIX|..];
    assert url == PREFIX + rest;
    ReadsLater(buffer[..], 0, PREFIX, rest);
    r := RegionAt(buffer, |PREFIX|, rest);
  }

  /** The splitter itself. Either all three outputs are set, and read the three parts of the URL
      in the cut buffer, or none is touched, even though the buffer may have been cut. */
  method ParseQueueUrl(buffer: array?<char>, params: MessageParams?, attrs: CloudAttrs?)
    requires buffer != null ==> NUL in buffer[..]
    modifies buffer, params, attrs
    ensures buffer == null || params == null || attrs == null ==>
              (buffer != null ==> buffer[..] == old(buffer[..]))
              && (params != null ==> params.destinationName == old(params.destinationName))
              && (attrs != null ==> attrs.accountId == old(attrs.accountId) && attrs.region == old(attrs.region))
    ensures buffer != null && params != null && attrs != null ==>
              match Split(CStr(old(buffer[..])))
              case None =>
                && params.destinationName == old(params.destinationName)
                && attrs.accountId == old(attrs.accountId) && attrs.region == old(attrs.region)
              case Some(q) =>
                && PointsTo(buffer[..], params.destinationName, q.name)
                && PointsTo(buffer[..], attrs.accountId, q.account)
                && PointsTo(buffer[..], attrs.region, q.region)
  {
    if buffer == null || params == null || attrs == null {
      return;
    }
    var r := SplitBuffer(buffer, CStr(buffer[..]));
    if r.Some? {
      params.destinationName := Some(r.value.2);
      attrs.accountId := Some(r.value.1);
      attrs.region := Some(r.value.0);
    }
  }

  /** The text of a queue URL, and when it is taken apart into what it was put together from. */
  lemma SplitText(region: string, account: string, name: string)
    ensures var url := "https://sqs." + region + ".amazonaws.com/" + account + "/" + name;
            Split(url) == Some(Queue(region, account, name)) <==>
            '.' !in region && '/' !in account && name != "" && '/' !in name
  {
    JoinText(Queue(region, account, name));
    SplitExact(Join(Queue(region, account, name)), Queue(region, account, name));
  }

  lemma JoinText(q: Queue)
    ensures Join(q) == "https://sqs." + q.region + ".amazonaws.com/" + q.account + "/" + q.name
  {
    assert "." + POSTFIX == ".amazonaws.com/";
    assert PREFIX + q.region + "." + POSTFIX == PREFIX + q.region + ("." + POSTFIX);
  }
}
