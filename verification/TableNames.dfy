/** Squashing generated table names in place: agent/php_datastore.c. */
module TableNames {
  import opened CStrings

  // ------------------------------------------------------------------------
  // WordPress: wp_<blog number>_<rest> becomes wp_*_<rest>.
  // ------------------------------------------------------------------------

  predicate IsDigit(c: char) {
    '0' <= c <= '9'
  }

  predicate IsNumber(s: string) {
    s != "" && forall i :: 0 <= i < |s| ==> IsDigit(s[i])
  }

  /** The first position from k on that holds no digit. */
  function DigitsEnd(s: string, k: nat): (e: nat)
    requires k <= |s|
    ensures k <= e <= |s|
    ensures forall i :: k <= i < e ==> IsDigit(s[i])
    ensures e < |s| ==> !IsDigit(s[e])
    decreases |s| - k
  {
    if k < |s| && IsDigit(s[k]) then DigitsEnd(s, k + 1) else k
  }

  /** One blog's copy of a table: rest is the table's own name with its leading underscore. */
  predicate IsBlogTable(name: string, number: string, rest: string) {
    IsNumber(number) && rest != "" && rest[0] == '_' && name == "wp_" + number + rest
  }

  function Squashed(name: string): string {
    if "wp_" <= name then
      var e := DigitsEnd(name, 3);
      if 3 < e < |name| && name[e] == '_' then "wp_*" + name[e..] else name
    else name
  }

  /** Only the number is lost. */
  lemma BlogTableSquashed(name: string, number: string, rest: string)
    requires IsBlogTable(name, number, rest)
    ensures Squashed(name) == "wp_*" + rest && Squashed(name) != name
  {
    var e := DigitsEnd(name, 3);
    var n := 3 + |number|;
    assert forall i :: 3 <= i < n ==> name[i] == number[i - 3];
    assert name[n] == rest[0];
    assert e == n;
    assert name[e..] == rest;
    assert name[3] == number[0] && Squashed(name)[3] == '*';
  }

  lemma ChangedIsBlogTable(name: string)
    requires Squashed(name) != name
    ensures var e := DigitsEnd(name, 3); 3 < e < |name| && IsBlogTable(name, name[3..e], name[e..])
  {
    var e := DigitsEnd(name, 3);
    InThree(name, e);
    assert name[..3] == "wp_";
  }

  lemma InThree(name: string, e: nat)
    requires 3 <= e <= |name|
    ensures name == name[..3] + name[3..e] + name[e..]
  {
  }

  /** Exactly the blog tables change. */
  lemma SquashedExact(name: string)
    ensures Squashed(name) != name <==> exists number, rest :: IsBlogTable(name, number, rest)
  {
    if Squashed(name) != name {
      ChangedIsBlogTable(name);
    }
    if number, rest :| IsBlogTable(name, number, rest) {
      BlogTableSquashed(name, number, rest);
    }
  }

  /** Two blogs' tables fall together exactly when they are copies of the same table. */
  lemma SameTable(name1: string, number1: string, rest1: string, name2: string, number2: string, rest2: string)
    requires IsBlogTable(name1, number1, rest1) && IsBlogTable(name2, number2, rest2)
    ensures Squashed(name1) == Squashed(name2) <==> rest1 == rest2
  {
    BlogTableSquashed(name1, number1, rest1);
    BlogTableSquashed(name2, number2, rest2);
    assert ("wp_*" + rest1)[4..] == rest1 && ("wp_*" + rest2)[4..] == rest2;
  }

  lemma SquashedTwice(name: string)
    ensures Squashed(Squashed(name)) == Squashed(name)
    ensures |Squashed(name)| <= |name|
    ensures NUL !in name ==> NUL !in Squashed(name)
  {
    var once := Squashed(name);
    if once != name {
      assert once[3] == '*';
      assert DigitsEnd(once, 3) == 3;
    }
  }

  /** What the forward copy leaves in the buffer: the name with its number replaced. */
  ghost predicate CopiedDown(was: string, now: string, e: int, n: int) {
    && 3 < e && 0 <= n && e + n <= |was| == |now|
    && (forall j :: 0 <= j < 3 ==> now[j] == was[j])
    && now[3] == '*'
    && (forall j :: 4 <= j < 4 + n ==> now[j] == was[e + j - 4])
    && (forall j :: e + n <= j < |was| ==> now[j] == was[j])
  }

  lemma CopiedText(was: string, now: string, name: string, e: nat, t: string)
    requires Reads(was, 0, name) && 3 < e < |name| && CopiedDown(was, now, e, |name| - e)
    requires |t| == 4 + (|name| - e) && NUL !in t
    requires forall i {:trigger t[i]} :: 0 <= i < |t| ==>
               t[i] == if i < 3 then name[i] else if i == 3 then '*' else name[e + i - 4]
    ensures Reads(now[|t| := NUL], 0, t)
  {
    forall i | 0 <= i < |t|
      ensures now[i] == t[i]
    {
      if i < 3 {
        assert was[0 + i] == name[i];
      } else if i > 3 {
        assert was[0 + (e + i - 4)] == name[e + i - 4];
      }
    }
  }

  lemma SquashedText(name: string, e: nat)
    requires "wp_" <= name && 3 < e < |name| && name[e] == '_' && e == DigitsEnd(name, 3)
    ensures var t := Squashed(name);
            && |t| == 4 + (|name| - e)
            && forall i {:trigger t[i]} :: 0 <= i < |t| ==>
                 t[i] == if i < 3 then name[i] else if i == 3 then '*' else name[e + i - 4]
  {
    assert Squashed(name) == "wp_*" + name[e..];
  }

  lemma CopiedName(was: string, now: string, name: string, e: nat)
    requires Reads(was, 0, name) && "wp_" <= name
    requires 3 < e < |name| && name[e] == '_' && e == DigitsEnd(name, 3)
    requires CopiedDown(was, now, e, |name| - e)
    ensures Reads(now[4 + (|name| - e) := NUL], 0, Squashed(name))
  {
    SquashedTwice(name);
    SquashedText(name, e);
    CopiedText(was, now, name, e, Squashed(name));
  }

  /** The overlapping forward copy: what follows the number moves down behind the '*'. */
  method CopyDown(tablename: array<char>, dp: nat, ghost name: string)
    requires Reads(tablename[..], 0, name) && "wp_" <= name
    requires 3 < dp < |name| && name[dp] == '_' && dp == DigitsEnd(name, 3)
    modifies tablename
    ensures Reads(tablename[..], 0, Squashed(name))
    ensures forall j :: |name| <= j < tablename.Length ==> tablename[j] == old(tablename[j])
  {
    ghost var was := tablename[..];
    tablename[3] := '*';
    var i := 0;
    while tablename[dp + i] != NUL
      invariant 0 <= i <= |name| - dp
      invariant CopiedDown(was, tablename[..], dp, i)
      invariant dp + i < |name| ==> tablename[dp + i] == name[dp + i]
      decreases |name| - i
    {
      tablename[4 + i] := tablename[dp + i];
      i := i + 1;
    }
    CopiedName(was, tablename[..], name, dp);
    ghost var copied := tablename[..];
    tablename[4 + i] := NUL;
    assert tablename[..] == copied[4 + i := NUL];
  }

  /** The rewrite as the agent does it, inside one buffer. Nothing at or behind the old
      terminator is touched. */
  method ModifyWordpress(tablename: array?<char>)
    requires tablename != null ==> NUL in tablename[..]
    modifies tablename
    ensures tablename != null ==> Reads(tablename[..], 0, Squashed(CStr(old(tablename[..]))))
    ensures tablename != null ==>
              forall i :: |CStr(old(tablename[..]))| <= i < tablename.Length ==> tablename[i] == old(tablename[i])
  {
    if tablename == null {
      return;
    }
    ghost var name := CStr(tablename[..]);
    ReadsCStr(tablename[..]);
    assert forall i :: 0 <= i < |name| ==> tablename[i] == name[i];
    if tablename[0] == NUL {
      return;
    }
    if tablename[0] == 'w' && tablename[1] == 'p' && tablename[2] == '_' {
      assert "wp_" <= name;
      var dp := 3;
      while tablename[dp] != NUL && IsDigit(tablename[dp])
        invariant 3 <= dp <= |name|
        invariant DigitsEnd(name, 3) == DigitsEnd(name, dp)
        decreases |name| - dp
      {
        dp := dp + 1;
      }
      if dp != 3 && tablename[dp] == '_' {
        CopyDown(tablename, dp, name);
      }
    }
  }

  // ------------------------------------------------------------------------
  // Magento 2: search_tmp_<anything> becomes search_tmp_*.
  // ------------------------------------------------------------------------

  const TEMPORARY := "search_tmp_"

  function SquashedTemporary(name: string): string {
    if TEMPORARY < name then TEMPORARY + "*" else name
  }

  /** Two names fall together exactly when they are equal or both temporary tables. */
  lemma SameTemporary(name1: string, name2: string)
    ensures SquashedTemporary(name1) == SquashedTemporary(name2)
            <==> name1 == name2 || (TEMPORARY < name1 && TEMPORARY < name2)
    ensures |SquashedTemporary(name1)| <= |name1|
    ensures SquashedTemporary(SquashedTemporary(name1)) == SquashedTemporary(name1)
  {
    assert TEMPORARY < TEMPORARY + "*";
  }

  method ModifyMagento2(tablename: array<char>)
    requires NUL in tablename[..]
    modifies tablename
    ensures Reads(tablename[..], 0, SquashedTemporary(CStr(old(tablename[..]))))
    ensures forall i :: |CStr(old(tablename[..]))| <= i < tablename.Length ==> tablename[i] == old(tablename[i])
  {
    ghost var was := tablename[..];
    ReadsCStr(was);
    var name := CStr(tablename[..]);
    if |name| <= |TEMPORARY| {
      return;
    }
    if TEMPORARY <= name {
      tablename[|TEMPORARY|] := '*';
      tablename[|TEMPORARY| + 1] := NUL;
    }
  }

  /** Temporary tables have a name behind their prefix, and lose it. */
  lemma TemporaryText(rest: string, other: string)
    ensures SquashedTemporary("search_tmp_" + rest) == if rest == "" then "search_tmp_" else "search_tmp_*"
    ensures !("search_tmp_" <= other) ==> SquashedTemporary(other) == other
  {
    assert "search_tmp_" + "" == "search_tmp_";
    assert TEMPORARY + "*" == "search_tmp_*";
  }

  lemma DigitsAre(c: char)
    ensures IsDigit(c) <==> c in "0123456789"
  {
    if IsDigit(c) {
      assert "0123456789"[c as int - 48] == c;
    }
  }
}
