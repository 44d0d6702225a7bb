/** Hook function names, put together and taken apart: agent/fw_drupal_common.c. */
module DrupalNames {
  import opened CIntegers
  import opened CStrings
  import opened Options

  /** The scan of nr_strnidx from position i on: it gives up at a NUL. */
  function Scan(s: string, needle: string, i: nat, limit: int): (r: int)
    requires needle != "" && limit + |needle| <= |s| + 1
    ensures r == -1 || (i <= r < limit && OccursAt(s, needle, r))
    ensures r >= 0 ==> forall j :: i <= j < r ==> !OccursAt(s, needle, j)
    ensures r == -1 ==> forall j :: i <= j < limit && OccursAt(s, needle, j) ==> NUL in s[i..j + 1]
    decreases limit - i
  {
    if i >= limit || s[i] == NUL then -1
    else if s[i..i + |needle|] == needle then i
    else Scan(s, needle, i + 1, limit)
  }

  /** nr_strnidx on the first len bytes of s; the needle is a C string. */
  function StrNIdx(s: string, needle: Option<string>, len: int): (r: int)
    requires len <= |s|
    ensures -1 <= r && (r == -1 || r <= len)
    ensures r >= 0 ==> needle.Some? && OccursAt(s, needle.value, r)
                       && forall j :: 0 <= j < r ==> !OccursAt(s, needle.value, j)
    ensures r == -1 && needle.Some? && needle.value != "" && len >= 0 ==>
              forall j :: OccursAt(s, needle.value, j) && j + |needle.value| <= len ==> NUL in s[..j + 1]
  {
    if needle == None || len < 0 then -1
    else if needle.value == "" then 0
    else Scan(s, needle.value, 0, len - |needle.value| + 1)
  }

  /** The length computed for the module part: the place of the hook less its separator, or, when
      the hook is found at the very start, what is left in front of a hook at the end. Not finding
      the hook at all wraps around to a length that counts as -2. */
  function ModuleLen(hook: Option<string>, hookLen: nat, name: string): nat
    requires hookLen < |name| < SIZE_T
  {
    var found := SizeT(StrNIdx(name, hook, ToInt(|name|)) - 1);
    if ToInt(found) == -1 then SizeT(|name| - hookLen - 1) else found
  }

  /** The arithmetic wraps around, and still never accepts a length beyond the name. */
  lemma LengthInName(hook: Option<string>, hookLen: nat, name: string)
    requires hookLen < |name| < SIZE_T
    ensures ToInt(ModuleLen(hook, hookLen, name)) > -1 ==> ModuleLen(hook, hookLen, name) < |name|
  {
    var i := StrNIdx(name, hook, ToInt(|name|));
    var found := SizeT(i - 1);
    if i == -1 {
      assert found == SIZE_T - 2;
      assert ToInt(found) == -2;
    } else if i == 0 {
      assert found == SIZE_T - 1;
      assert ToInt(found) == -1;
    }
  }

  datatype Module = Module(name: string, len: nat)

  /** The module part of a hook function's name, or nothing. hook is a C string, and hookLen the
      length its caller gives for it. Every module found is a prefix of the name. */
  function ParseModule(hook: Option<string>, hookLen: nat, moduleHook: Option<string>): (r: Option<Module>)
    requires hookLen < SIZE_T && (moduleHook.Some? ==> |moduleHook.value| < SIZE_T)
    ensures r.Some? ==> moduleHook.Some? && r.value.len < |moduleHook.value| && r.value.name <= moduleHook.value
  {
    if moduleHook == None || |moduleHook.value| == 0 then None
    else
      var name := moduleHook.value;
      if hookLen >= |name| then None
      else if SizeT(StrNIdx(name, hook, ToInt(|name|)) - 1) == 0 then None
      else
        var len := ModuleLen(hook, hookLen, name);
        LengthInName(hook, hookLen, name);
        if -1 >= ToInt(len) then None
        else
          assert CStr(name[..len]) <= name[..len] <= name;
          Some(Module(CStr(name[..len]), len))
  }

  /** The name of the function that implements a hook in a module. */
  function HookFunction(moduleName: string, hook: string): string {
    moduleName + "_" + hook
  }

  lemma ScanIsIndexOf(s: string, needle: string, i: nat)
    requires needle != "" && NUL !in s && |needle| <= |s| && i <= |s|
    ensures Scan(s, needle, i, |s| - |needle| + 1) == IndexFrom(s, needle, i)
    decreases |s| - i
  {
    if i > |s| - |needle| {
      var r := IndexFrom(s, needle, i);
    } else if s[i..i + |needle|] != needle {
      ScanIsIndexOf(s, needle, i + 1);
    }
  }

  /** What becomes of a position less one: 0 wraps around to a length that counts as -1. */
  lemma WrapAround(i: nat)
    requires i < INT / 2
    ensures i == 0 ==> ToInt(SizeT(i - 1)) == -1 && SizeT(i - 1) != 0
    ensures i > 0 ==> SizeT(i - 1) == ToInt(SizeT(i - 1)) == i - 1
    ensures ToInt(i) == i == SizeT(i)
  {
    if i == 0 {
      assert SizeT(i - 1) == SIZE_T - 1;
      assert (SIZE_T - 1) % INT == INT - 1;
    }
  }

  /** The hook occurs in the name, at the latest behind the separator, and the scan finds the
      first occurrence. */
  lemma HookFound(moduleName: string, hook: string)
    requires moduleName != "" && hook != "" && NUL !in moduleName && NUL !in hook
    requires |HookFunction(moduleName, hook)| < INT / 2
    ensures var name := HookFunction(moduleName, hook);
            0 <= IndexOf(name, hook) <= |moduleName| + 1
            && StrNIdx(name, Some(hook), ToInt(|name|)) == IndexOf(name, hook)
  {
    var name := HookFunction(moduleName, hook);
    var at := |moduleName| + 1;
    assert name[at..at + |hook|] == hook;
    assert OccursAt(name, hook, at);
    assert NUL !in name;
    ScanIsIndexOf(name, hook, 0);
    WrapAround(|name|);
  }

  lemma HookLength(moduleName: string, hook: string)
    requires moduleName != "" && hook != "" && NUL !in moduleName && NUL !in hook
    requires |HookFunction(moduleName, hook)| < INT / 2
    ensures var name, i := HookFunction(moduleName, hook), IndexOf(HookFunction(moduleName, hook), hook);
            ModuleLen(Some(hook), |hook|, name) == if i == 0 then |moduleName| else i - 1
  {
    HookFound(moduleName, hook);
    WrapAround(IndexOf(HookFunction(moduleName, hook), hook));
    WrapAround(|moduleName|);
  }

  /** In names that an int can measure, what the splitter makes of a hook function's name depends
      only on where the hook first occurs in it. */
  lemma ParseByFirstOccurrence(moduleName: string, hook: string)
    requires moduleName != "" && hook != "" && NUL !in moduleName && NUL !in hook
    requires |HookFunction(moduleName, hook)| < INT / 2
    ensures var name, i := HookFunction(moduleName, hook), IndexOf(HookFunction(moduleName, hook), hook);
            && 0 <= i <= |moduleName| + 1
            && ParseModule(Some(hook), |hook|, Some(name)) ==
               if i == 1 then None
               else if i == 0 then Some(Module(moduleName, |moduleName|))
               else Some(Module(name[..i - 1], i - 1))
  {
    var name := HookFunction(moduleName, hook);
    HookFound(moduleName, hook);
    var i := IndexOf(name, hook);
    WrapAround(i);
    WrapAround(|moduleName|);
    var len := if i == 0 then |moduleName| else i - 1;
    HookLength(moduleName, hook);
    assert name[..|moduleName|] == moduleName;
    assert forall c :: c in name[..len] ==> c in name;
  }

  /** Taking a hook function's name apart gives its module back exactly when the hook first occurs
      at the very start of the name or right behind the separator. */
  lemma ModuleRoundTrip(moduleName: string, hook: string)
    requires moduleName != "" && hook != "" && NUL !in moduleName && NUL !in hook
    requires |HookFunction(moduleName, hook)| < INT / 2
    ensures var name := moduleName + "_" + hook;
            ParseModule(Some(hook), |hook|, Some(name)) == Some(Module(moduleName, |moduleName|))
            <==> IndexOf(name, hook) == 0 || IndexOf(name, hook) == |moduleName| + 1
  {
    ParseByFirstOccurrence(moduleName, hook);
    var name := HookFunction(moduleName, hook);
    assert name[..|moduleName|] == moduleName;
  }

  /** A hook whose name also ends the module's name cuts the module short. */
  lemma HookInsideModule()
    ensures ParseModule(Some("h"), 1, Some("a_h_h")) == Some(Module("a", 1))
  {
    var name := HookFunction("a_h", "h");
    assert name == "a_h_h" && name[2..3] == [name[2]];
    assert OccursAt(name, "h", 2);
    OccursByte(name, "h", IndexOf(name, "h"), 0);
    ParseByFirstOccurrence("a_h", "h");
    assert name[..1] == "a";
  }

  lemma ScanFirst(name: string, hook: string)
    requires hook != "" && NUL !in hook && |hook| <= |name| && NUL !in name && |name| < INT / 2
    ensures StrNIdx(name, Some(hook), ToInt(|name|)) == IndexOf(name, hook)
  {
    WrapAround(|name|);
    ScanIsIndexOf(name, hook, 0);
  }

  lemma NotFoundLength()
    ensures ToInt(SizeT(-1 - 1)) == -2 && SizeT(-1 - 1) != 0
  {
    assert SizeT(-2) == SIZE_T - 2;
    assert (SIZE_T - 2) % INT == INT - 2;
  }

  /** What the splitter makes of any name that is longer than the hook: nothing, if the hook does not
      occur in it or first occurs behind its first byte; otherwise what precedes the hook and one
      byte more, the hook being taken to be at the end when it is at the start. */
  lemma ParseAnyName(name: string, hook: string)
    requires hook != "" && NUL !in hook && NUL !in name && |hook| < |name| < INT / 2
    ensures var i := IndexOf(name, hook);
            ParseModule(Some(hook), |hook|, Some(name)) ==
            if i < 0 || i == 1 then None
            else var len := if i == 0 then |name| - |hook| - 1 else i - 1; Some(Module(name[..len], len))
  {
    var i := IndexOf(name, hook);
    ScanFirst(name, hook);
    if i < 0 {
      NotFoundLength();
    } else {
      WrapAround(i);
      WrapAround(|name| - |hook| - 1);
      var len := if i == 0 then |name| - |hook| - 1 else i - 1;
      assert forall c :: c in name[..len] ==> c in name;
    }
  }

  /** Without a name, with an empty one or one that is not longer than the hook is said to be, there
      is no module; neither is there without a hook. */
  lemma ParseNothing(hook: Option<string>, hookLen: nat, name: string)
    requires hookLen < SIZE_T && |name| < SIZE_T
    ensures ParseModule(hook, hookLen, None) == None
    ensures |name| <= hookLen ==> ParseModule(hook, hookLen, Some(name)) == None
    ensures ParseModule(None, hookLen, Some(name)) == None
  {
    NotFoundLength();
  }
}
