/** Which module_invoke_all hook is current: agent/fw_drupal_common.c, agent/fw_drupal.c. */
module DrupalHooks {
  import opened Options

  datatype Exit = Normal | Exceptional

  // A call of module_invoke_all: its first argument, the calls made inside it, how it ends.
  datatype Call = Call(hook: Option<string>, children: seq<Call>, exit: Exit)

  // What instrumentation can see at a point of the run.
  datatype View = View(hook: Option<string>, checkCufa: bool)

  predicate IsHook(arg: Option<string>) {
    arg.Some? && arg.value != ""
  }

  // ------------------------------------------------------------------------
  // The meaning of a tree of calls, without any state: at every point the current hook is that
  // of the innermost enclosing call that has one.
  // ------------------------------------------------------------------------

  function Inner(drupal: bool, call: Call, outer: Option<string>): Option<string> {
    if drupal && IsHook(call.hook) then call.hook else outer
  }

  function Seen(hook: Option<string>): View {
    View(hook, hook.Some?)
  }

  /** The views when the call has been entered, all through its children, and when it has ended. */
  function Views(drupal: bool, call: Call, outer: Option<string>): seq<View>
    decreases call, 1
  {
    var inner := Inner(drupal, call, outer);
    [Seen(inner)] + ViewsOfAll(drupal, call.children, inner) + [Seen(outer)]
  }

  function ViewsOfAll(drupal: bool, calls: seq<Call>, outer: Option<string>): seq<View>
    decreases calls, 0
  {
    if calls == [] then []
    else ViewsOfAll(drupal, calls[..|calls| - 1], outer) + Views(drupal, calls[|calls| - 1], outer)
  }

  /** The hook a call itself takes up. */
  function Own(drupal: bool, call: Call): seq<string> {
    if drupal && IsHook(call.hook) then [call.hook.value] else []
  }

  /** The hooks taken up in a call, in the order in which they are given up again. */
  function Hooks(drupal: bool, call: Call): seq<string>
    decreases call, 1
  {
    HooksOfAll(drupal, call.children) + Own(drupal, call)
  }

  function HooksOfAll(drupal: bool, calls: seq<Call>): seq<string>
    decreases calls, 0
  {
    if calls == [] then []
    else HooksOfAll(drupal, calls[..|calls| - 1]) + Hooks(drupal, calls[|calls| - 1])
  }

  // ------------------------------------------------------------------------
  // Two stacks, driven by callbacks before and after each call.
  // ------------------------------------------------------------------------

  function Trues(states: seq<bool>): nat {
    if states == [] then 0 else Trues(states[..|states| - 1]) + if states[|states| - 1] then 1 else 0
  }

  datatype Stacks = Stacks(hooks: seq<string>, states: seq<bool>, checkCufa: bool, released: seq<string>)

  /** Only a call that has a hook gives one up. Popping an empty stack gives NULL, which counts as a
      call without one. */
  function Popped(s: Stacks): Stacks {
    var n, m := |s.states|, |s.hooks|;
    var states := if n == 0 then [] else s.states[..n - 1];
    if n > 0 && s.states[n - 1] && m > 0 then
      Stacks(s.hooks[..m - 1], states, s.checkCufa && m > 1, s.released + [s.hooks[m - 1]])
    else Stacks(s.hooks, states, s.checkCufa && m > 0, s.released)
  }

  /** What a call has pushed is what is popped behind it. */
  lemma PushedThenPopped(hooks: seq<string>, states: seq<bool>, arg: Option<string>, released: seq<string>)
    ensures var own := if IsHook(arg) then [arg.value] else [];
            Popped(Stacks(hooks + own, states + [IsHook(arg)], hooks + own != [], released))
            == Stacks(hooks, states, hooks != [], released + own)
  {
    assert (states + [IsHook(arg)])[..|states|] == states;
    if IsHook(arg) {
      assert (hooks + [arg.value])[..|hooks|] == hooks;
    } else {
      assert hooks + [] == hooks && released + [] == released;
    }
  }

  class HookStacks {
    const drupal: bool          // is the current framework Drupal 6 or 7?
    var hooks: seq<string>
    var states: seq<bool>
    var checkCufa: bool
    var released: seq<string>   // every hook released after having been stacked

    /** At the start of a request. */
    constructor (drupal: bool)
      ensures Consistent() && this.drupal == drupal && hooks == [] && states == [] && released == []
    {
      this.drupal := drupal;
      hooks, states, checkCufa, released := [], [], false, [];
    }

    ghost predicate Consistent()
      reads this
    {
      && Trues(states) == |hooks|
      && checkCufa == (hooks != [])
      && (!drupal ==> states == [])
    }

    function Top(): Option<string>
      reads this
    {
      if hooks == [] then None else Some(hooks[|hooks| - 1])
    }

    function Look(): View
      reads this
    {
      View(Top(), checkCufa)
    }

    method Push(hookCopy: Option<string>)
      modifies this
      ensures hooks == old(hooks) + (if IsHook(hookCopy) then [hookCopy.value] else [])
      ensures states == old(states) + [IsHook(hookCopy)]
      ensures checkCufa == (old(checkCufa) || IsHook(hookCopy))
      ensures released == old(released)
      ensures forall h :: hookCopy == Some(h) && h != "" ==>
                            hooks == old(hooks) + [h] && states == old(states) + [true] && checkCufa
      ensures hookCopy == None || hookCopy == Some("") ==>
                hooks == old(hooks) && states == old(states) + [false] && checkCufa == old(checkCufa)
    {
      if IsHook(hookCopy) {
        hooks := hooks + [hookCopy.value];
        states := states + [true];
        checkCufa := true;
      } else {
        states := states + [false];
      }
    }

    function Stacked(): Stacks
      reads this
    {
      Stacks(hooks, states, checkCufa, released)
    }

    method Pop()
      modifies this
      ensures Stacked() == Popped(old(Stacked()))
    {
      var valid := false;
      if states != [] {
        valid := states[|states| - 1];
        states := states[..|states| - 1];
      }
      if valid && hooks != [] {
        released := released + [hooks[|hooks| - 1]];
        hooks := hooks[..|hooks| - 1];
      }
      if hooks == [] {
        checkCufa := false;
      }
    }

    method Before(arg: Option<string>)
      requires Consistent()
      modifies this
      ensures drupal ==>
                && states == old(states) + [IsHook(arg)] && released == old(released)
                && hooks == old(hooks) + (if IsHook(arg) then [arg.value] else [])
                && checkCufa == (hooks != [])
      ensures !drupal ==> hooks == old(hooks) && states == old(states) && released == old(released)
                          && checkCufa == old(checkCufa)
      ensures Consistent()
    {
      if !drupal {
        return;
      }
      Push(arg);
      assert states[..|states| - 1] == old(states);
    }

    // The callbacks of a call that returned, and of one that was left by an exception. Neither looks
    // at the framework.

    method After()
      modifies this
      ensures Stacked() == Popped(old(Stacked()))
    {
      Pop();
    }

    method Clean()
      modifies this
      ensures Stacked() == Popped(old(Stacked()))
    {
      Pop();
    }

    /** Whichever callback comes behind a call, it takes back what the one before it did. */
    method Leave(call: Call, ghost before: Stacks)
      requires Consistent() && checkCufa == (hooks != [])
      requires hooks == before.hooks + Own(drupal, call) && before.checkCufa == (before.hooks != [])
      requires if drupal then states == before.states + [IsHook(call.hook)] else states == before.states == []
      modifies this
      ensures Stacked() == Stacks(before.hooks, before.states, before.checkCufa, old(released) + Own(drupal, call))
    {
      if drupal {
        PushedThenPopped(before.hooks, before.states, call.hook, released);
      }
      if call.exit.Normal? {
        After();
      } else {
        Clean();
      }
    }

    /** The run of a whole tree of calls under the callbacks. */
    method ModuleInvokeAll(call: Call) returns (views: seq<View>)
      requires Consistent()
      modifies this
      ensures Consistent() && hooks == old(hooks) && states == old(states) && checkCufa == old(checkCufa)
      ensures views == Views(drupal, call, old(Top()))
      ensures released == old(released) + Hooks(drupal, call)
      decreases call, 1
    {
      ghost var before := Stacked();
      Before(call.hook);
      var inner := Look();
      assert inner == Seen(Inner(drupal, call, old(Top())));
      var nested := RunAll(call.children);
      Leave(call, before);
      views := [inner] + nested + [Look()];
    }

    method RunAll(calls: seq<Call>) returns (views: seq<View>)
      requires Consistent()
      modifies this
      ensures Consistent() && hooks == old(hooks) && states == old(states) && checkCufa == old(checkCufa)
      ensures views == ViewsOfAll(drupal, calls, old(Top()))
      ensures released == old(released) + HooksOfAll(drupal, calls)
      decreases calls, 0
    {
      views := [];
      for i := 0 to |calls|
        invariant Consistent() && hooks == old(hooks) && states == old(states) && checkCufa == old(checkCufa)
        invariant views == ViewsOfAll(drupal, calls[..i], old(Top()))
        invariant released == old(released) + HooksOfAll(drupal, calls[..i])
      {
        var more := ModuleInvokeAll(calls[i]);
        assert calls[..i + 1][..i] == calls[..i];
        views := views + more;
      }
      assert calls[..|calls|] == calls;
    }
  }

  // ------------------------------------------------------------------------
  // One current hook, saved and restored around each call.
  // ------------------------------------------------------------------------

  class SavedHook {
    const drupal: bool
    var hook: Option<string>
    var hookLen: nat
    var checkCufa: bool
    var freed: seq<string>

    constructor (drupal: bool)
      ensures Consistent() && this.drupal == drupal && hook == None && freed == []
    {
      this.drupal := drupal;
      hook, hookLen, checkCufa, freed := None, 0, false, [];
    }

    ghost predicate Consistent()
      reads this
    {
      && checkCufa == hook.Some?
      && hookLen == (if hook.Some? then |hook.value| else 0)
    }

    function Look(): View
      reads this
    {
      View(hook, checkCufa)
    }

    /** The wrapper goes on behind the call in whatever way the call ends. */
    method ModuleInvokeAll(call: Call) returns (views: seq<View>)
      requires Consistent()
      modifies this
      ensures Consistent() && hook == old(hook) && hookLen == old(hookLen) && checkCufa == old(checkCufa)
      ensures views == Views(drupal, call, old(hook))
      ensures freed == old(freed) + Hooks(drupal, call)
      decreases call, 1
    {
      if !drupal || !IsHook(call.hook) {
        var inner := Look();
        var nested := RunAll(call.children);
        assert HooksOfAll(drupal, call.children) + [] == HooksOfAll(drupal, call.children);
        return [inner] + nested + [Look()];
      }
      var prevHook, prevLen := hook, hookLen;
      hook := call.hook;
      hookLen := |call.hook.value|;
      checkCufa := true;
      var inner := Look();
      var nested := RunAll(call.children);
      freed := freed + [hook.value];
      hook := prevHook;
      hookLen := prevLen;
      if hook == None {
        checkCufa := false;
      }
      return [inner] + nested + [Look()];
    }

    method RunAll(calls: seq<Call>) returns (views: seq<View>)
      requires Consistent()
      modifies this
      ensures Consistent() && hook == old(hook) && hookLen == old(hookLen) && checkCufa == old(checkCufa)
      ensures views == ViewsOfAll(drupal, calls, old(hook))
      ensures freed == old(freed) + HooksOfAll(drupal, calls)
      decreases calls, 0
    {
      views := [];
      for i := 0 to |calls|
        invariant Consistent() && hook == old(hook) && hookLen == old(hookLen) && checkCufa == old(checkCufa)
        invariant views == ViewsOfAll(drupal, calls[..i], old(hook))
        invariant freed == old(freed) + HooksOfAll(drupal, calls[..i])
      {
        var more := ModuleInvokeAll(calls[i]);
        assert calls[..i + 1][..i] == calls[..i];
        views := views + more;
      }
      assert calls[..|calls|] == calls;
    }
  }

  // ------------------------------------------------------------------------
  // The two agree.
  // ------------------------------------------------------------------------

  /** Over every run of well-nested calls from the start of a request, the two stacks show the
      same current hook and the same flag as saving and restoring does, at every point; both give
      up the same hooks, each once, in the same order; and nothing is left on the stacks. */
  method StacksRefineSaving(drupal: bool, calls: seq<Call>)
    returns (stacked: seq<View>, saved: seq<View>, released: seq<string>, freed: seq<string>, left: nat)
    ensures stacked == saved && released == freed && left == 0
    ensures stacked == ViewsOfAll(drupal, calls, None) && released == HooksOfAll(drupal, calls)
  {
    var stacks := new HookStacks(drupal);
    var saving := new SavedHook(drupal);
    stacked := stacks.RunAll(calls);
    saved := saving.RunAll(calls);
    released, freed, left := stacks.released, saving.freed, |stacks.hooks| + |stacks.states|;
  }

  /** Every view of a run is that of some hook taken up in it, or the one from outside. */
  lemma {:induction false} ViewsComeFromHooks(drupal: bool, call: Call, outer: Option<string>, v: View)
    requires v in Views(drupal, call, outer)
    ensures v == Seen(outer) || (v.hook.Some? && v.checkCufa && v.hook.value in Hooks(drupal, call))
    decreases call, 1
  {
    var inner := Inner(drupal, call, outer);
    if v in ViewsOfAll(drupal, call.children, inner) {
      ViewsOfAllComeFromHooks(drupal, call.children, inner, v);
    }
  }

  lemma {:induction false} ViewsOfAllComeFromHooks(drupal: bool, calls: seq<Call>, outer: Option<string>, v: View)
    requires v in ViewsOfAll(drupal, calls, outer)
    ensures v == Seen(outer) || (v.hook.Some? && v.checkCufa && v.hook.value in HooksOfAll(drupal, calls))
    decreases calls, 0
  {
    var n := |calls| - 1;
    if v in ViewsOfAll(drupal, calls[..n], outer) {
      ViewsOfAllComeFromHooks(drupal, calls[..n], outer, v);
    } else {
      ViewsComeFromHooks(drupal, calls[n], outer, v);
    }
  }

  /** Outside Drupal 6 and 7 nothing is ever current, whatever the calls. */
  lemma NothingOutsideDrupal(calls: seq<Call>, v: View)
    requires v in ViewsOfAll(false, calls, None)
    ensures v == View(None, false)
  {
    ViewsOfAllComeFromHooks(false, calls, None, v);
    NoHooksOutsideDrupal(calls);
  }

  lemma {:induction false} NoHooksOutsideDrupal(calls: seq<Call>)
    ensures HooksOfAll(false, calls) == []
  {
    if calls != [] {
      NoHooksOutsideDrupal(calls[..|calls| - 1]);
      NoHooksOutsideDrupal(calls[|calls| - 1].children);
    }
  }

  // ------------------------------------------------------------------------
  // The same, call by call: a call in a tree is given by its path of child positions.
  // ------------------------------------------------------------------------

  predicate IsPath(call: Call, path: seq<nat>) {
    path == [] || (path[0] < |call.children| && IsPath(call.children[path[0]], path[1..]))
  }

  /** The hook of the last call on the path that has one, or the one from outside. */
  function LastOnPath(call: Call, path: seq<nat>, outer: Option<string>): Option<string>
    requires IsPath(call, path)
  {
    var here := match call.hook case None => outer case Some(h) => if h == "" then outer else Some(h);
    if path == [] then here else LastOnPath(call.children[path[0]], path[1..], here)
  }

  /** How many points a call and everything inside it has, and before which of them a call on a path
      has been entered. */
  function Points(call: Call): nat
    decreases call, 1
  {
    2 + PointsOfAll(call.children)
  }

  function PointsOfAll(calls: seq<Call>): nat
    decreases calls, 0
  {
    if calls == [] then 0 else PointsOfAll(calls[..|calls| - 1]) + Points(calls[|calls| - 1])
  }

  function EntryOf(call: Call, path: seq<nat>): nat
    requires IsPath(call, path)
  {
    if path == [] then 0
    else 1 + PointsOfAll(call.children[..path[0]]) + EntryOf(call.children[path[0]], path[1..])
  }

  lemma {:induction false} ViewsCounted(drupal: bool, call: Call, outer: Option<string>)
    ensures |Views(drupal, call, outer)| == Points(call)
    decreases call, 1
  {
    ViewsOfAllCounted(drupal, call.children, Inner(drupal, call, outer));
  }

  lemma {:induction false} ViewsOfAllCounted(drupal: bool, calls: seq<Call>, outer: Option<string>)
    ensures |ViewsOfAll(drupal, calls, outer)| == PointsOfAll(calls)
    decreases calls, 0
  {
    if calls != [] {
      ViewsOfAllCounted(drupal, calls[..|calls| - 1], outer);
      ViewsCounted(drupal, calls[|calls| - 1], outer);
    }
  }

  /** Where the views of one of several calls stand. */
  lemma {:induction false} ViewsOfOne(drupal: bool, calls: seq<Call>, outer: Option<string>, i: nat, k: nat)
    requires i < |calls| && k < Points(calls[i])
    ensures |Views(drupal, calls[i], outer)| == Points(calls[i])
    ensures PointsOfAll(calls[..i]) + k < |ViewsOfAll(drupal, calls, outer)|
    ensures ViewsOfAll(drupal, calls, outer)[PointsOfAll(calls[..i]) + k] == Views(drupal, calls[i], outer)[k]
    decreases |calls|
  {
    var n := |calls| - 1;
    ViewsOfAllCounted(drupal, calls[..n], outer);
    ViewsCounted(drupal, calls[i], outer);
    if i < n {
      assert calls[..n][i] == calls[i] && calls[..n][..i] == calls[..i];
      ViewsOfOne(drupal, calls[..n], outer, i, k);
    }
  }

  /** A call with a hook: it is seen at once, it is what surrounds everything inside, what was seen
      outside is seen again in the end, and the hook is the last one given up. */
  lemma HookIsSeen(h: string, children: seq<Call>, exit: Exit, outer: Option<string>)
    requires h != ""
    ensures Views(true, Call(Some(h), children, exit), outer)
            == [View(Some(h), true)] + ViewsOfAll(true, children, Some(h)) + [View(outer, outer.Some?)]
    ensures Hooks(true, Call(Some(h), children, exit)) == HooksOfAll(true, children) + [h]
  {
  }

  /** A call without one changes nothing. */
  lemma NoHookIsSeen(hook: Option<string>, children: seq<Call>, exit: Exit, outer: Option<string>)
    requires hook == None || hook == Some("")
    ensures Views(true, Call(hook, children, exit), outer)
            == [View(outer, outer.Some?)] + ViewsOfAll(true, children, outer) + [View(outer, outer.Some?)]
    ensures Hooks(true, Call(hook, children, exit)) == HooksOfAll(true, children)
  {
    assert HooksOfAll(true, children) + [] == HooksOfAll(true, children);
  }

  /** When any call in a tree has been entered, the hook that is seen is that of the last call on
      the way to it that has one. */
  lemma {:induction false} SeenOnEntry(call: Call, path: seq<nat>, outer: Option<string>)
    requires IsPath(call, path)
    ensures EntryOf(call, path) < |Views(true, call, outer)| == Points(call)
    ensures var hook := LastOnPath(call, path, outer);
            Views(true, call, outer)[EntryOf(call, path)] == View(hook, hook.Some?)
    decreases |path|
  {
    ViewsCounted(true, call, outer);
    if path != [] {
      var i, rest, inner := path[0], path[1..], Inner(true, call, outer);
      SeenOnEntry(call.children[i], rest, inner);
      ViewsOfOne(true, call.children, inner, i, EntryOf(call.children[i], rest));
    }
  }
}
