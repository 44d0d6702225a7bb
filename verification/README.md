# Verified models of the PHP agent's stateful core

The agent observes a PHP program from inside the engine. Most of its code hands values from the
engine to the New Relic library; this project models the parts that do something of their own, and
proves what they do:

- the scanner for `key => value` lines (`RocketAssignments`, `RocketRoundTrip`), which reads a
  buffer while it cuts it into C strings;
- the tables behind `curl_exec` and `curl_multi_exec` (`CurlState`, `CurlTracker`, `CurlLists`,
  `CurlRuns`, `CurlGuard`, `CurlTouches`, `CurlRepeats`, `CurlEffects`) and the headers of curl
  requests (`CurlHeaders`);
- Drupal's nested calls: the current `module_invoke_all` hook, kept in two ways (`DrupalHooks`),
  the depth of `drupal_http_request` (`DrupalHttp`), and hook function names (`DrupalNames`);
- SQS queue URLs and Kinesis ARNs (`SqsQueueUrl`, `KinesisArn`);
- table names squashed in place (`TableNames`);
- protocols that put things back: explain plans obtained by running queries (`ExplainPlans`), a
  trace taken from a transaction that is still running (`TraceSnapshot`), and the cache of
  WordPress files (`WordpressFiles`).

Code that works in place is a class or a method over an array, proved against a function or a
predicate on values. What the code is for is then proved about that function: over every text, every
tree of nested calls, or every run of operations. PHP itself is an oracle: what it answers is a
parameter. A pointer into a buffer is a position; `CStrings.Reads` says what a C reader finds there.
A C `char` is a Dafny `char`. A `size_t` wraps around wherever the code relies on that or could run
into it.

`Options` holds the usual option type, `CIntegers` the integers that wrap around, and `CStrings` the
searches of the agent's string library.

## What came out

Properties that the documentation or the comments suggest and the code does not have. In each case
the model follows the code, and where there is a property left, its exact condition is proved.

- A slash behind an SQS queue name is not tolerated, although the comment calls it optional. Line
  548 moves the byte on instead of the pointer, so what follows never looks empty
  (`SqsQueueUrl.TrailingSlashRejected`).
- An empty value makes the scanner of `agent/php_environment.c:73-95` record a newline and drop the
  first byte of the next line (`RocketRoundTrip.EmptyValueSwallows`, `RocketRoundTrip.NextKeyCut`). A
  pair with an empty key is read and lost, because the hash refuses it
  (`RocketRoundTrip.EmptyKeyLost`). Which pairs survive being printed and scanned is
  `RocketRoundTrip.RoundTrip`.
- `nr_php_curl_exec_set_httpheaders` returns at once when there is no segment, although its caller
  says it must be called in that case too, to set the user's headers again. Headers generated for
  an earlier request stay with the handle (`CurlHeaders.GeneratedStay`,
  `CurlHeaders.WithoutSegment`).
- A header list that was set while the agent was not listening is lost with the first request that
  gets headers (`CurlHeaders.UnheardListLost`). In any run the user's list survives exactly when the
  last request that got headers found it saved, and it finds it saved exactly when the operation
  that set it was heard, or set the list heard before (`CurlHeaders.SurvivesExactly`,
  `CurlHeaders.ReplacedUnlessSaved`).
- A segment can be ended twice: by a request that is not instrumented, on a handle that has been
  used before, and by a multi handle that is run again after it had come to rest
  (`CurlTouches.RequestEndedTwice`, `CurlTouches.RootEndedTwice`). A run ends none twice exactly when
  between any two ends for a handle, or multi handle, a segment is started for it
  (`CurlTouches.EndedOnceExactly`). For the next call the condition is spelled out in
  `CurlTouches.NextRequest` and `CurlRepeats.NextMultiExec`.
- In the same way, and under the same condition, a segment that was discarded when its handle was
  taken off a multi handle can still be ended (`CurlTouches.DiscardedEnded`,
  `CurlTouches.AfterDiscardExactly`).
- The guard on stored segments compares start times only. It holds a segment back exactly when the
  transactions started at different times (`CurlGuard.GuardExact`). This does no harm: the agent
  clears both tables with every transaction, and then no start times need differ
  (`CurlGuard.ClearedTablesSuffice`). Only if tables outlived their transaction, which they do not,
  would equal start times matter (`CurlGuard.SameStartMixesTxns`).
- A directory is looked up in lower case in paths that are not. Where the plugin directory has an
  upper-case letter, a plugin's file is missed, or, if the directory in lower case occurs further on
  in its path, given to whatever follows there (`WordpressFiles.OwnerBelow`,
  `WordpressFiles.PluginMissed`, `WordpressFiles.PluginMistaken`). All paths below a directory are
  found exactly when it has none (`WordpressFiles.AllPathsFound`).
- A hook whose name occurs earlier in its module's name cuts the module short
  (`DrupalNames.ModuleRoundTrip`, `DrupalNames.HookInsideModule`).
- An ARN whose region or account spells `:stream/` does not give its stream back
  (`KinesisArn.BuildThenParse`, `KinesisArn.RegionTaken`).
- The segment of a query without text is neither ended nor discarded. None is left open exactly when
  all queries that run and have a segment have text (`ExplainPlans.NoneLeftOpen`,
  `ExplainPlans.EmptyQueryLeftOpen`).
- The comment on the WordPress rewrite describes the blog number as `[0-9]*`; the code wants at
  least one digit (`TableNames.SquashedExact`).

## Model

| member | source | states |
|---|---|---|
| RocketAssignments.ParseRocketAssignmentList | agent/php_environment.c:19-98 | the hash ends up as if the text had been read line by line before anything was overwritten; nothing but NULs is written, and nothing beyond the given length; without a buffer or a hash nothing happens |
| RocketAssignments.ScanBuffer | agent/php_environment.c:24-97 | the seven-state loop, with its NUL writes, its look back and its step that consumes nothing, computes the run of the state machine, and terminates |
| RocketAssignments.RunRecordsMeaning | agent/php_environment.c:35-97 | what the state machine records from the buffer it is overwriting is what the untouched text means |
| RocketAssignments.RunRecords | agent/php_environment.c:35-97 | from any state in the middle of a text: what is still recorded is what was pending there |
| RocketAssignments.OneStep | agent/php_environment.c:36-96 | every single step records exactly what is no longer pending after it, although it may cut the text already gathered |
| RocketAssignments.EndValueTexts | agent/php_environment.c:90-95 | when a value ends, the C strings at the two stored pointers are the gathered key and value |
| RocketAssignments.RunOnlyWritesNuls | agent/php_environment.c:52-96 | from any state, only NULs are written, and only within the length |
| RocketRoundTrip.RoundTrip | agent/php_environment.c:35-97 | behind any first line and with lines that assign nothing in between, printing pairs and scanning them gives the pairs back if and only if every key and value is of the stated form |
| RocketRoundTrip.PrintedEntries | agent/php_environment.c:35-97 | printed pairs of that form are recorded, all of them, in order |
| RocketRoundTrip.LinesShaped | agent/php_environment.c:35-97 | whatever the text, a recorded key is not empty, and key and value are of that form, but for NULs that were in the text |
| RocketRoundTrip.LastValueWins | agent/php_environment.c:90-95 | the hash keeps the last value recorded for a key, and all other keys as they were; an empty key is never recorded |
| RocketAssignments.KvHash.SetHashString | axiom/util_object.c:388-446 | a value is set under its key, and nothing under an empty one |
| RocketRoundTrip.EmptyKeyLost | agent/php_environment.c:43-95 | a line with an empty key, such as " => 17", is read and nothing is recorded, since the hash refuses it |
| RocketRoundTrip.EmptyValueSwallows | agent/php_environment.c:73-95 | with an empty value the newline is recorded in its place, and the next line loses its first byte |
| RocketRoundTrip.NextKeyCut | agent/php_environment.c:73-95 | so that a pair printed behind it is recorded without the first byte of its key |
| CurlTracker.CurlTracker.DrainFinished | agent/php_curl.c:773-787 | the loop that removes from the vector it walks, its position wrapping at 0, looks at each handle once and in order, ends exactly the finished ones in order, and leaves exactly the others in order |
| CurlTracker.CurlTracker.DrainRest | agent/php_curl.c:811-821 | the same loop without the test: every handle is ended once, in order, and the vector is empty |
| CurlTracker.CurlTracker.MultiExecPre | agent/php_curl.c:714-755 | the first run of a multi handle starts its root and all requests listed by then; later runs do nothing |
| CurlTracker.CurlTracker.MultiExecPost | agent/php_curl.c:757-799 | drains the finished handles and re-times the root, if it is of this transaction |
| CurlTracker.CurlTracker.MultiExecFinalize | agent/php_curl.c:801-824 | drains all handles and ends the root, if it is of this transaction |
| CurlTracker.CurlTracker.ExecPre | agent/php_curl.c:659-684 | a segment is started and stored exactly for a request that is instrumented in a transaction |
| CurlTracker.CurlTracker.ExecPost | agent/php_curl.c:686-712 | the stored segment is timed if asked for and ended, if it gets past the guard |
| CurlTracker.CurlTracker.GetCurlMetadata | agent/php_curl_md.c:93-114 | metadata is created on demand, and never for the id 0 |
| CurlTracker.CurlTracker.GetCurlMultiMetadata | agent/php_curl_md.c:116-143 | the same for multi handles, numbered by the count of the table |
| CurlTracker.CurlTracker.MdSetSegment | agent/php_curl_md.c:279-300 | a segment is stored with the start time of its own transaction |
| CurlTracker.CurlTracker.MdGetSegment | agent/php_curl_md.c:302-319 | the stored segment, unless the current transaction started at another time |
| CurlTracker.CurlTracker.MultiMdSetSegment | agent/php_curl_md.c:435-458 | the root segment of a multi handle is stored with the start time of its own transaction |
| CurlTracker.CurlTracker.MultiMdGetSegment | agent/php_curl_md.c:460-477 | the root segment, unless the current transaction started at another time |
| CurlTracker.CurlTracker.MultiMdAdd | agent/php_curl_md.c:354-393 | a handle goes to the end of the list unless it is on it; success is reported exactly then |
| CurlTracker.CurlTracker.MultiMdRemove | agent/php_curl_md.c:395-433 | a listed handle, and no other, is taken off; success is reported exactly then |
| CurlTracker.CurlTracker.FindFirst | agent/php_curl_md.c:375-381 | the first place of a handle in a list, if it is there, by the comparator's own comparison |
| CurlTracker.CurlTracker.CurlExec | agent/php_internal_instrument.c:2426-2454 | one step of a run: a single request |
| CurlTracker.CurlTracker.CurlMultiAddHandle | agent/php_internal_instrument.c:2461-2495 | one step of a run: a handle added to a multi handle that may be running |
| CurlTracker.CurlTracker.CurlMultiRemoveHandle | agent/php_internal_instrument.c:2502-2531 | one step of a run: a handle removed, its segment discarded |
| CurlTracker.CurlTracker.CurlMultiExec | agent/php_internal_instrument.c:2870-2927 | one step of a run: before, after, and the end when nothing is running any more |
| CurlTracker.CurlTracker.CurlRshutdown | agent/php_curl_md.c:321-344 | one step of a run: the multi metadata goes at the end of a request |
| CurlTracker.CurlTracker.RunAll | agent/php_internal_instrument.c:2426-2927 | the code through any run whatever: the balance of the lists, the end step before each drained handle and the guard hold, and where transactions are told apart no segment is touched outside its own |
| CurlTracker.WalkedIs | agent/php_curl.c:774-786 | after any number of turns of the loop: what stayed and what was ended so far |
| CurlTracker.BackAndOn | agent/php_curl.c:774-786 | stepping an unsigned position back and on again ends where it began, also at 0 |
| CurlTracker.ExecPostAside | agent/php_curl.c:686-712 | ending a request neither depends on the lists nor changes them |
| CurlTracker.WithoutAt | agent/php_curl_md.c:414-430 | cutting a handle out at its first place is removing it from the list |
| CurlTracker.CompareExactly | agent/php_curl_md.c:145-176 | two ids are taken for one exactly when their low 32 bits agree; ids of 32 bits, as those of objects, are told apart |
| CurlRuns.RunBooks | agent/php_curl_md.c:354-433 | after any run whatever: for each multi handle, successful adds are handles listed plus drained plus removed, each by each and in total; no handle is listed twice, none is 0; each drained handle had an end step of its own right before; multi handles are numbered from 1 on without gap or repeat |
| CurlRuns.MultiPostExact | agent/php_curl.c:773-787 | after a call: the end steps run are those of the finished handles, once each and in order, they are drained in that order, and the others are still listed in order |
| CurlRuns.FinalizeExact | agent/php_curl.c:801-824 | in the end: every handle still listed has its end step run once and in order, and the list is empty |
| CurlRuns.Names | agent/php_curl_md.c:69-75 | after any run, two multi handles have the same context name exactly when they are the same, and one keeps its name through every operation that does not forget them all |
| CurlRuns.NameText | agent/php_curl_md.c:71-71 | the name of an async context is a fixed text and the number of its multi handle in decimal |
| CurlRuns.SameDecimal | agent/php_curl_md.c:71 | different numbers are formatted differently |
| CurlRuns.StepKeeps | agent/php_curl.c:757-824 | every single operation keeps the balance, the end steps in front of drained handles, and the names |
| CurlLists.DrainAllNet | agent/php_curl.c:773-787 | draining handles moves the balance of those handles on that multi handle by one each, and no other |
| CurlLists.DrainAllLog | agent/php_curl.c:773-787 | each handle has its end step run once, in the order of the list, right before it goes |
| CurlLists.SplitHandles | agent/php_curl.c:777-779 | the finished and the other handles are together the list's handles, each once |
| CurlLists.WithoutOne | agent/php_curl_md.c:414-423 | removing takes one handle off and no other |
| CurlGuard.GuardExact | agent/php_curl_md.c:302-319 | a look-up returns a stored segment exactly when the current transaction has the start time of the segment's own |
| CurlGuard.AlwaysGuarded | agent/php_curl_md.c:279-319 | in any run whatever, whenever metadata holds a segment the time stored with it is when its own transaction started |
| CurlGuard.StaleSegmentsUntouched | agent/php_curl_md.c:435-477 | if every transaction that begins with metadata left over starts at a time of its own, no run times, ends or discards a segment of another transaction than the current one, and no look-up returns one |
| CurlGuard.RunOk | agent/php_curl.c:678-712 | the invariant behind it, over all runs |
| CurlGuard.StepKeeps | agent/php_curl.c:659-824 | every single operation keeps the guard and, told apart by their start times, the transactions' segments apart |
| CurlGuard.ClearedTablesSuffice | agent/php_txn.c:1350-1357 | with both tables cleared as the agent clears them, no run touches a segment of another transaction, whatever the start times |
| CurlGuard.SameStartMixesTxns | agent/php_curl_md.c:312-318 | a run the agent does not have, for it keeps metadata beyond its transaction: there the earlier segment of a transaction with the same start time would be ended again |
| CurlTouches.SameSegmentExactly | agent/php_curl.c:659-824 | in any run, two things are done to the same segment, be it timing, ending or discarding, exactly when they are done for the same handle or multi handle and none has been started for it in between |
| CurlTouches.EndedAgainExactly | agent/php_curl.c:686-712 | in any run, a segment that is ended has been ended before exactly when its handle, or multi handle, has ended one before and none has been started for it since |
| CurlTouches.EndedOnceExactly | agent/php_curl.c:659-824 | a run ends no segment twice exactly when between any two ends for the same handle, or multi handle, a segment is started for it |
| CurlTouches.AfterDiscardExactly | agent/php_internal_instrument.c:2516-2528 | in any run, a discarded segment is touched again exactly when its owner has started none since |
| CurlTouches.NextRequest | agent/php_curl.c:659-712 | after any run, the next request of a handle ends a segment that has been ended before exactly when it starts none, finds one stored, and the handle has ended that one already |
| CurlRepeats.NextMultiExec | agent/php_curl.c:714-824 | after any run, the next call of curl_multi_exec ends a segment that has been ended before exactly when it drains a handle that has ended its stored segment already, or nothing is running any more and the same is true of the root, and a first run has not started another one in its place |
| CurlRepeats.DrainAllAgain | agent/php_curl.c:773-787 | draining a list ends a segment again exactly when one of its handles has ended its stored segment already |
| CurlTouches.AlwaysOwned | agent/php_curl.c:659-824 | in any run, what is stored is the last segment started for its owner, and so is, at its time, whatever is touched |
| CurlTouches.RequestEndedTwice | agent/php_curl.c:659-712 | a run in which a handle ends its segment twice |
| CurlTouches.RootEndedTwice | agent/php_curl.c:801-824 | a run of instrumented requests only in which a multi handle ends its root twice |
| CurlTouches.DiscardedEnded | agent/php_internal_instrument.c:2516-2528 | a run in which a segment is ended after it was discarded |
| CurlTouches.SecondRequest | agent/php_curl.c:659-712 | of two requests in a row on one handle, the second ends a segment of its own exactly when it is to be instrumented, and otherwise the first one's again |
| CurlEffects.ExecExactly | agent/php_curl.c:654-712 | after any run: a request starts exactly one segment, in no async context, if it is one to be instrumented inside a transaction, and none otherwise; what is stored by then is ended, untimed |
| CurlEffects.ExecOfNoHandle | agent/php_curl.c:654-676 | what is no handle gets a segment that is stored nowhere and never ended |
| CurlEffects.AddHandleLists | agent/php_curl_md.c:354-393 | after any run: a handle not listed yet goes to the end of the list, and nothing else about the multi handles changes |
| CurlEffects.AddHandleStarts | agent/php_internal_instrument.c:2476-2492 | after any run: adding to a multi handle that runs already starts exactly one segment, in the async context of that multi handle, and stores it; no other addition starts any |
| CurlEffects.NothingToList | agent/php_curl_md.c:354-433 | without a multi handle and a handle neither adding nor removing does anything |
| CurlEffects.RemoveHandleExactly | agent/php_internal_instrument.c:2518-2528 | after any run: a listed handle goes from its place in the list, nothing is started, and the segment stored for it is discarded unless it is stale |
| CurlEffects.NotListedNotRemoved | agent/php_internal_instrument.c:2518-2528 | a handle that is not listed is not removed, and no segment is touched |
| CurlEffects.MultiExecStarts | agent/php_curl.c:714-755 | after any run: the first call for a multi handle starts its root segment and then one segment for each listed request that is to be instrumented, in order and in its own async context, and stores each; no later call starts any |
| CurlEffects.MultiExecEnds | agent/php_curl.c:757-824 | after any run: what a call leaves in the log, event by event, and which handles stay listed |
| CurlEffects.MultiExecOfNone | agent/php_curl.c:714-755 | what is no multi handle gets a root segment that is stored nowhere, and nothing else happens |
| CurlEffects.EndTxnExactly | agent/php_txn.c:1350-1357 | the end of a transaction starts and touches no segment and clears both tables, unless they are taken to be kept |
| CurlEffects.ShutdownExactly | agent/php_curl_md.c:321-344 | the end of a request takes the multi metadata, inside a transaction only |
| CurlEffects.ChosenInOrder | agent/php_curl.c:766-789 | the finished handles and the others are taken from a list in its order |
| CurlHeaders.CurlHeaders.ExecSetHttpheaders | agent/php_curl.c:222-362 | on every path the saved headers and the flag are as before; curl gets the saved headers in order followed by the generated ones, or is left alone: without a segment, without cross-process tracing, with a New Relic header saved, without generated headers or without the constant |
| CurlHeaders.CurlHeaders.CurlSetopt | agent/php_internal_instrument.c:2354-2377 | curl takes the value, and the agent saves it unless the flag is set |
| CurlHeaders.CurlHeaders.SetoptPost | agent/php_curl.c:445-491 | a header list, or what an object yields, is saved while the agent is listening |
| CurlHeaders.CurlHeaders.MdSetOutboundHeaders | agent/php_curl_md.c:218-244 | the saved list of a handle is replaced |
| CurlHeaders.ListsOfRun | agent/php_curl.c:264-355 | after any run whatever: saved is the list heard last, unless forgotten; curl has the list it was handed last with what was generated then, and the flag is clear |
| CurlHeaders.HeadersOfRun | agent/php_curl.c:264-355 | however many requests are made, as long as the list the user set last was heard, curl has it, once and in order, followed by the headers of the last request that got any, and it is still saved |
| CurlHeaders.SurvivesExactly | agent/php_curl.c:264-355 | after any run, curl has the list the user set last followed by generated headers exactly when the last request that got headers since then found it saved |
| CurlHeaders.WithoutSegment | agent/php_curl.c:238-247 | a request without a segment leaves curl alone, so that it has exactly the user's list if and only if the last request that got headers since, if any, got none |
| CurlHeaders.GeneratedStay | agent/php_curl.c:238-247 | a run in which the headers of an earlier request stay |
| CurlHeaders.InStepExactly | agent/php_curl.c:445-491 | a request finds the user's list saved exactly when it was heard as curl sees it, or was the same as the one heard before, or all lists have been forgotten and it is empty |
| CurlHeaders.ReplacedUnlessSaved | agent/php_curl.c:264-355 | after any run, the next request that gets headers replaces curl's list by the one heard last followed by its own; the user's survives exactly under that condition on the operations |
| CurlHeaders.UnheardListLost | agent/php_curl.c:445-491 | a list set while the agent was not listening is lost with the first such request |
| CurlHeaders.OneTestDecides | agent/php_curl.c:180-201 | of the four tests for a New Relic header the last one decides, in any case of letters |
| CurlHeaders.HandedTexts | agent/php_curl.c:318-355 | after any run: a request that gets headers hands curl the saved ones and behind them, in order, one text for each generated header: name, colon, blank, value |
| CurlHeaders.NothingHanded | agent/php_curl.c:238-316 | after any run: any other request leaves everything as it was |
| CurlHeaders.NameReadBack | agent/php_curl.c:326-331 | split at its first colon, such a text gives the name back exactly when the name has no colon |
| CurlHeaders.SetByUser | agent/php_curl.c:445-491 | after any run: what curl takes and what the agent saves of an array, of an object and of anything else |
| DrupalHooks.StacksRefineSaving | agent/fw_drupal.c:764-824 | over every sequence of well-nested call trees, with hooks or without, ending normally or not, the two stacks show the same current hook and the same flag at every point as saving and restoring does; both release the same hooks, each once, in the same order; the stacks end up empty |
| DrupalHooks.HookStacks.ModuleInvokeAll | agent/fw_drupal.c:764-790 | in the middle of any run: the callbacks around a tree of calls show the innermost hook at every point, release what they stacked, and leave stacks and flag as they were |
| DrupalHooks.HookStacks.Push | agent/fw_drupal_common.c:301-309 | both stacks and the flag after a push, for a hook and for anything else |
| DrupalHooks.HookStacks.Pop | agent/fw_drupal_common.c:311-319 | both stacks, the flag and what is released after a pop, also of an empty stack |
| DrupalHooks.HookStacks.Before | agent/fw_drupal.c:766-774 | nothing happens outside Drupal |
| DrupalHooks.HookStacks.After | agent/fw_drupal.c:775-779 | the callback of a call that returned pops, whatever the framework |
| DrupalHooks.HookStacks.Clean | agent/fw_drupal.c:781-787 | the callback of a call that was left by an exception does the same |
| DrupalHooks.PushedThenPopped | agent/fw_drupal_common.c:301-319 | popping takes back what was pushed, and releases it, for a hook and for anything else |
| DrupalHooks.SavedHook.ModuleInvokeAll | agent/fw_drupal.c:793-823 | saving and restoring shows the innermost hook at every point and leaves everything as it was |
| DrupalHooks.ViewsComeFromHooks | agent/fw_drupal.c:793-823 | whatever is seen in a tree of calls is one of the hooks taken up in it or the one from outside |
| DrupalHooks.NothingOutsideDrupal | agent/fw_drupal.c:764-774 | outside Drupal no hook is ever current and the flag is never set |
| DrupalHooks.HookIsSeen | agent/fw_drupal_common.c:301-309 | inside a call with a name that is not empty, that name is the current hook at every point where no other call is open inside it, and the flag is set |
| DrupalHooks.NoHookIsSeen | agent/fw_drupal.c:793-823 | inside a call without such a name, the hook from outside stays the current one |
| DrupalHooks.SeenOnEntry | agent/fw_drupal.c:793-823 | the first thing seen in a call is its own name, if it has one, and what was current before otherwise |
| DrupalHttp.RunAll | agent/fw_drupal.c:234-343 | over any sequence of call trees, the depth is the number of open calls at every point, on normal and exceptional exits; only outermost calls start segments; exactly those that return normally with a URL end them |
| DrupalHttp.HttpRequests.HttpRequest | agent/fw_drupal.c:234-343 | one tree in the middle of a run: a nested call leaves all segments alone, an outermost one ends the very segment it started or leaves it behind |
| DrupalHttp.HttpRequests.Before | agent/fw_drupal.c:234-275 | the depth grows by one, and only an outermost call starts a segment |
| DrupalHttp.HttpRequests.After | agent/fw_drupal.c:277-329 | the depth shrinks by one, and only an outermost call with a URL ends a segment |
| DrupalHttp.EndsAreStarts | agent/fw_drupal.c:256-318 | segments are ended at most once, in order, and only if started; all of them are ended exactly when every outermost call that got one finishes |
| DrupalHttp.OneRequest | agent/fw_drupal.c:256-318 | an outermost call ends the segment it was given exactly when it ends normally with a URL |
| DrupalHttp.EndsOfBoth | agent/fw_drupal.c:256-318 | what follows a sequence of calls ends its own segments, whatever that sequence left |
| DrupalHttp.DepthsStep | agent/fw_drupal.c:234-343 | from one point to the next the depth changes by one, it never falls below where it began, and it ends there |
| DrupalNames.ModuleRoundTrip | agent/fw_drupal_common.c:125-193 | taking module, underscore and hook apart gives the module back exactly when the hook first occurs at the start of the name or right behind the separator |
| DrupalNames.ParseByFirstOccurrence | agent/fw_drupal_common.c:125-193 | in all cases, the outcome depends only on where the hook first occurs in the name |
| DrupalNames.ParseModule | agent/fw_drupal_common.c:125-193 | whatever is passed, a module that is found is a prefix of the name, shorter than it |
| DrupalNames.LengthInName | agent/fw_drupal_common.c:151-185 | for names of any size, neither a hook that is not found nor one found at 0 wraps around to a length beyond the name |
| DrupalNames.StrNIdx | axiom/util_strings_bsd.c:50-77 | the first occurrence, or -1 if every one within the length lies behind a NUL |
| DrupalNames.HookFound | agent/fw_drupal_common.c:100-123 | in a hook function's name the hook is found, at the latest behind the separator |
| DrupalNames.HookInsideModule | agent/fw_drupal_common.c:125-193 | a module that is cut short |
| DrupalNames.ParseAnyName | agent/fw_drupal_common.c:125-193 | the outcome for any name longer than the hook: nothing if the hook does not occur or first occurs at 1, otherwise what precedes it and a separator |
| DrupalNames.ParseNothing | agent/fw_drupal_common.c:125-193 | without a name, with one no longer than the hook, or without a hook there is no module |
| SqsQueueUrl.ParseQueueUrl | agent/lib_aws_sdk_php.c:426-562 | all three outputs are set, and point at the region, account and name in the cut buffer, exactly if the URL splits; otherwise none is touched |
| SqsQueueUrl.SplitExact | agent/lib_aws_sdk_php.c:470-556 | a URL splits into given parts exactly if the parts are well formed and the URL is their concatenation with the fixed texts |
| SqsQueueUrl.SplitLanguage | agent/lib_aws_sdk_php.c:470-556 | the URLs that split are exactly the concatenations of well-formed parts, and no URL is one in two ways |
| SqsQueueUrl.TrailingSlashRejected | agent/lib_aws_sdk_php.c:539-554 | no URL that ends with a slash splits |
| SqsQueueUrl.SplitBuffer | agent/lib_aws_sdk_php.c:470-556 | the pointer walk and its cuts compute the split, and earlier parts survive later cuts |
| SqsQueueUrl.NameAt | agent/lib_aws_sdk_php.c:536-554 | the last part is accepted exactly if it is not empty and has no slash |
| SqsQueueUrl.SplitText | agent/lib_aws_sdk_php.c:440-556 | a URL spelled out splits into the parts it was put together from exactly when they are well formed |
| KinesisArn.SetParamsFromStreamArn | agent/lib_aws_sdk_php.c:182-236 | the destination is what follows the first ":stream/" and the ARN is kept, or nothing changes |
| KinesisArn.SetParamsFromStreamName | agent/lib_aws_sdk_php.c:239-289 | an ARN is built exactly if region, account and a destination are known; otherwise the two parts are passed on as they are |
| KinesisArn.BuildThenParse | agent/lib_aws_sdk_php.c:275-288 | a built ARN gives its stream name back exactly if the name is not empty and region and account do not spell ":stream/" in their places |
| KinesisArn.FirstStreamOfBuilt | agent/lib_aws_sdk_php.c:206-235 | exactly then the first ":stream/" of a built ARN is the one the builder wrote, however many the name contains |
| KinesisArn.RegionTaken | agent/lib_aws_sdk_php.c:206-235 | with a region that spells ":stream/" what comes back begins in the region |
| KinesisArn.PlainRegionAndAccount | agent/lib_aws_sdk_php.c:275-288 | without a slash in region and account every non-empty name comes back |
| KinesisArn.BuiltText | agent/lib_aws_sdk_php.c:278-279 | the text of a built ARN |
| KinesisArn.StreamExactly | agent/lib_aws_sdk_php.c:206-235 | of any ARN, the stream name is what follows the first ":stream/", unless that is nothing |
| TableNames.ModifyWordpress | agent/php_datastore.c:38-65 | despite overlapping source and destination the buffer holds the rewritten name, and nothing at or behind the old terminator changes |
| TableNames.CopyDown | agent/php_datastore.c:52-63 | the overlapping forward copy |
| TableNames.SquashedExact | agent/php_datastore.c:30-63 | a name changes exactly if it is a prefix, at least one digit, an underscore and the rest |
| TableNames.SameTable | agent/php_datastore.c:30-63 | two blogs' tables get one name exactly if they are copies of the same table |
| TableNames.SquashedTwice | agent/php_datastore.c:38-65 | rewriting again changes nothing, and names never grow |
| TableNames.ModifyMagento2 | agent/php_datastore.c:16-28 | the buffer holds the rewritten name, and nothing at or behind the old terminator changes |
| TableNames.SameTemporary | agent/php_datastore.c:16-28 | two names get one name exactly if they are equal or both temporary tables; rewriting again changes nothing |
| TableNames.TemporaryText | agent/php_datastore.c:16-28 | the texts before and after, and that other names stay |
| TableNames.DigitsAre | agent/php_datastore.c:45-51 | the digits of a blog number |
| ExplainPlans.NoExplainInsideExplain | agent/php_explain_mysqli.c:320-368 | for every tree of queries, of any API and with any failing step: no explain starts inside another, each one ends, no segment is kept for a query run during an explain and none is discarded for any other |
| ExplainPlans.ExplainsAreInvisible | agent/php_datastore.c:93-105 | the segments kept are, in order, those that would be kept if explains did not exist |
| ExplainPlans.TxnGlobals.RunQuery | agent/php_internal_instrument.c:1040-1085 | after a query, with all that runs inside it and inside its explain, the flag and the error reporting are as before, and the segments are those of the specification |
| ExplainPlans.TxnGlobals.ExplainMysqliQuery | agent/php_explain_mysqli.c:100-132 | the guards in front of the explain of a query, and the flag and error reporting afterwards |
| ExplainPlans.TxnGlobals.ExplainMysqliStmt | agent/php_explain_mysqli.c:134-168 | the same for a statement, whose link must be known |
| ExplainPlans.TxnGlobals.ExplainPdoStatement | agent/php_explain.c:142-189 | the same for PDO, which sets and clears the flag without looking at it again |
| ExplainPlans.TxnGlobals.Issue | agent/php_explain_mysqli.c:320-368 | on every path, whichever step fails, the flag is clear and the error reporting restored; there is a plan exactly if all steps succeed |
| ExplainPlans.TxnGlobals.EndSegmentSql | agent/php_datastore.c:81-145 | a segment is left open, discarded or kept |
| ExplainPlans.OpenExactly | agent/php_datastore.c:93-101 | for every tree of queries, as many segments are left open as queries with a segment and without text have run, an explain's included |
| ExplainPlans.NoneLeftOpen | agent/php_datastore.c:93-101 | none is left open exactly when there is no such query |
| ExplainPlans.TextlessLeftOpen | agent/php_datastore.c:93-101 | a query with a segment and without text leaves that segment open, whatever runs inside it |
| ExplainPlans.EmptyQueryLeftOpen | agent/php_datastore.c:93-101 | an empty query of which nothing else is seen |
| ExplainPlans.ExplainableExactly | agent/php_explain.c:82-140 | the queries that are explained: SELECT in any case, no semicolon before the last byte, no locking clause |
| ExplainPlans.OwnBegin | agent/php_explain.c:191-194 | a query starts one explain of its own if and only if none is running, it has a segment, it is slow, and the conditions of its API hold |
| ExplainPlans.BeginsExactly | agent/php_explain_mysqli.c:100-168 | over every tree of queries there are as many explains as queries that meet those conditions outside an explain; during an explain there is none |
| ExplainPlans.EndsWith | agent/php_datastore.c:81-145 | how a query ends; there is a plan exactly when its own explain ran and all the steps of its API succeeded |
| ExplainPlans.WantedSpelled | agent/php_explain_mysqli.c:320-368 | all the events of a query that is explained: an explain runs the queries of its steps, step by step, up to the first that fails |
| ExplainPlans.UnwantedSpelled | agent/php_explain.c:191-194 | any other query leaves what runs inside it and its own end, and nothing else |
| TraceSnapshot.Transaction.GetTraceJson | agent/php_api_internal.c:316-383 | the trace is assembled from a tree in which exactly the active segments have been stopped, and counted, with no threshold; afterwards every stop time, the count, the threshold and both tables are as before |
| TraceSnapshot.FindActiveSegments | agent/php_api_internal.c:282-297 | exactly the active segments of the tree are stopped and noted |
| TraceSnapshot.ResetActiveSegments | agent/php_api_internal.c:299-314 | exactly the noted segments of the tree become active again |
| TraceSnapshot.Transaction.Prepare | agent/php_api_internal.c:336-366 | what is changed before the trace is assembled |
| TraceSnapshot.Transaction.Restore | agent/php_api_internal.c:372-382 | undoes that, also where the count has wrapped around |
| TraceSnapshot.Transaction.Assemble | agent/php_api_internal.c:163-182 | metrics made by the assembly go to tables of its own, and the transaction's are back afterwards |
| TraceSnapshot.SegmentsExactly | agent/php_api_internal.c:353-354 | the segments of a tree are exactly those that a path of child positions leads to |
| TraceSnapshot.Transaction.TakeTrace | agent/php_api_internal.c:336-382 | the same as GetTraceJson, told by a table of stop times, once the transaction is known to be recorded |
| TraceSnapshot.ClosedIsPictured | agent/php_api_internal.c:348-366 | told by paths: the segment at each path is stopped if it was active and keeps its time otherwise, and each active one is counted once |
| WordpressFiles.LookupAll | agent/fw_wordpress.c:238-341 | every sequence of look-ups is answered as if there were no cache, and the matchers run once for each file name, also for those that belong to nothing |
| WordpressFiles.WordpressFiles.PluginFromFunction | agent/fw_wordpress.c:238-341 | one look-up: the rule's answer, cached under the name |
| WordpressFiles.WordpressFiles.RunMatchers | agent/fw_wordpress.c:282-333 | plugin, else theme, else nothing, also for core files; the matchers are built when first needed |
| WordpressFiles.WordpressFiles.GetThemeMatcher | agent/fw_wordpress.c:138-173 | one prefix for a single root, one for each root that is text, or the default |
| WordpressFiles.PathBelow | axiom/util_matcher.c:76-128 | what the matcher answers about any path below its directory: the next component if the directory has no upper-case letter; otherwise the component behind a later occurrence of it in lower case, or nothing |
| WordpressFiles.AllPathsFound | axiom/util_matcher.c:41-128 | every path below a directory is given to its next component if and only if the directory has no upper-case letter |
| WordpressFiles.OwnerBelow | agent/fw_wordpress.c:98-136 | the rule about any path below the plugin directory, under the same conditions, with the themes having the last word |
| WordpressFiles.PluginFileFound | agent/fw_wordpress.c:98-136 | a plugin's file is found in a lower-case directory, and missed in another one whose lower-case form does not occur further on |
| WordpressFiles.PluginMissed | axiom/util_matcher.c:95-107 | wherever the plugin directory has an upper-case letter and the themes are elsewhere, a file that belongs to nothing |
| WordpressFiles.PluginMistaken | axiom/util_matcher.c:95-107 | a file that is given to the wrong plugin |
| WordpressFiles.StripExactly | agent/fw_wordpress.c:68-79 | ".php" in any case is taken off the end of a name, once, and any other name stays |
| WordpressFiles.PluginDirectories | agent/fw_wordpress.c:98-136 | where plugins are looked for, and where by default |
| WordpressFiles.ThemeDirectories | agent/fw_wordpress.c:138-173 | where themes are looked for, root by root, and where by default |
| WordpressFiles.PrefixExactly | axiom/util_matcher.c:41-74 | a directory is kept in lower case with one slash at its end, whatever slashes it had there |
| WordpressFiles.ComponentTaken | axiom/util_matcher.c:76-128 | of several prefixes the first that occurs decides, and the component right behind its first occurrence is taken |
| WordpressFiles.NoneDecides | axiom/util_matcher.c:76-128 | nothing is found exactly when no prefix occurs |

## Left out

- CurlTracker.CurlTracker.DrainFinished: lists shorter than 2^64, as any vector is.
- CurlTracker.CurlTracker.DrainRest: lists shorter than 2^64, as any vector is.
- CurlTracker.CurlTracker.MultiExecPost: lists shorter than 2^64, as any vector is.
- CurlTracker.CurlTracker.MultiExecFinalize: lists shorter than 2^64, as any vector is.
- CurlTracker.CurlTracker.CurlMultiExec: lists shorter than 2^64, as any vector is.
- CurlTracker.CurlTracker.RunAll: runs in which lists stay shorter than 2^64, as any vector is, and ids have 32 bits.
- CurlTracker.CurlTracker.MultiMdAdd: ids of 32 bits.
- CurlTracker.CurlTracker.MultiMdRemove: ids of 32 bits.
- CurlTracker.CurlTracker.CurlMultiAddHandle: ids of 32 bits.
- CurlTracker.CurlTracker.ExecPre: which requests are instrumented (protocol, Guzzle on the call stack) is a parameter; the parent a segment is given, the URL, method, status and times of a request are not modelled. That a handle counts as finished is a parameter as well.
- CurlTracker.CurlTracker.FindFirst: ids of 32 bits, as those of objects are; the comparator takes longer ones for one if their low 32 bits agree (CompareExactly). The same goes for MultiMdAdd, MultiMdRemove and the operations that use them.
- CurlTracker.CurlTracker.CurlMultiRemoveHandle: discarding releases the segment while its pointer stays stored; what the released memory holds by the time it is touched again is not modelled, only exactly when it is (AfterDiscardExactly).
- CurlTracker.CurlTracker.GetCurlMultiMetadata: the failure to set up a vector, which leaves freed metadata in the table, is not modelled, and neither is any other failure to allocate.
- CurlGuard.StaleSegmentsUntouched: covers runs in which tables are kept beyond their transaction, under the condition stated; the agent has none of these, and ClearedTablesSuffice is about what it does. Start times are not 0.
- CurlHeaders.CurlHeaders.ExecSetHttpheaders: the names and values of the generated headers are a parameter, and so is the order in which their table yields them; the method of a request and the other options of curl_setopt are not modelled, nor is curl_reset.
- DrupalHooks.HookStacks.ModuleInvokeAll: the framework is the same throughout a run; the after and clean callbacks do not check it. A hook argument is text or nothing; the copy of one that is not a hook is never released. `nr_drupal94_invoke_all_with` does not push for an invalid hook and is not a driver of this machine.
- DrupalHttp.HttpRequests.After: only for a call that has been entered, as its clean counterpart; the framework is Drupal; header proxying is not modelled.
- DrupalNames.ModuleRoundTrip: names shorter than 2^31, which is what the cast to int leaves whole; what holds of longer names is LengthInName and ParseModule.
- KinesisArn.SetParamsFromStreamName: a missing name where a destination is already set prints as "(null)", as glibc does.
- ExplainPlans.TxnGlobals.Issue: a PHP bailout that jumps past the end of an explain is not modelled; neither are the rows of a plan, so fetching is one step that succeeds or fails. The queries that run inside a call are given with it.
- ExplainPlans.TxnGlobals.EndSegmentSql: what a kept segment records about its database, and the rewriting of its table name, are not part of it.
- TraceSnapshot.Transaction.GetTraceJson: the library's iterator is taken to visit every segment of the tree, and its finalisation to leave stop times, count and threshold alone; the JSON itself is not modelled. Counts are below 2^64.
- WordpressFiles.LookupAll: what PHP says about the site's directories does not change; a file name is text without a NUL. Tags, regular expressions and metrics of hooks are not modelled.
- SqsQueueUrl.ParseQueueUrl: the default for a missing end of text is not modelled: a NUL is required.
- Reference counts, the lifetime of zvals and memory that is never freed.
- The naming of transactions by framework, the public API's arguments, datastore instances, Monolog, message brokers, phpinfo, settings, logging and files: straight-line code around PHP calls.
- The Lambda ARN, WordPress tags and Docker ids, whose meaning lies in regular expressions.
- The agent's library beyond the searches, matchers and containers used here, and the daemon.
