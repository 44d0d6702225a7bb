/** Explain plans, which are themselves obtained by running queries: agent/php_explain.c,
    agent/php_explain_mysqli.c, agent/php_datastore.c. */
module ExplainPlans {
  import opened CStrings

  // ------------------------------------------------------------------------
  // Which queries may be explained.
  // ------------------------------------------------------------------------

  const SELECT := "SELECT "

  /** The searches stop at a NUL, and so does the copy of the query that is sent. */
  predicate IsExplainable(query: string) {
    && |query| >= |SELECT|
    && LowerAll(query[..|SELECT|]) == LowerAll(SELECT)
    && (var i := IndexOfChar(CStr(query), ';'); !(0 <= i < |query| - 1))
    && IndexOf(LowerAll(CStr(query)), LowerAll(" FOR UPDATE")) < 0
    && IndexOf(LowerAll(CStr(query)), LowerAll(" LOCK IN SHARE MODE")) < 0
  }

  /** Explained is exactly what starts with SELECT, in whatever case, has no semicolon before its
      last byte and no locking clause anywhere. */
  lemma ExplainableExactly(query: string)
    ensures var text := CStr(query);
            IsExplainable(query) <==>
            && |query| >= 7 && (forall i :: 0 <= i < 7 ==> Lower(query[i]) == "select "[i])
            && (forall i :: 0 <= i < |text| && i < |query| - 1 ==> text[i] != ';')
            && (forall i :: !OccursAt(LowerAll(text), LowerAll(" FOR UPDATE"), i))
            && (forall i :: !OccursAt(LowerAll(text), LowerAll(" LOCK IN SHARE MODE"), i))
  {
    var text := CStr(query);
    assert forall i :: 0 <= i < 7 ==> Lower(SELECT[i]) == "select "[i];
    if |query| >= 7 {
      SameInAnyCase(query[..7], SELECT);
    }
    FirstBefore(text, ';', |query| - 1);
    Absent(LowerAll(text), LowerAll(" FOR UPDATE"));
    Absent(LowerAll(text), LowerAll(" LOCK IN SHARE MODE"));
  }

  lemma SameInAnyCase(a: string, b: string)
    requires |a| == |b|
    ensures LowerAll(a) == LowerAll(b) <==> forall i :: 0 <= i < |a| ==> Lower(a[i]) == Lower(b[i])
  {
    if LowerAll(a) == LowerAll(b) {
      assert forall i :: 0 <= i < |a| ==> Lower(a[i]) == LowerAll(a)[i] == LowerAll(b)[i] == Lower(b[i]);
    }
  }

  lemma FirstBefore(s: string, c: char, end: int)
    ensures 0 <= IndexOfChar(s, c) < end <==> exists i :: 0 <= i < |s| && i < end && s[i] == c
  {
  }

  lemma Absent(s: string, pattern: string)
    ensures IndexOf(s, pattern) < 0 <==> forall i :: !OccursAt(s, pattern, i)
  {
  }

  // ------------------------------------------------------------------------
  // Queries, and what the explain of one may run.
  // ------------------------------------------------------------------------

  // A call into PHP: the queries that run inside it, and whether it gives what is wanted.
  datatype Foreign = Foreign(nested: seq<Query>, ok: bool)

  // The calls of one explain, in order: duplicating the link, preparing, rebinding (statements
  // only), executing, fetching. For PDO all of them are behind one call.
  datatype Steps = Steps(duplicate: Foreign, prepare: Foreign, rebind: Foreign, execute: Foreign, fetch: Foreign)

  datatype Api =
    | MysqliQuery(isLink: bool)
    | MysqliStmt(isStmt: bool, linkKnown: bool)
    | Pdo(isStatement: bool, isMysql: bool)
    | Other

  // One query: the API used, its text, whether it gets a segment, the queries that run inside its
  // handler, whether it took long enough, and what explaining it would do.
  datatype Query = Query(api: Api, sql: string, recorded: bool, inner: seq<Query>, slow: bool, steps: Steps)

  datatype Event =
    | ExplainBegins
    | ExplainEnds
    | Kept(sql: string, withPlan: bool)
    | Discarded
    | LeftOpen

  predicate IsBlank(sql: string) {
    sql == "" || sql[0] == NUL
  }

  /** Does the query start an explain when none is running? */
  predicate Explains(q: Query) {
    q.recorded && q.slow &&
    match q.api
    case MysqliQuery(isLink) => isLink && IsExplainable(q.sql)
    case MysqliStmt(isStmt, linkKnown) => isStmt && linkKnown && IsExplainable(q.sql)
    case Pdo(isStatement, isMysql) => isStatement && isMysql
    case Other => false
  }

  // ------------------------------------------------------------------------
  // The events of a run, defined without the flag.
  // ------------------------------------------------------------------------

  function Events(q: Query, during: bool): seq<Event>
    decreases q, 1
  {
    EventsOfAll(q.inner, during) + ExplainPart(q, during) + EndEvents(q, during)
  }

  function ExplainPart(q: Query, during: bool): seq<Event>
    decreases q, 0
  {
    if !during && Explains(q) then [ExplainBegins] + StepEvents(q.api, q.steps) + [ExplainEnds] else []
  }

  function EventsOfAll(qs: seq<Query>, during: bool): seq<Event>
    decreases qs, 0
  {
    if qs == [] then [] else EventsOfAll(qs[..|qs| - 1], during) + Events(qs[|qs| - 1], during)
  }

  /** The queries of the steps that are reached, all of them run during the explain. */
  function StepEvents(api: Api, s: Steps): seq<Event>
    decreases s
  {
    var duplicated := EventsOfAll(s.duplicate.nested, true);
    var prepared := duplicated + EventsOfAll(s.prepare.nested, true);
    var executed := prepared + EventsOfAll(s.execute.nested, true);
    if api.Pdo? || !s.duplicate.ok then duplicated
    else if !s.prepare.ok || (api.MysqliStmt? && !s.rebind.ok) then prepared
    else if !s.execute.ok then executed
    else executed + EventsOfAll(s.fetch.nested, true)
  }

  lemma AllSteps(api: Api, s: Steps, start: seq<Event>, prepared: seq<Event>)
    requires !api.Pdo? && s.duplicate.ok && s.prepare.ok && (api.MysqliStmt? ==> s.rebind.ok)
    requires prepared == EventsOfAll(s.duplicate.nested, true) + EventsOfAll(s.prepare.nested, true)
    ensures start + prepared + EventsOfAll(s.execute.nested, true)
            + (if s.execute.ok then EventsOfAll(s.fetch.nested, true) else [])
            == start + StepEvents(api, s)
  {
    Regroup(start, prepared, EventsOfAll(s.execute.nested, true),
            if s.execute.ok then EventsOfAll(s.fetch.nested, true) else []);
  }

  lemma Regroup(a: seq<Event>, b: seq<Event>, c: seq<Event>, d: seq<Event>)
    ensures a + b + c + d == a + (b + c + d)
    ensures d == [] ==> b + c + d == b + c
  {
  }

  predicate HasPlan(q: Query) {
    Explains(q) && q.steps.duplicate.ok &&
    (q.api.Pdo? ||
     (q.steps.prepare.ok && (q.api.MysqliStmt? ==> q.steps.rebind.ok) && q.steps.execute.ok && q.steps.fetch.ok))
  }

  function EndEvents(q: Query, during: bool): seq<Event> {
    if !q.recorded then []
    else if IsBlank(q.sql) then [LeftOpen]
    else if during then [Discarded]
    else [Kept(q.sql, HasPlan(q))]
  }

  // ------------------------------------------------------------------------
  // The code.
  // ------------------------------------------------------------------------

  class TxnGlobals {
    var generatingExplainPlan: int
    var errorReporting: int
    var log: seq<Event>

    constructor (errorReporting: int)
      ensures generatingExplainPlan == 0 && log == [] && this.errorReporting == errorReporting
    {
      generatingExplainPlan, log := 0, [];
      this.errorReporting := errorReporting;
    }

    ghost predicate During()
      reads this
    {
      generatingExplainPlan != 0
    }

    method SilenceErrors() returns (was: int)
      modifies this`errorReporting
      ensures was == old(errorReporting) && errorReporting == 0
    {
      was := errorReporting;
      errorReporting := 0;
    }

    method RestoreErrors(was: int)
      modifies this`errorReporting
      ensures errorReporting == was
    {
      errorReporting := was;
    }

    predicate ExplainWanted(slow: bool)
      reads this
    {
      generatingExplainPlan == 0 && slow
    }

    method RunAll(qs: seq<Query>)
      modifies this
      ensures generatingExplainPlan == old(generatingExplainPlan) && errorReporting == old(errorReporting)
      ensures log == old(log) + EventsOfAll(qs, old(During()))
      decreases qs, 0
    {
      for i := 0 to |qs|
        invariant generatingExplainPlan == old(generatingExplainPlan) && errorReporting == old(errorReporting)
        invariant log == old(log) + EventsOfAll(qs[..i], old(During()))
      {
        RunQuery(qs[i]);
        assert qs[..i + 1][..i] == qs[..i];
      }
      assert qs[..|qs|] == qs;
    }

    /** One instrumented query. Whatever runs inside it, and however an explain of it ends, the flag
        and the error reporting are afterwards as they were before. */
    method RunQuery(q: Query)
      modifies this
      ensures generatingExplainPlan == old(generatingExplainPlan) && errorReporting == old(errorReporting)
      ensures log == old(log) + Events(q, old(During()))
      decreases q, 2
    {
      ghost var start, during := log, During();
      var inner, explain := EventsOfAll(q.inner, during), ExplainPart(q, during);
      RunAll(q.inner);
      if !q.recorded {
        assert inner + [] + [] == inner;
        return;
      }
      var plan := Explain(q);
      assert log == start + (inner + explain);
      EndSegmentSql(q.sql, plan);
    }

    method Explain(q: Query) returns (plan: bool)
      requires q.recorded
      modifies this
      ensures generatingExplainPlan == old(generatingExplainPlan) && errorReporting == old(errorReporting)
      ensures log == old(log) + ExplainPart(q, old(During()))
      ensures plan == (!old(During()) && HasPlan(q))
      decreases q, 1
    {
      plan := false;
      match q.api {
        case MysqliQuery(isLink) =>
          if generatingExplainPlan == 0 && isLink {
            plan := ExplainMysqliQuery(q);
          }
        case MysqliStmt(isStmt, _) =>
          if generatingExplainPlan == 0 && isStmt {
            plan := ExplainMysqliStmt(q);
          }
        case Pdo(_, _) =>
          plan := ExplainPdoStatement(q);
        case Other =>
      }
    }

    method ExplainMysqliQuery(q: Query) returns (plan: bool)
      requires q.recorded && q.api == MysqliQuery(true) && !During()
      modifies this
      ensures generatingExplainPlan == old(generatingExplainPlan) && errorReporting == old(errorReporting)
      ensures log == old(log) + ExplainPart(q, false)
      ensures plan == HasPlan(q)
      decreases q, 0
    {
      if !ExplainWanted(q.slow) {
        return false;
      }
      if !IsExplainable(q.sql) {
        return false;
      }
      plan := Issue(q.api, q.steps);
    }

    method ExplainMysqliStmt(q: Query) returns (plan: bool)
      requires q.recorded && q.api.MysqliStmt? && q.api.isStmt && !During()
      modifies this
      ensures generatingExplainPlan == old(generatingExplainPlan) && errorReporting == old(errorReporting)
      ensures log == old(log) + ExplainPart(q, false)
      ensures plan == HasPlan(q)
      decreases q, 0
    {
      if !ExplainWanted(q.slow) {
        return false;
      }
      if !q.api.linkKnown {
        return false;
      }
      if !IsExplainable(q.sql) {
        return false;
      }
      plan := Issue(q.api, q.steps);
    }

    /** The flag is set and cleared here whatever its value was, so all that keeps an explain from
        clearing the flag of another is the check in front of it. */
    method ExplainPdoStatement(q: Query) returns (plan: bool)
      requires q.recorded && q.api.Pdo?
      modifies this
      ensures generatingExplainPlan == old(generatingExplainPlan) && errorReporting == old(errorReporting)
      ensures log == old(log) + ExplainPart(q, old(During()))
      ensures plan == (!old(During()) && HasPlan(q))
      decreases q, 0
    {
      if !ExplainWanted(q.slow) {
        return false;
      }
      if !q.api.isStatement {
        return false;
      }
      if q.api.isMysql {
        generatingExplainPlan := 1;
        log := log + [ExplainBegins];
        RunAll(q.steps.duplicate.nested);
        plan := q.steps.duplicate.ok;
        generatingExplainPlan := 0;
        log := log + [ExplainEnds];
        return;
      }
      return false;
    }

    method Issue(api: Api, s: Steps) returns (plan: bool)
      requires !During() && !api.Pdo?
      modifies this
      ensures generatingExplainPlan == 0 && errorReporting == old(errorReporting)
      ensures log == old(log) + ([ExplainBegins] + StepEvents(api, s) + [ExplainEnds])
      ensures plan == (s.duplicate.ok && s.prepare.ok && (api.MysqliStmt? ==> s.rebind.ok)
                       && s.execute.ok && s.fetch.ok)
      decreases s, 2
    {
      var was := SilenceErrors();
      generatingExplainPlan := 1;
      log := log + [ExplainBegins];
      plan := IssueSteps(api, s);
      RestoreErrors(was);
      generatingExplainPlan := 0;
      log := log + [ExplainEnds];
    }

    method IssueSteps(api: Api, s: Steps) returns (plan: bool)
      requires generatingExplainPlan == 1 && !api.Pdo?
      modifies this
      ensures generatingExplainPlan == 1 && errorReporting == old(errorReporting)
      ensures log == old(log) + StepEvents(api, s)
      ensures plan == (s.duplicate.ok && s.prepare.ok && (api.MysqliStmt? ==> s.rebind.ok)
                       && s.execute.ok && s.fetch.ok)
      decreases s, 1
    {
      ghost var start := log;
      ghost var a, b := EventsOfAll(s.duplicate.nested, true), EventsOfAll(s.prepare.nested, true);
      RunAll(s.duplicate.nested);
      if !s.duplicate.ok {
        return false;
      }
      RunAll(s.prepare.nested);
      assert log == start + (a + b);
      if !s.prepare.ok {
        return false;
      }
      if api.MysqliStmt? && !s.rebind.ok {
        return false;
      }
      plan := ExecuteAndFetch(s);
      AllSteps(api, s, start, a + b);
    }

    method ExecuteAndFetch(s: Steps) returns (plan: bool)
      requires generatingExplainPlan == 1
      modifies this
      ensures generatingExplainPlan == 1 && errorReporting == old(errorReporting)
      ensures log == old(log) + EventsOfAll(s.execute.nested, true)
                     + (if s.execute.ok then EventsOfAll(s.fetch.nested, true) else [])
      ensures plan == (s.execute.ok && s.fetch.ok)
      decreases s, 0
    {
      RunAll(s.execute.nested);
      if !s.execute.ok {
        return false;
      }
      RunAll(s.fetch.nested);
      plan := s.fetch.ok;
    }

    /** A query without text leaves its segment open: it is neither ended nor discarded. */
    method EndSegmentSql(sql: string, plan: bool)
      modifies this`log
      ensures log == old(log) + [if IsBlank(sql) then LeftOpen else if During() then Discarded else Kept(sql, plan)]
    {
      if IsBlank(sql) {
        log := log + [LeftOpen];
        return;
      }
      if generatingExplainPlan != 0 {
        log := log + [Discarded];
        return;
      }
      log := log + [Kept(sql, plan)];
    }
  }

  // ------------------------------------------------------------------------
  // What every run keeps.
  // ------------------------------------------------------------------------

  /** Reads the events with the number of running explains; a violation sticks. */
  function Monitor(events: seq<Event>, running: int): int {
    if events == [] then running
    else
      var before := Monitor(events[..|events| - 1], running);
      match events[|events| - 1]
      case ExplainBegins => if before == 0 then 1 else -1
      case ExplainEnds => if before == 1 then 0 else -1
      case Kept(_, _) => if before == 0 then 0 else -1
      case Discarded => if before == 1 then 1 else -1
      case LeftOpen => before
  }

  lemma {:induction false} MonitorAppend(a: seq<Event>, b: seq<Event>, running: int)
    ensures Monitor(a + b, running) == Monitor(b, Monitor(a, running))
  {
    if b == [] {
      assert a + b == a;
    } else {
      MonitorAppend(a, b[..|b| - 1], running);
      assert (a + b)[..|a + b| - 1] == a + b[..|b| - 1];
    }
  }

  /** No explain starts inside another, every explain ends, no segment is kept for a query run
      during an explain and none discarded for any other. */
  lemma {:induction false} NoExplainInsideExplain(q: Query, during: bool)
    ensures Monitor(Events(q, during), if during then 1 else 0) == if during then 1 else 0
    decreases q, 1
  {
    var running := if during then 1 else 0;
    var inner, explain := EventsOfAll(q.inner, during), ExplainPart(q, during);
    NoneInsideAll(q.inner, during);
    ExplainMonitored(q, during);
    MonitorAppend(inner, explain, running);
    MonitorAppend(inner + explain, EndEvents(q, during), running);
    EndMonitored(q, during);
  }

  lemma EndMonitored(q: Query, during: bool)
    ensures Monitor(EndEvents(q, during), if during then 1 else 0) == if during then 1 else 0
  {
  }

  lemma {:induction false} NoneInsideAll(qs: seq<Query>, during: bool)
    ensures Monitor(EventsOfAll(qs, during), if during then 1 else 0) == if during then 1 else 0
    decreases qs, 0
  {
    if qs != [] {
      var init, last := qs[..|qs| - 1], qs[|qs| - 1];
      NoneInsideAll(init, during);
      NoExplainInsideExplain(last, during);
      MonitorAppend(EventsOfAll(init, during), Events(last, during), if during then 1 else 0);
    }
  }

  lemma StepsMonitored(api: Api, s: Steps)
    ensures Monitor(StepEvents(api, s), 1) == 1
    decreases s
  {
    var a, b := EventsOfAll(s.duplicate.nested, true), EventsOfAll(s.prepare.nested, true);
    var c, d := EventsOfAll(s.execute.nested, true), EventsOfAll(s.fetch.nested, true);
    NoneInsideAll(s.duplicate.nested, true);
    NoneInsideAll(s.prepare.nested, true);
    NoneInsideAll(s.execute.nested, true);
    NoneInsideAll(s.fetch.nested, true);
    MonitorAppend(a, b, 1);
    MonitorAppend(a + b, c, 1);
    MonitorAppend(a + b + c, d, 1);
  }

  lemma ExplainMonitored(q: Query, during: bool)
    ensures Monitor(ExplainPart(q, during), if during then 1 else 0) == if during then 1 else 0
    decreases q, 0
  {
    if !during && Explains(q) {
      var steps := StepEvents(q.api, q.steps);
      StepsMonitored(q.api, q.steps);
      MonitorAppend([ExplainBegins], steps, 0);
      MonitorAppend([ExplainBegins] + steps, [ExplainEnds], 0);
    }
  }

  /** The texts of the segments that are kept, in order. */
  function KeptTexts(events: seq<Event>): seq<string> {
    if events == [] then []
    else
      var last := events[|events| - 1];
      KeptTexts(events[..|events| - 1]) + if last.Kept? then [last.sql] else []
  }

  /** The texts a run would keep if explains did not exist. */
  function OwnTexts(q: Query): seq<string>
    decreases q, 1
  {
    OwnTextsOfAll(q.inner) + if q.recorded && !IsBlank(q.sql) then [q.sql] else []
  }

  function OwnTextsOfAll(qs: seq<Query>): seq<string>
    decreases qs, 0
  {
    if qs == [] then [] else OwnTextsOfAll(qs[..|qs| - 1]) + OwnTexts(qs[|qs| - 1])
  }

  lemma {:induction false} KeptAppend(a: seq<Event>, b: seq<Event>)
    ensures KeptTexts(a + b) == KeptTexts(a) + KeptTexts(b)
  {
    if b == [] {
      assert a + b == a;
    } else {
      KeptAppend(a, b[..|b| - 1]);
      assert (a + b)[..|a + b| - 1] == a + b[..|b| - 1];
    }
  }

  lemma KeptThree(a: seq<Event>, b: seq<Event>, c: seq<Event>, kept: seq<string>)
    requires KeptTexts(a) == kept && KeptTexts(b) == []
    ensures KeptTexts(a + b + c) == kept + KeptTexts(c)
  {
    KeptAppend(a, b);
    KeptAppend(a + b, c);
  }

  lemma EndKept(q: Query, during: bool)
    ensures KeptTexts(EndEvents(q, during)) == if !during && q.recorded && !IsBlank(q.sql) then [q.sql] else []
  {
  }

  /** Running explains changes nothing about which segments are kept, and during one none is. */
  lemma {:induction false} ExplainsAreInvisible(q: Query, during: bool)
    ensures KeptTexts(Events(q, during)) == if during then [] else OwnTexts(q)
    decreases q, 1
  {
    InvisibleInAll(q.inner, during);
    ExplainInvisible(q, during);
    EndKept(q, during);
    KeptThree(EventsOfAll(q.inner, during), ExplainPart(q, during), EndEvents(q, during),
              if during then [] else OwnTextsOfAll(q.inner));
  }

  lemma ExplainInvisible(q: Query, during: bool)
    ensures KeptTexts(ExplainPart(q, during)) == []
    decreases q, 0
  {
    if !during && Explains(q) {
      var steps := StepEvents(q.api, q.steps);
      StepsInvisible(q.api, q.steps);
      KeptAppend([ExplainBegins], steps);
      KeptAppend([ExplainBegins] + steps, [ExplainEnds]);
    }
  }

  lemma {:induction false} InvisibleInAll(qs: seq<Query>, during: bool)
    ensures KeptTexts(EventsOfAll(qs, during)) == if during then [] else OwnTextsOfAll(qs)
    decreases qs, 0
  {
    if qs != [] {
      var init, last := qs[..|qs| - 1], qs[|qs| - 1];
      InvisibleInAll(init, during);
      ExplainsAreInvisible(last, during);
      KeptAppend(EventsOfAll(init, during), Events(last, during));
    }
  }

  lemma StepsInvisible(api: Api, s: Steps)
    ensures KeptTexts(StepEvents(api, s)) == []
    decreases s
  {
    var a, b := EventsOfAll(s.duplicate.nested, true), EventsOfAll(s.prepare.nested, true);
    var c, d := EventsOfAll(s.execute.nested, true), EventsOfAll(s.fetch.nested, true);
    InvisibleInAll(s.duplicate.nested, true);
    InvisibleInAll(s.prepare.nested, true);
    InvisibleInAll(s.execute.nested, true);
    InvisibleInAll(s.fetch.nested, true);
    KeptAppend(a, b);
    KeptAppend(a + b, c);
    KeptAppend(a + b + c, d);
  }

  // ------------------------------------------------------------------------
  // Segments that are left open.
  // ------------------------------------------------------------------------

  /** The queries that run, an explain's included, in the order in which they end. */
  function Ran(q: Query, during: bool): seq<Query>
    decreases q, 1
  {
    RanOfAll(q.inner, during) + (if !during && Explains(q) then RanInSteps(q.api, q.steps) else []) + [q]
  }

  function RanOfAll(qs: seq<Query>, during: bool): seq<Query>
    decreases qs, 0
  {
    if qs == [] then [] else RanOfAll(qs[..|qs| - 1], during) + Ran(qs[|qs| - 1], during)
  }

  function RanInSteps(api: Api, s: Steps): seq<Query>
    decreases s
  {
    var duplicated := RanOfAll(s.duplicate.nested, true);
    var prepared := duplicated + RanOfAll(s.prepare.nested, true);
    var executed := prepared + RanOfAll(s.execute.nested, true);
    if api.Pdo? || !s.duplicate.ok then duplicated
    else if !s.prepare.ok || (api.MysqliStmt? && !s.rebind.ok) then prepared
    else if !s.execute.ok then executed
    else executed + RanOfAll(s.fetch.nested, true)
  }

  /** A query with a segment, but without text. */
  predicate Textless(q: Query) {
    q.recorded && IsBlank(q.sql)
  }

  function CountTextless(qs: seq<Query>): nat {
    if qs == [] then 0 else CountTextless(qs[..|qs| - 1]) + if Textless(qs[|qs| - 1]) then 1 else 0
  }

  function CountOpen(events: seq<Event>): nat {
    if events == [] then 0 else CountOpen(events[..|events| - 1]) + if events[|events| - 1].LeftOpen? then 1 else 0
  }

  lemma {:induction false} OpenAppend(a: seq<Event>, b: seq<Event>)
    ensures CountOpen(a + b) == CountOpen(a) + CountOpen(b)
  {
    if b == [] {
      assert a + b == a;
    } else {
      OpenAppend(a, b[..|b| - 1]);
      assert (a + b)[..|a + b| - 1] == a + b[..|b| - 1];
    }
  }

  lemma {:induction false} TextlessAppend(a: seq<Query>, b: seq<Query>)
    ensures CountTextless(a + b) == CountTextless(a) + CountTextless(b)
  {
    if b == [] {
      assert a + b == a;
    } else {
      TextlessAppend(a, b[..|b| - 1]);
      assert (a + b)[..|a + b| - 1] == a + b[..|b| - 1];
    }
  }

  /** As many segments are left open as queries without text have run. */
  predicate OpenFor(events: seq<Event>, ran: seq<Query>) {
    CountOpen(events) == CountTextless(ran)
  }

  lemma OpenForBoth(a: seq<Event>, b: seq<Event>, c: seq<Query>, d: seq<Query>)
    requires OpenFor(a, c) && OpenFor(b, d)
    ensures OpenFor(a + b, c + d)
  {
    OpenAppend(a, b);
    TextlessAppend(c, d);
  }

  lemma EndOpen(q: Query, during: bool)
    ensures OpenFor(EndEvents(q, during), [q])
  {
    assert [q][..0] == [];
  }

  /** In any tree of queries, the segments left open are those of queries without text, one each. */
  lemma {:induction false} OpenExactly(q: Query, during: bool)
    ensures OpenFor(Events(q, during), Ran(q, during))
    decreases q, 1
  {
    var inner, explain := EventsOfAll(q.inner, during), ExplainPart(q, during);
    var ran, explaining := RanOfAll(q.inner, during), if !during && Explains(q) then RanInSteps(q.api, q.steps) else [];
    OpenInAll(q.inner, during);
    OpenInExplain(q, during);
    OpenForBoth(inner, explain, ran, explaining);
    EndOpen(q, during);
    OpenForBoth(inner + explain, EndEvents(q, during), ran + explaining, [q]);
  }

  lemma OpenInExplain(q: Query, during: bool)
    ensures OpenFor(ExplainPart(q, during), if !during && Explains(q) then RanInSteps(q.api, q.steps) else [])
    decreases q, 0
  {
    if !during && Explains(q) {
      var steps := StepEvents(q.api, q.steps);
      OpenInSteps(q.api, q.steps);
      OpenAppend([ExplainBegins], steps);
      OpenAppend([ExplainBegins] + steps, [ExplainEnds]);
      assert [ExplainBegins][..0] == [] && [ExplainEnds][..0] == [];
    }
  }

  lemma {:induction false} OpenInAll(qs: seq<Query>, during: bool)
    ensures OpenFor(EventsOfAll(qs, during), RanOfAll(qs, during))
    decreases qs, 0
  {
    if qs != [] {
      var init, last := qs[..|qs| - 1], qs[|qs| - 1];
      OpenInAll(init, during);
      OpenExactly(last, during);
      OpenForBoth(EventsOfAll(init, during), Events(last, during), RanOfAll(init, during), Ran(last, during));
    }
  }

  lemma OpenInSteps(api: Api, s: Steps)
    ensures OpenFor(StepEvents(api, s), RanInSteps(api, s))
    decreases s
  {
    var a, b := EventsOfAll(s.duplicate.nested, true), EventsOfAll(s.prepare.nested, true);
    var c, d := EventsOfAll(s.execute.nested, true), EventsOfAll(s.fetch.nested, true);
    var e, f := RanOfAll(s.duplicate.nested, true), RanOfAll(s.prepare.nested, true);
    var g, h := RanOfAll(s.execute.nested, true), RanOfAll(s.fetch.nested, true);
    OpenInAll(s.duplicate.nested, true);
    OpenInAll(s.prepare.nested, true);
    OpenInAll(s.execute.nested, true);
    OpenInAll(s.fetch.nested, true);
    OpenForBoth(a, b, e, f);
    OpenForBoth(a + b, c, e + f, g);
    OpenForBoth(a + b + c, d, e + f + g, h);
  }

  lemma {:induction false} NoneCounted(events: seq<Event>, ran: seq<Query>)
    ensures CountOpen(events) == 0 <==> LeftOpen !in events
    ensures CountTextless(ran) == 0 <==> forall r :: r in ran ==> !Textless(r)
    decreases |events| + |ran|
  {
    if events != [] {
      NoneCounted(events[..|events| - 1], ran);
      assert events == events[..|events| - 1] + [events[|events| - 1]];
    } else if ran != [] {
      NoneCounted(events, ran[..|ran| - 1]);
      assert ran == ran[..|ran| - 1] + [ran[|ran| - 1]];
    }
  }

  /** No segment is left open exactly when every query that runs and has a segment has text. */
  lemma NoneLeftOpen(q: Query, during: bool)
    ensures LeftOpen !in Events(q, during) <==> forall r :: r in Ran(q, during) ==> !Textless(r)
  {
    OpenExactly(q, during);
    NoneCounted(Events(q, during), Ran(q, during));
  }

  /** A query without text leaves its own segment open, whatever runs inside it. */
  lemma TextlessLeftOpen(q: Query, during: bool)
    requires Textless(q)
    ensures Events(q, during) != [] && Events(q, during)[|Events(q, during)| - 1] == LeftOpen
  {
    assert EndEvents(q, during) == [LeftOpen];
  }

  /** For one, an empty query with nothing inside it. */
  lemma EmptyQueryLeftOpen(steps: Steps)
    ensures Events(Query(Other, "", true, [], false, steps), false) == [LeftOpen]
  {
    var q := Query(Other, "", true, [], false, steps);
    TextlessLeftOpen(q, false);
    assert |ExplainPart(q, false)| == 0 && |EventsOfAll(q.inner, false)| == 0;
  }

  // ------------------------------------------------------------------------
  // Which queries are explained, and with what result.
  // ------------------------------------------------------------------------

  /** A query that is slow and has a segment, of an API that can explain it: a mysqli link or a
      statement whose link is known, with explainable text, or a PDO statement of the MySQL driver. */
  predicate Wanted(q: Query) {
    && q.recorded && q.slow
    && ((q.api == MysqliQuery(true) && IsExplainable(q.sql))
        || (q.api == MysqliStmt(true, true) && IsExplainable(q.sql))
        || q.api == Pdo(true, true))
  }

  /** The queries of a tree that are wanted, those that only run in explains left aside. */
  function CountWanted(q: Query): nat
    decreases q, 1
  {
    CountWantedOfAll(q.inner) + if Wanted(q) then 1 else 0
  }

  function CountWantedOfAll(qs: seq<Query>): nat
    decreases qs, 0
  {
    if qs == [] then 0 else CountWantedOfAll(qs[..|qs| - 1]) + CountWanted(qs[|qs| - 1])
  }

  function CountBegins(events: seq<Event>): nat {
    if events == [] then 0 else CountBegins(events[..|events| - 1]) + if events[|events| - 1].ExplainBegins? then 1 else 0
  }

  lemma {:induction false} BeginsAppend(a: seq<Event>, b: seq<Event>)
    ensures CountBegins(a + b) == CountBegins(a) + CountBegins(b)
  {
    if b == [] {
      assert a + b == a;
    } else {
      BeginsAppend(a, b[..|b| - 1]);
      assert (a + b)[..|a + b| - 1] == a + b[..|b| - 1];
    }
  }

  lemma BeginsOfThree(a: seq<Event>, b: seq<Event>, c: seq<Event>)
    ensures CountBegins(a + b + c) == CountBegins(a) + CountBegins(b) + CountBegins(c)
  {
    BeginsAppend(a, b);
    BeginsAppend(a + b, c);
  }

  lemma BeginsOfEnd(q: Query, during: bool)
    ensures CountBegins(EndEvents(q, during)) == 0
  {
  }

  /** A query starts one explain of its own if and only if it is wanted and none is running. */
  lemma {:induction false} OwnBegin(q: Query, during: bool)
    ensures CountBegins(Events(q, during))
            == CountBegins(EventsOfAll(q.inner, during)) + if !during && Wanted(q) then 1 else 0
    decreases q, 1
  {
    BeginsOfExplain(q, during);
    BeginsOfEnd(q, during);
    BeginsOfThree(EventsOfAll(q.inner, during), ExplainPart(q, during), EndEvents(q, during));
  }

  lemma BeginsOfExplain(q: Query, during: bool)
    ensures CountBegins(ExplainPart(q, during)) == if !during && Wanted(q) then 1 else 0
    decreases q, 0
  {
    if !during && Explains(q) {
      NoBeginInSteps(q.api, q.steps);
      BeginsOfThree([ExplainBegins], StepEvents(q.api, q.steps), [ExplainEnds]);
      assert [ExplainBegins][..0] == [] && [ExplainEnds][..0] == [];
    }
  }

  lemma {:induction false} NoBeginDuring(qs: seq<Query>)
    ensures CountBegins(EventsOfAll(qs, true)) == 0
    decreases qs, 0
  {
    if qs != [] {
      var init, last := qs[..|qs| - 1], qs[|qs| - 1];
      NoBeginDuring(init);
      NoBeginDuring(last.inner);
      OwnBegin(last, true);
      BeginsAppend(EventsOfAll(init, true), Events(last, true));
    }
  }

  lemma NoBeginInSteps(api: Api, s: Steps)
    ensures CountBegins(StepEvents(api, s)) == 0
    decreases s
  {
    var a, b := EventsOfAll(s.duplicate.nested, true), EventsOfAll(s.prepare.nested, true);
    var c, d := EventsOfAll(s.execute.nested, true), EventsOfAll(s.fetch.nested, true);
    NoBeginDuring(s.duplicate.nested);
    NoBeginDuring(s.prepare.nested);
    NoBeginDuring(s.execute.nested);
    NoBeginDuring(s.fetch.nested);
    BeginsOfThree(a, b, c);
    BeginsAppend(a + b + c, d);
    BeginsAppend(a, b);
  }

  /** Over any tree of queries there are as many explains as wanted queries; during an explain there
      is none. */
  lemma {:induction false} BeginsExactly(q: Query, during: bool)
    ensures CountBegins(Events(q, during)) == if during then 0 else CountWanted(q)
    decreases q, 1
  {
    BeginsOfAll(q.inner, during);
    OwnBegin(q, during);
  }

  lemma {:induction false} BeginsOfAll(qs: seq<Query>, during: bool)
    ensures CountBegins(EventsOfAll(qs, during)) == if during then 0 else CountWantedOfAll(qs)
    decreases qs, 0
  {
    if qs != [] {
      var init, last := qs[..|qs| - 1], qs[|qs| - 1];
      BeginsOfAll(init, during);
      BeginsExactly(last, during);
      BeginsAppend(EventsOfAll(init, during), Events(last, during));
    }
  }

  /** All the steps of its API gave what they should. */
  predicate AllOk(api: Api, s: Steps) {
    match api
    case MysqliQuery(_) => s.duplicate.ok && s.prepare.ok && s.execute.ok && s.fetch.ok
    case MysqliStmt(_, _) => s.duplicate.ok && s.prepare.ok && s.rebind.ok && s.execute.ok && s.fetch.ok
    case Pdo(_, _) => s.duplicate.ok
    case Other => false
  }

  /** How a query with a segment ends. Without text the segment is left open; otherwise, during an
      explain, it is discarded; and otherwise kept, with a plan exactly when the query's own explain
      ran and all its steps gave what they should. */
  lemma EndsWith(q: Query, during: bool)
    requires q.recorded
    ensures var events := Events(q, during);
            events != [] && events[|events| - 1]
                            == if q.sql == "" || q.sql[0] == '\0' then LeftOpen
                               else if during then Discarded
                               else Kept(q.sql, Wanted(q) && AllOk(q.api, q.steps))
  {
    assert |EndEvents(q, during)| == 1;
  }

  /** A query that is not wanted, or comes during an explain, leaves what runs inside it and its own
      end, and nothing between them. */
  lemma UnwantedSpelled(q: Query, during: bool)
    requires q.recorded && (during || !Wanted(q))
    ensures var events, inner := Events(q, during), EventsOfAll(q.inner, during);
            |events| == |inner| + 1 && inner <= events
  {
    assert |EndEvents(q, during)| == 1;
    assert ExplainPart(q, during) == [];
  }

  /** A query without a segment leaves only what runs inside it. */
  lemma EndsWithout(q: Query, during: bool)
    requires !q.recorded
    ensures Events(q, during) == EventsOfAll(q.inner, during)
  {
    assert EventsOfAll(q.inner, during) + [] + [] == EventsOfAll(q.inner, during);
  }

  /** The queries that run in the steps of an explain, step by step, up to the first that fails; PDO
      has one step, and rebinding, for statements, runs none. */
  function Within(api: Api, s: Steps): seq<Query> {
    s.duplicate.nested
    + if !s.duplicate.ok || api.Pdo? then []
      else s.prepare.nested
           + if !s.prepare.ok || (api.MysqliStmt? && !s.rebind.ok) then []
             else s.execute.nested + if s.execute.ok then s.fetch.nested else []
  }

  lemma EventsOfMore(qs: seq<Query>, q: Query, during: bool)
    ensures EventsOfAll(qs + [q], during) == EventsOfAll(qs, during) + Events(q, during)
  {
    assert (qs + [q])[..|qs|] == qs;
  }

  lemma Associative<T>(a: seq<T>, b: seq<T>, c: seq<T>)
    ensures a + b + c == a + (b + c)
  {
  }

  lemma BothAndMore(a: seq<Query>, b: seq<Query>, q: Query, during: bool)
    requires EventsOfAll(a + b, during) == EventsOfAll(a, during) + EventsOfAll(b, during)
    ensures EventsOfAll(a + (b + [q]), during) == EventsOfAll(a, during) + EventsOfAll(b + [q], during)
  {
    EventsOfMore(a + b, q, during);
    EventsOfMore(b, q, during);
    Associative(a, b, [q]);
    Associative(EventsOfAll(a, during), EventsOfAll(b, during), Events(q, during));
  }

  lemma {:induction false} EventsOfBoth(a: seq<Query>, b: seq<Query>, during: bool)
    ensures EventsOfAll(a + b, during) == EventsOfAll(a, during) + EventsOfAll(b, during)
  {
    if b == [] {
      assert a + b == a;
    } else {
      var init, last := b[..|b| - 1], b[|b| - 1];
      assert b == init + [last];
      EventsOfBoth(a, init, during);
      BothAndMore(a, init, last, during);
    }
  }

  lemma EventsOfFour(a: seq<Query>, b: seq<Query>, c: seq<Query>, d: seq<Query>)
    ensures EventsOfAll(a + b, true) == EventsOfAll(a, true) + EventsOfAll(b, true)
    ensures EventsOfAll(a + b + c, true) == EventsOfAll(a, true) + EventsOfAll(b, true) + EventsOfAll(c, true)
    ensures EventsOfAll(a + b + c + d, true)
            == EventsOfAll(a, true) + EventsOfAll(b, true) + EventsOfAll(c, true) + EventsOfAll(d, true)
  {
    EventsOfBoth(a, b, true);
    EventsOfBoth(a + b, c, true);
    EventsOfBoth(a + b + c, d, true);
  }

  lemma Appended(d: seq<Query>, p: seq<Query>, e: seq<Query>, f: seq<Query>)
    ensures d + [] == d && d + (p + []) == d + p
    ensures d + (p + (e + [])) == d + p + e
    ensures d + (p + (e + f)) == d + p + e + f
  {
  }

  /** Where an explain stops: behind the first step that fails. */
  lemma WithinCases(api: Api, s: Steps)
    ensures var d, p, e, f := s.duplicate.nested, s.prepare.nested, s.execute.nested, s.fetch.nested;
            Within(api, s) == if api.Pdo? || !s.duplicate.ok then d
                              else if !s.prepare.ok || (api.MysqliStmt? && !s.rebind.ok) then d + p
                              else if !s.execute.ok then d + p + e
                              else d + p + e + f
  {
    Appended(s.duplicate.nested, s.prepare.nested, s.execute.nested, s.fetch.nested);
  }

  lemma WithinSteps(api: Api, s: Steps)
    ensures StepEvents(api, s) == EventsOfAll(Within(api, s), true)
  {
    WithinCases(api, s);
    EventsOfFour(s.duplicate.nested, s.prepare.nested, s.execute.nested, s.fetch.nested);
  }

  /** What a wanted query leaves: what runs inside it, its explain with the queries of the steps that
      are reached, and its own end. */
  lemma WantedSpelled(q: Query)
    requires Wanted(q)
    ensures Events(q, false) == EventsOfAll(q.inner, false)
                                + ([ExplainBegins] + EventsOfAll(Within(q.api, q.steps), true) + [ExplainEnds])
                                + EndEvents(q, false)
  {
    WithinSteps(q.api, q.steps);
  }
}
