/**
 * app/.../BuildOperationLog.kt: the flat log of a build-operation trace (interleaved
 * Start, Finish and Progress events keyed by operation id) and `visitLogs`, which
 * rebuilds the open operations from it, filters them by display name and drives a
 * visitor.
 *
 * The visitor is external code. What `visitLogs` does to it is recorded as the
 * sequence of calls it makes: `visitor.visit(start)`, the invocation of a stored
 * `PostVisit` callback, and `visitor.visit(progress)`. A callback is named by the
 * position, in that sequence, of the `visit(start)` call that returned it.
 * The include and exclude regexes are predicates on the display name (`name.matches(regex)`).
 */
module OperationLog {
  import opened Values
  import opened Strings

  datatype BuildOperationStart = BuildOperationStart(
    id: int,
    displayName: string,
    startTime: int,
    details: Option<Fields> := None,
    detailsClassName: Option<string> := None,
    parentId: Option<int> := None)

  datatype BuildOperationFinish = BuildOperationFinish(
    id: int,
    endTime: int,
    result: Option<Fields> := None,
    resultClassName: Option<string> := None,
    failure: Option<string> := None)

  datatype BuildOperationProgress = BuildOperationProgress(
    id: int,
    time: int,
    details: Option<Fields>,
    detailsClassName: Option<string>)

  /** The sealed interface `BuildOperationLog`. */
  datatype BuildOperationLog =
    | Start(start: BuildOperationStart)
    | Finish(finish: BuildOperationFinish)
    | Progress(progress: BuildOperationProgress)

  /** `displayName.matches(regex)` */
  type Regex = string -> bool

  datatype BuildOperationLogs = BuildOperationLogs(
    logs: seq<BuildOperationLog>,
    includeRegex: Option<Regex> := None,
    excludeRegex: Option<Regex> := None)

  function StartToString(s: BuildOperationStart): string {
    "BuildOperationStart{" + IntToString(s.id) + "->" + s.displayName + "}"
  }

  function FinishToString(f: BuildOperationFinish): string {
    "BuildOperationFinish{" + IntToString(f.id) + "}"
  }

  function ProgressToString(p: BuildOperationProgress): string {
    var className := match p.detailsClassName case None => "null" case Some(c) => c;
    "Progress{details=" + ShowNullableMap(p.details) + ", detailsClassName='" + className + "'}"
  }

  // ---------------------------------------------------------------------------
  // What the visitor sees

  datatype VisitorCall =
    | VisitStart(start: BuildOperationStart)
      /** The `PostVisit` returned by the call at position `postVisit` is invoked with `(start, finish)`. */
    | InvokePostVisit(postVisit: nat, start: BuildOperationStart, finish: BuildOperationFinish)
    | VisitProgress(progress: BuildOperationProgress)

  /** An entry of `openBuildOperations`: the start and the callback its visit returned. */
  datatype OpenOperation = OpenOperation(start: BuildOperationStart, postVisit: nat)

  /** The state of one traversal: the open-operation map and the calls made so far. */
  datatype State = State(open: map<int, OpenOperation>, calls: seq<VisitorCall>)

  const Initial: State := State(map[], [])

  /** The include rule: no include regex, or the name matches it, or the parent is currently open. */
  predicate Included(includeRegex: Option<Regex>, open: map<int, OpenOperation>, s: BuildOperationStart) {
    includeRegex.None? || includeRegex.value(s.displayName) || (s.parentId.Some? && s.parentId.value in open)
  }

  /** The exclude rule, decided for each operation on its own name. */
  predicate Excluded(excludeRegex: Option<Regex>, s: BuildOperationStart) {
    excludeRegex.Some? && excludeRegex.value(s.displayName)
  }

  /** One iteration of `helper(log)` in `visitLogs`. */
  function Step(includeRegex: Option<Regex>, excludeRegex: Option<Regex>, st: State, log: BuildOperationLog): State {
    match log
    case Start(s) =>
      if Included(includeRegex, st.open, s) && !Excluded(excludeRegex, s)
      then State(st.open[s.id := OpenOperation(s, |st.calls|)], st.calls + [VisitStart(s)])
      else st
    case Finish(f) =>
      if f.id in st.open
      then State(st.open - {f.id}, st.calls + [InvokePostVisit(st.open[f.id].postVisit, st.open[f.id].start, f)])
      else st
    case Progress(p) =>
      State(st.open, st.calls + [VisitProgress(p)])
  }

  function RunFrom(includeRegex: Option<Regex>, excludeRegex: Option<Regex>, st: State, logs: seq<BuildOperationLog>): State
    decreases |logs|
  {
    if logs == [] then st else RunFrom(includeRegex, excludeRegex, Step(includeRegex, excludeRegex, st, logs[0]), logs[1..])
  }

  /** The whole traversal, from an empty open-operation map. */
  function Traverse(traversal: BuildOperationLogs): State {
    RunFrom(traversal.includeRegex, traversal.excludeRegex, Initial, traversal.logs)
  }

  /**
   * `BuildOperationVisitor.visitLogs`: walks the logs once, in order, and returns the
   * calls it made on the visitor and the number of logs it processed.
   */
  method VisitLogs(traversal: BuildOperationLogs) returns (calls: seq<VisitorCall>, count: nat)
    ensures calls == Traverse(traversal).calls
    ensures count == |traversal.logs|
  {
    var includeRegex := traversal.includeRegex;
    var excludeRegex := traversal.excludeRegex;
    var openBuildOperations: map<int, OpenOperation> := map[];
    calls := [];
    count := 0;
    var logs := traversal.logs;
    var i := 0;
    while i < |logs|
      invariant 0 <= i <= |logs| && count == i
      invariant RunFrom(includeRegex, excludeRegex, State(openBuildOperations, calls), logs[i..]) == Traverse(traversal)
    {
      var log := logs[i];
      count := count + 1;
      match log {
        case Start(start) =>
          var included := includeRegex.None? || includeRegex.value(start.displayName)
            || (start.parentId.Some? && start.parentId.value in openBuildOperations);
          if included && !(excludeRegex.Some? && excludeRegex.value(start.displayName)) {
            openBuildOperations := openBuildOperations[start.id := OpenOperation(start, |calls|)];
            calls := calls + [VisitStart(start)];
          }
        case Finish(finish) =>
          if finish.id in openBuildOperations {
            var op := openBuildOperations[finish.id];
            openBuildOperations := openBuildOperations - {finish.id};
            calls := calls + [InvokePostVisit(op.postVisit, op.start, finish)];
          }
        case Progress(progress) =>
          calls := calls + [VisitProgress(progress)];
      }
      assert logs[i..] == [log] + logs[i + 1..];
      i := i + 1;
    }
  }

  // ---------------------------------------------------------------------------
  // One step

  /**
   * What one log does to the open-operation map: an admitted Start adds (or overwrites)
   * only its own id, a filtered Start changes nothing, a Finish removes only its id
   * (and changes nothing when the id is not open), a Progress leaves the map alone and
   * is always forwarded. Every step makes at most one call.
   */
  lemma StepEffects(includeRegex: Option<Regex>, excludeRegex: Option<Regex>, st: State, log: BuildOperationLog)
    ensures var st' := Step(includeRegex, excludeRegex, st, log);
      && |st.calls| <= |st'.calls| <= |st.calls| + 1
      && st'.calls[..|st.calls|] == st.calls
      && (log.Start? ==>
            var s := log.start;
            if Included(includeRegex, st.open, s) && !Excluded(excludeRegex, s) then
              && st'.open.Keys == st.open.Keys + {s.id}
              && st'.open[s.id].start == s
              && (forall id :: id in st.open && id != s.id ==> st'.open[id] == st.open[id])
              && st'.calls == st.calls + [VisitStart(s)]
            else st' == st)
      && (log.Finish? ==>
            if log.finish.id in st.open then
              && st'.open.Keys == st.open.Keys - {log.finish.id}
              && (forall id :: id in st'.open ==> st'.open[id] == st.open[id])
              && st'.calls == st.calls + [InvokePostVisit(st.open[log.finish.id].postVisit, st.open[log.finish.id].start, log.finish)]
            else st' == st)
      && (log.Progress? ==> st'.open == st.open && st'.calls == st.calls + [VisitProgress(log.progress)])
  {
  }

  // ---------------------------------------------------------------------------
  // Every start is visited when nothing is filtered

  function StartsOf(logs: seq<BuildOperationLog>): seq<BuildOperationStart>
    decreases |logs|
  {
    if logs == [] then []
    else (if logs[0].Start? then [logs[0].start] else []) + StartsOf(logs[1..])
  }

  /** The starts passed to `visitor.visit(start)`, in call order. */
  function VisitedStarts(calls: seq<VisitorCall>): seq<BuildOperationStart>
    decreases |calls|
  {
    if calls == [] then []
    else
      var last := calls[|calls| - 1];
      VisitedStarts(calls[..|calls| - 1]) + (if last.VisitStart? then [last.start] else [])
  }

  lemma VisitedStartsAppend(calls: seq<VisitorCall>, c: VisitorCall)
    ensures VisitedStarts(calls + [c]) == VisitedStarts(calls) + (if c.VisitStart? then [c.start] else [])
  {
    assert (calls + [c])[..|calls|] == calls;
  }

  /**
   * A Start is visited exactly when the include rule admits it and the exclude rule does
   * not reject it; no other log visits a start.
   */
  lemma StepVisitedStarts(includeRegex: Option<Regex>, excludeRegex: Option<Regex>, st: State, log: BuildOperationLog)
    ensures VisitedStarts(Step(includeRegex, excludeRegex, st, log).calls)
         == VisitedStarts(st.calls)
          + (if log.Start? && Included(includeRegex, st.open, log.start) && !Excluded(excludeRegex, log.start)
             then [log.start] else [])
  {
    match log {
      case Start(s) =>
        if Included(includeRegex, st.open, s) && !Excluded(excludeRegex, s) {
          VisitedStartsAppend(st.calls, VisitStart(s));
        }
      case Finish(f) =>
        if f.id in st.open {
          VisitedStartsAppend(st.calls, InvokePostVisit(st.open[f.id].postVisit, st.open[f.id].start, f));
        }
      case Progress(p) => VisitedStartsAppend(st.calls, VisitProgress(p));
    }
  }

  lemma {:induction false} RunFromUnfiltered(st: State, logs: seq<BuildOperationLog>)
    ensures VisitedStarts(RunFrom(None, None, st, logs).calls) == VisitedStarts(st.calls) + StartsOf(logs)
    decreases |logs|
  {
    if logs != [] {
      StepVisitedStarts(None, None, st, logs[0]);
      RunFromUnfiltered(Step(None, None, st, logs[0]), logs[1..]);
    }
  }

  /** With no include and no exclude regex, every Start is visited exactly once, in log order. */
  lemma UnfilteredVisitsEveryStart(logs: seq<BuildOperationLog>)
    ensures VisitedStarts(Traverse(BuildOperationLogs(logs)).calls) == StartsOf(logs)
  {
    RunFromUnfiltered(Initial, logs);
  }

  // ---------------------------------------------------------------------------
  // Progress events are always forwarded

  function ProgressesOf(logs: seq<BuildOperationLog>): seq<BuildOperationProgress>
    decreases |logs|
  {
    if logs == [] then []
    else (if logs[0].Progress? then [logs[0].progress] else []) + ProgressesOf(logs[1..])
  }

  function ForwardedProgresses(calls: seq<VisitorCall>): seq<BuildOperationProgress>
    decreases |calls|
  {
    if calls == [] then []
    else
      var last := calls[|calls| - 1];
      ForwardedProgresses(calls[..|calls| - 1]) + (if last.VisitProgress? then [last.progress] else [])
  }

  lemma ForwardedProgressesAppend(calls: seq<VisitorCall>, c: VisitorCall)
    ensures ForwardedProgresses(calls + [c]) == ForwardedProgresses(calls) + (if c.VisitProgress? then [c.progress] else [])
  {
    assert (calls + [c])[..|calls|] == calls;
  }

  lemma {:induction false} RunFromForwardsProgress(includeRegex: Option<Regex>, excludeRegex: Option<Regex>, st: State, logs: seq<BuildOperationLog>)
    ensures ForwardedProgresses(RunFrom(includeRegex, excludeRegex, st, logs).calls) == ForwardedProgresses(st.calls) + ProgressesOf(logs)
    decreases |logs|
  {
    if logs != [] {
      var st' := Step(includeRegex, excludeRegex, st, logs[0]);
      StepForwardsProgress(includeRegex, excludeRegex, st, logs[0]);
      RunFromForwardsProgress(includeRegex, excludeRegex, st', logs[1..]);
      ConcatAssoc(ForwardedProgresses(st.calls), if logs[0].Progress? then [logs[0].progress] else [], ProgressesOf(logs[1..]));
    }
  }

  /** One step forwards its log's progress, and nothing else. */
  lemma StepForwardsProgress(includeRegex: Option<Regex>, excludeRegex: Option<Regex>, st: State, log: BuildOperationLog)
    ensures ForwardedProgresses(Step(includeRegex, excludeRegex, st, log).calls)
      == ForwardedProgresses(st.calls) + (if log.Progress? then [log.progress] else [])
  {
    var st' := Step(includeRegex, excludeRegex, st, log);
    match log {
      case Start(s) =>
        if st' != st {
          ForwardedProgressesAppend(st.calls, VisitStart(s));
        }
      case Finish(f) =>
        if f.id in st.open {
          ForwardedProgressesAppend(st.calls, InvokePostVisit(st.open[f.id].postVisit, st.open[f.id].start, f));
        }
      case Progress(p) => ForwardedProgressesAppend(st.calls, VisitProgress(p));
    }
  }

  /** Whatever the filters, every Progress is forwarded to the visitor, in log order. */
  lemma EveryProgressForwarded(traversal: BuildOperationLogs)
    ensures ForwardedProgresses(Traverse(traversal).calls) == ProgressesOf(traversal.logs)
  {
    RunFromForwardsProgress(traversal.includeRegex, traversal.excludeRegex, Initial, traversal.logs);
  }

  // ---------------------------------------------------------------------------
  // Each stored callback is invoked at most once, with its own start

  /** The invariant of the open-operation map and of the calls made so far. */
  ghost predicate Consistent(st: State) {
    OpenConsistent(st) && CallsConsistent(st.calls)
  }

  ghost predicate OpenConsistent(st: State) {
    // every open entry holds the start stored under its id and the callback its visit returned
    && (forall id :: id in st.open ==>
          && st.open[id].start.id == id
          && st.open[id].postVisit < |st.calls|
          && st.calls[st.open[id].postVisit] == VisitStart(st.open[id].start))
    // distinct open entries hold distinct callbacks
    && (forall id1, id2 :: id1 in st.open && id2 in st.open && id1 != id2 ==>
          st.open[id1].postVisit != st.open[id2].postVisit)
    // a callback still stored has not been invoked yet
    && (forall id, i :: id in st.open && 0 <= i < |st.calls| && st.calls[i].InvokePostVisit? ==>
          st.calls[i].postVisit != st.open[id].postVisit)
  }

  ghost predicate CallsConsistent(calls: seq<VisitorCall>) {
    // every invocation is of a callback returned earlier, for that start and a finish of the same id
    && (forall i :: 0 <= i < |calls| && calls[i].InvokePostVisit? ==>
          && calls[i].postVisit < i
          && calls[calls[i].postVisit] == VisitStart(calls[i].start)
          && calls[i].finish.id == calls[i].start.id)
    // no callback is invoked twice
    && (forall i, j :: 0 <= i < j < |calls| && calls[i].InvokePostVisit? && calls[j].InvokePostVisit? ==>
          calls[i].postVisit != calls[j].postVisit)
  }

  /** A call that invokes no callback keeps the calls consistent. */
  lemma CallsAppendOther(calls: seq<VisitorCall>, c: VisitorCall)
    requires CallsConsistent(calls) && !c.InvokePostVisit?
    ensures CallsConsistent(calls + [c])
  {
    var calls' := calls + [c];
    forall i | 0 <= i < |calls'| && calls'[i].InvokePostVisit?
      ensures calls'[calls'[i].postVisit] == VisitStart(calls'[i].start)
    {
      assert calls'[i] == calls[i];
      assert calls'[calls[i].postVisit] == calls[calls[i].postVisit];
    }
  }

  lemma StartStepConsistent(includeRegex: Option<Regex>, excludeRegex: Option<Regex>, st: State, s: BuildOperationStart)
    requires Consistent(st)
    ensures Consistent(Step(includeRegex, excludeRegex, st, Start(s)))
  {
    if Included(includeRegex, st.open, s) && !Excluded(excludeRegex, s) {
      var st' := State(st.open[s.id := OpenOperation(s, |st.calls|)], st.calls + [VisitStart(s)]);
      assert Step(includeRegex, excludeRegex, st, Start(s)) == st';
      CallsAppendOther(st.calls, VisitStart(s));
      forall id | id in st'.open
        ensures st'.open[id].postVisit < |st'.calls|
        ensures st'.calls[st'.open[id].postVisit] == VisitStart(st'.open[id].start)
      {
        if id != s.id {
          assert st'.calls[st.open[id].postVisit] == st.calls[st.open[id].postVisit];
        }
      }
    }
  }

  lemma FinishStepConsistent(includeRegex: Option<Regex>, excludeRegex: Option<Regex>, st: State, f: BuildOperationFinish)
    requires Consistent(st)
    ensures Consistent(Step(includeRegex, excludeRegex, st, Finish(f)))
  {
    var st' := Step(includeRegex, excludeRegex, st, Finish(f));
    if f.id in st.open {
      var op := st.open[f.id];
      assert st'.calls[..|st.calls|] == st.calls;
      forall id | id in st'.open
        ensures st'.calls[st'.open[id].postVisit] == VisitStart(st'.open[id].start)
      {
        assert st'.calls[st.open[id].postVisit] == st.calls[st.open[id].postVisit];
      }
      forall i | 0 <= i < |st'.calls| && st'.calls[i].InvokePostVisit?
        ensures st'.calls[st'.calls[i].postVisit] == VisitStart(st'.calls[i].start)
      {
        if i < |st.calls| {
          assert st'.calls[st.calls[i].postVisit] == st.calls[st.calls[i].postVisit];
        } else {
          assert st'.calls[op.postVisit] == st.calls[op.postVisit];
        }
      }
    }
  }

  lemma ProgressStepConsistent(includeRegex: Option<Regex>, excludeRegex: Option<Regex>, st: State, p: BuildOperationProgress)
    requires Consistent(st)
    ensures Consistent(Step(includeRegex, excludeRegex, st, Progress(p)))
  {
    var st' := Step(includeRegex, excludeRegex, st, Progress(p));
    CallsAppendOther(st.calls, VisitProgress(p));
    forall id | id in st'.open
      ensures st'.calls[st'.open[id].postVisit] == VisitStart(st'.open[id].start)
    {
      assert st'.calls[st.open[id].postVisit] == st.calls[st.open[id].postVisit];
    }
  }

  lemma StepConsistent(includeRegex: Option<Regex>, excludeRegex: Option<Regex>, st: State, log: BuildOperationLog)
    requires Consistent(st)
    ensures Consistent(Step(includeRegex, excludeRegex, st, log))
  {
    match log {
      case Start(s) => StartStepConsistent(includeRegex, excludeRegex, st, s);
      case Finish(f) => FinishStepConsistent(includeRegex, excludeRegex, st, f);
      case Progress(p) => ProgressStepConsistent(includeRegex, excludeRegex, st, p);
    }
  }

  lemma {:induction false} RunFromConsistent(includeRegex: Option<Regex>, excludeRegex: Option<Regex>, st: State, logs: seq<BuildOperationLog>)
    requires Consistent(st)
    ensures Consistent(RunFrom(includeRegex, excludeRegex, st, logs))
    decreases |logs|
  {
    if logs != [] {
      StepConsistent(includeRegex, excludeRegex, st, logs[0]);
      RunFromConsistent(includeRegex, excludeRegex, Step(includeRegex, excludeRegex, st, logs[0]), logs[1..]);
    }
  }

  /**
   * Over a whole traversal, a `PostVisit` is invoked only after the `visit(start)` that
   * returned it, with that very start and a Finish of the same id, and never twice.
   */
  lemma PostVisitInvokedAtMostOnce(traversal: BuildOperationLogs)
    ensures var calls := Traverse(traversal).calls;
      && (forall i :: 0 <= i < |calls| && calls[i].InvokePostVisit? ==>
            && calls[i].postVisit < i
            && calls[calls[i].postVisit] == VisitStart(calls[i].start)
            && calls[i].finish.id == calls[i].start.id)
      && (forall i, j :: 0 <= i < j < |calls| && calls[i].InvokePostVisit? && calls[j].InvokePostVisit? ==>
            calls[i].postVisit != calls[j].postVisit)
  {
    RunFromConsistent(traversal.includeRegex, traversal.excludeRegex, Initial, traversal.logs);
  }

  /** Every open operation was visited: a Start that was filtered out never enters the map. */
  lemma OpenOperationsWereVisited(traversal: BuildOperationLogs)
    ensures var st := Traverse(traversal);
      forall id :: id in st.open ==> VisitStart(st.open[id].start) in st.calls && st.open[id].start.id == id
  {
    RunFromConsistent(traversal.includeRegex, traversal.excludeRegex, Initial, traversal.logs);
  }

  // ---------------------------------------------------------------------------
  // Splitting a traversal

  lemma {:induction false} RunFromAppend(includeRegex: Option<Regex>, excludeRegex: Option<Regex>, st: State, a: seq<BuildOperationLog>, b: seq<BuildOperationLog>)
    ensures RunFrom(includeRegex, excludeRegex, st, a + b) == RunFrom(includeRegex, excludeRegex, RunFrom(includeRegex, excludeRegex, st, a), b)
    decreases |a|
  {
    if a == [] {
      assert a + b == b;
    } else {
      assert (a + b)[1..] == a[1..] + b;
      RunFromAppend(includeRegex, excludeRegex, Step(includeRegex, excludeRegex, st, a[0]), a[1..], b);
    }
  }

  lemma {:induction false} StartsOfAppend(a: seq<BuildOperationLog>, b: seq<BuildOperationLog>)
    ensures StartsOf(a + b) == StartsOf(a) + StartsOf(b)
    decreases |a|
  {
    if a == [] {
      assert a + b == b;
    } else {
      assert (a + b)[0] == a[0] && (a + b)[1..] == a[1..] + b;
      StartsOfAppend(a[1..], b);
      ConcatAssoc(if a[0].Start? then [a[0].start] else [], StartsOf(a[1..]), StartsOf(b));
    }
  }

  lemma IdsAppend(a: seq<BuildOperationStart>, b: seq<BuildOperationStart>)
    ensures Ids(a + b) == Ids(a) + Ids(b)
  {
  }

  function Ids(starts: seq<BuildOperationStart>): seq<int> {
    seq(|starts|, i requires 0 <= i < |starts| => starts[i].id)
  }

  /** The ids of the starts the visitor was called with, in call order. */
  function VisitedIds(st: State): seq<int> {
    Ids(VisitedStarts(st.calls))
  }

  /** Whether a step visits its log: an admitted Start. */
  predicate Admits(includeRegex: Option<Regex>, excludeRegex: Option<Regex>, st: State, log: BuildOperationLog) {
    log.Start? && Included(includeRegex, st.open, log.start) && !Excluded(excludeRegex, log.start)
  }

  /** One step seen through the ids it visits and the ids it leaves open. */
  lemma StepIds(includeRegex: Option<Regex>, excludeRegex: Option<Regex>, st: State, log: BuildOperationLog)
    ensures var st' := Step(includeRegex, excludeRegex, st, log);
      && VisitedIds(st') == VisitedIds(st)
           + (if log.Start? && Included(includeRegex, st.open, log.start) && !Excluded(excludeRegex, log.start)
              then [log.start.id] else [])
      && (log.Start? && Included(includeRegex, st.open, log.start) && !Excluded(excludeRegex, log.start) ==>
            st'.open.Keys == st.open.Keys + {log.start.id})
      && (log.Start? && !(Included(includeRegex, st.open, log.start) && !Excluded(excludeRegex, log.start)) ==>
            st'.open.Keys == st.open.Keys)
      && (log.Finish? ==> st'.open.Keys == st.open.Keys - {log.finish.id})
  {
    StepVisitedIds(includeRegex, excludeRegex, st, log);
    StepOpenKeys(includeRegex, excludeRegex, st, log);
  }

  /** A step visits the id of an admitted Start, and no other. */
  lemma StepVisitedIds(includeRegex: Option<Regex>, excludeRegex: Option<Regex>, st: State, log: BuildOperationLog)
    ensures VisitedIds(Step(includeRegex, excludeRegex, st, log)) ==
      VisitedIds(st) + (if Admits(includeRegex, excludeRegex, st, log) then [log.start.id] else [])
  {
    var st' := Step(includeRegex, excludeRegex, st, log);
    var extra := if Admits(includeRegex, excludeRegex, st, log) then [log.start] else [];
    StepVisitedStarts(includeRegex, excludeRegex, st, log);
    assert VisitedStarts(st'.calls) == VisitedStarts(st.calls) + extra;
    IdsAppend(VisitedStarts(st.calls), extra);
    assert Ids(extra) == if Admits(includeRegex, excludeRegex, st, log) then [log.start.id] else [];
  }

  /** An admitted Start opens its id, a filtered one opens nothing, and a Finish closes its id. */
  lemma StepOpenKeys(includeRegex: Option<Regex>, excludeRegex: Option<Regex>, st: State, log: BuildOperationLog)
    ensures var st' := Step(includeRegex, excludeRegex, st, log);
      && (Admits(includeRegex, excludeRegex, st, log) ==> st'.open.Keys == st.open.Keys + {log.start.id})
      && (log.Start? && !Admits(includeRegex, excludeRegex, st, log) ==> st'.open.Keys == st.open.Keys)
      && (log.Finish? ==> st'.open.Keys == st.open.Keys - {log.finish.id})
  {
    StepEffects(includeRegex, excludeRegex, st, log);
  }

  // ---------------------------------------------------------------------------
  // The trace of BuildOperationVisitorTest, in four pieces

  const TestTraceA: seq<BuildOperationLog> := [
    Start(BuildOperationStart(1, "root1", 0)),
    Start(BuildOperationStart(2, "root1-child1", 10, parentId := Some(1))),
    Finish(BuildOperationFinish(2, 20)),
    Start(BuildOperationStart(3, "root1-child2", 30, parentId := Some(1)))
  ]

  const TestTraceB: seq<BuildOperationLog> := [
    Finish(BuildOperationFinish(3, 40)),
    Finish(BuildOperationFinish(1, 100)),
    Start(BuildOperationStart(4, "root2", 150)),
    Start(BuildOperationStart(5, "root2-child1", 151, parentId := Some(4)))
  ]

  const TestTraceC: seq<BuildOperationLog> := [
    Start(BuildOperationStart(6, "root2-child1-child1", 151, parentId := Some(5))),
    Finish(BuildOperationFinish(6, 153)),
    Start(BuildOperationStart(7, "root2-child1-child2", 155, parentId := Some(5))),
    Finish(BuildOperationFinish(7, 156))
  ]

  const TestTraceD: seq<BuildOperationLog> := [
    Finish(BuildOperationFinish(5, 156)),
    Start(BuildOperationStart(8, "root2-child2", 157, parentId := Some(4))),
    Finish(BuildOperationFinish(8, 158)),
    Finish(BuildOperationFinish(4, 160))
  ]

  const TestTrace: seq<BuildOperationLog> := TestTraceA + TestTraceB + TestTraceC + TestTraceD

  /** `^root1$|^root2-child1$` */
  predicate TestInclude(name: string) {
    name == "root1" || name == "root2-child1"
  }

  /** `^root2$|^root2-child1-child1$` */
  predicate TestExclude(name: string) {
    name == "root2" || name == "root2-child1-child1"
  }

  lemma TestTraceStartsA()
    ensures Ids(StartsOf(TestTraceA)) == [1, 2, 3]
  {
    var a := TestTraceA;
    assert a[1..][1..] == a[2..] && a[2..][1..] == a[3..] && a[3..][1..] == [];
  }

  lemma TestTraceStartsB()
    ensures Ids(StartsOf(TestTraceB)) == [4, 5]
  {
    var b := TestTraceB;
    assert b[1..][1..] == b[2..] && b[2..][1..] == b[3..] && b[3..][1..] == [];
  }

  lemma TestTraceStartsC()
    ensures Ids(StartsOf(TestTraceC)) == [6, 7]
  {
    var c := TestTraceC;
    assert c[1..][1..] == c[2..] && c[2..][1..] == c[3..] && c[3..][1..] == [];
  }

  lemma TestTraceStartsD()
    ensures Ids(StartsOf(TestTraceD)) == [8]
  {
    var d := TestTraceD;
    assert d[1..][1..] == d[2..] && d[2..][1..] == d[3..] && d[3..][1..] == [];
  }

  /** Unfiltered, the visitor sees the operations 1 to 8 of the test trace, in order. */
  lemma TestTraceUnfiltered()
    ensures VisitedIds(Traverse(BuildOperationLogs(TestTrace))) == [1, 2, 3, 4, 5, 6, 7, 8]
  {
    UnfilteredVisitsEveryStart(TestTrace);
    StartsOfAppend(TestTraceA + TestTraceB + TestTraceC, TestTraceD);
    StartsOfAppend(TestTraceA + TestTraceB, TestTraceC);
    StartsOfAppend(TestTraceA, TestTraceB);
    TestTraceStartsA();
    TestTraceStartsB();
    TestTraceStartsC();
    TestTraceStartsD();
    var a, b, c, d := StartsOf(TestTraceA), StartsOf(TestTraceB), StartsOf(TestTraceC), StartsOf(TestTraceD);
    IdsAppend(a + b + c, d);
    IdsAppend(a + b, c);
    IdsAppend(a, b);
  }
  /** Four logs are four steps. */
  lemma RunFromFour(includeRegex: Option<Regex>, excludeRegex: Option<Regex>, st: State, t: seq<BuildOperationLog>)
    requires |t| == 4
    ensures RunFrom(includeRegex, excludeRegex, st, t) ==
      var s1 := Step(includeRegex, excludeRegex, st, t[0]);
      var s2 := Step(includeRegex, excludeRegex, s1, t[1]);
      var s3 := Step(includeRegex, excludeRegex, s2, t[2]);
      Step(includeRegex, excludeRegex, s3, t[3])
  {
    var s1 := Step(includeRegex, excludeRegex, st, t[0]);
    var s2 := Step(includeRegex, excludeRegex, s1, t[1]);
    var s3 := Step(includeRegex, excludeRegex, s2, t[2]);
    assert t[1..][1..] == t[2..] && t[2..][1..] == t[3..];
    RunFromOne(includeRegex, excludeRegex, s3, t[3..]);
    assert RunFrom(includeRegex, excludeRegex, s2, t[2..]) == RunFrom(includeRegex, excludeRegex, s3, t[3..]);
    assert RunFrom(includeRegex, excludeRegex, s1, t[1..]) == RunFrom(includeRegex, excludeRegex, s2, t[2..]);
  }

  lemma RunFromOne(includeRegex: Option<Regex>, excludeRegex: Option<Regex>, st: State, t: seq<BuildOperationLog>)
    requires |t| == 1
    ensures RunFrom(includeRegex, excludeRegex, st, t) == Step(includeRegex, excludeRegex, st, t[0])
  {
    assert t[1..] == [];
  }

  lemma FilteredA(st: State)
    requires st.open.Keys == {}
    ensures var st' := RunFrom(Some(TestInclude), Some(TestExclude), st, TestTraceA);
      st'.open.Keys == {1, 3} && VisitedIds(st') == VisitedIds(st) + [1, 2, 3]
  {
    var inc, exc, t := Some(TestInclude), Some(TestExclude), TestTraceA;
    var s1 := Step(inc, exc, st, t[0]);
    assert s1.open.Keys == {1} && VisitedIds(s1) == VisitedIds(st) + [1] by {
      StepIds(inc, exc, st, t[0]);
    }
    var s2 := Step(inc, exc, s1, t[1]);
    assert s2.open.Keys == {1, 2} && VisitedIds(s2) == VisitedIds(s1) + [2] by {
      assert 1 in s1.open.Keys;
      assert Admits(inc, exc, s1, t[1]);
      StepVisitedIds(inc, exc, s1, t[1]);
      StepOpenKeys(inc, exc, s1, t[1]);
      assert s1.open.Keys + {2} == {1, 2};
    }
    var s3 := Step(inc, exc, s2, t[2]);
    assert s3.open.Keys == {1} && VisitedIds(s3) == VisitedIds(s2) by {
      StepIds(inc, exc, s2, t[2]);
    }
    var s4 := Step(inc, exc, s3, t[3]);
    assert s4.open.Keys == {1, 3} && VisitedIds(s4) == VisitedIds(s3) + [3] by {
      StepIds(inc, exc, s3, t[3]);
    }
    assert RunFrom(inc, exc, st, t) == s4 by {
      RunFromFour(inc, exc, st, t);
    }
    AppendThree(VisitedIds(st), 1, 2, 3);
  }

  lemma AppendThree(v: seq<int>, a: int, b: int, c: int)
    ensures v + [a] + [b] + [c] == v + [a, b, c]
  {
    assert [a] + [b] + [c] == [a, b, c];
    assert v + [a] + [b] + [c] == v + ([a] + [b] + [c]);
  }

  lemma FilteredB(st: State)
    requires st.open.Keys == {1, 3}
    ensures var st' := RunFrom(Some(TestInclude), Some(TestExclude), st, TestTraceB);
      st'.open.Keys == {5} && VisitedIds(st') == VisitedIds(st) + [5]
  {
    var inc, exc, t := Some(TestInclude), Some(TestExclude), TestTraceB;
    RunFromFour(inc, exc, st, t);
    var s1 := Step(inc, exc, st, t[0]);
    StepIds(inc, exc, st, t[0]);
    assert s1.open.Keys == {1};
    var s2 := Step(inc, exc, s1, t[1]);
    StepIds(inc, exc, s1, t[1]);
    assert s2.open.Keys == {};
    var s3 := Step(inc, exc, s2, t[2]);
    StepIds(inc, exc, s2, t[2]);
    assert s3.open.Keys == {};
    StepIds(inc, exc, s3, t[3]);
  }

  lemma FilteredC(st: State)
    requires st.open.Keys == {5}
    ensures var st' := RunFrom(Some(TestInclude), Some(TestExclude), st, TestTraceC);
      st'.open.Keys == {5} && VisitedIds(st') == VisitedIds(st) + [7]
  {
    var inc, exc, t := Some(TestInclude), Some(TestExclude), TestTraceC;
    RunFromFour(inc, exc, st, t);
    var s1 := Step(inc, exc, st, t[0]);
    StepIds(inc, exc, st, t[0]);
    assert s1.open.Keys == {5};
    var s2 := Step(inc, exc, s1, t[1]);
    StepIds(inc, exc, s1, t[1]);
    assert s2.open.Keys == {5};
    var s3 := Step(inc, exc, s2, t[2]);
    StepIds(inc, exc, s2, t[2]);
    assert s3.open.Keys == {5, 7};
    StepIds(inc, exc, s3, t[3]);
  }

  lemma FilteredD(st: State)
    requires st.open.Keys == {5}
    ensures var st' := RunFrom(Some(TestInclude), Some(TestExclude), st, TestTraceD);
      st'.open.Keys == {} && VisitedIds(st') == VisitedIds(st) + []
  {
    var inc, exc, t := Some(TestInclude), Some(TestExclude), TestTraceD;
    RunFromFour(inc, exc, st, t);
    var s1 := Step(inc, exc, st, t[0]);
    StepIds(inc, exc, st, t[0]);
    assert s1.open.Keys == {};
    var s2 := Step(inc, exc, s1, t[1]);
    StepIds(inc, exc, s1, t[1]);
    assert s2.open.Keys == {};
    var s3 := Step(inc, exc, s2, t[2]);
    StepIds(inc, exc, s2, t[2]);
    assert s3.open.Keys == {};
    StepIds(inc, exc, s3, t[3]);
  }

  /**
   * With include `^root1$|^root2-child1$` and exclude `^root2$|^root2-child1-child1$`
   * the visitor sees 1, 2, 3, 5 and 7: the children of root1 and of root2-child1 come in
   * through their open parent, root2 and root2-child1-child1 are excluded, and
   * root2-child2 stays out because its parent root2 was never opened.
   */
  lemma TestTraceFiltered()
    ensures VisitedIds(Traverse(BuildOperationLogs(TestTrace, Some(TestInclude), Some(TestExclude)))) == [1, 2, 3, 5, 7]
  {
    assert VisitedStarts(Initial.calls) == [];
    TestTraceSplit(Some(TestInclude), Some(TestExclude), Initial);
    FilteredFrom(Initial);
  }

  lemma FilteredFrom(st: State)
    requires st.open.Keys == {} && VisitedIds(st) == []
    ensures var inc, exc := Some(TestInclude), Some(TestExclude);
      VisitedIds(RunFrom(inc, exc, RunFrom(inc, exc, RunFrom(inc, exc, RunFrom(inc, exc, st, TestTraceA), TestTraceB), TestTraceC), TestTraceD))
        == [1, 2, 3, 5, 7]
  {
    var inc, exc := Some(TestInclude), Some(TestExclude);
    FilteredAB(st);
    FilteredCD(RunFrom(inc, exc, RunFrom(inc, exc, st, TestTraceA), TestTraceB));
  }

  lemma FilteredAB(st: State)
    requires st.open.Keys == {}
    ensures var inc, exc := Some(TestInclude), Some(TestExclude);
      var st' := RunFrom(inc, exc, RunFrom(inc, exc, st, TestTraceA), TestTraceB);
      st'.open.Keys == {5} && VisitedIds(st') == VisitedIds(st) + [1, 2, 3, 5]
  {
    var sa := RunFrom(Some(TestInclude), Some(TestExclude), st, TestTraceA);
    FilteredA(st);
    FilteredB(sa);
  }

  lemma FilteredCD(st: State)
    requires st.open.Keys == {5}
    ensures var inc, exc := Some(TestInclude), Some(TestExclude);
      var st' := RunFrom(inc, exc, RunFrom(inc, exc, st, TestTraceC), TestTraceD);
      st'.open.Keys == {} && VisitedIds(st') == VisitedIds(st) + [7]
  {
    var sc := RunFrom(Some(TestInclude), Some(TestExclude), st, TestTraceC);
    FilteredC(st);
    FilteredD(sc);
  }

  lemma TestTraceSplit(inc: Option<Regex>, exc: Option<Regex>, st: State)
    ensures RunFrom(inc, exc, st, TestTrace)
         == RunFrom(inc, exc, RunFrom(inc, exc, RunFrom(inc, exc, RunFrom(inc, exc, st, TestTraceA), TestTraceB), TestTraceC), TestTraceD)
  {
    RunFromAppend(inc, exc, st, TestTraceA + TestTraceB + TestTraceC, TestTraceD);
    RunFromAppend(inc, exc, st, TestTraceA + TestTraceB, TestTraceC);
    RunFromAppend(inc, exc, st, TestTraceA, TestTraceB);
  }
}
