/**
 * app/.../TraceConverter.kt: the nested records become Chrome trace events, depth
 * first. Each record gives a "B" event, one "i" event per progress entry, the events
 * of its children, and an "E" event; timestamps go from milliseconds to microseconds.
 *
 * `RecordEvents`/`ForestEvents` specify the output; `Convert` and `Helper` are the
 * converter's own loop and recursive helper appending to one mutable list.
 */
module TraceConversion {
  import opened Values
  import opened TraceEvents
  import opened OperationRecord

  function BeginEvent(r: BuildOperationRecord): TraceEvent {
    TraceEvent(name := Some(r.displayName), phaseType := Some(Begin), timestamp := r.startTime * 1000)
  }

  function EndEvent(r: BuildOperationRecord): TraceEvent {
    TraceEvent(name := Some(r.displayName), phaseType := Some(End), timestamp := r.endTime * 1000)
  }

  /** A nullable value as a JSON argument: null stays null. */
  function MapArgument(m: Option<Fields>): Value {
    match m
    case None => Null
    case Some(fs) => Object(fs)
  }

  function StringArgument(s: Option<string>): Value {
    match s
    case None => Null
    case Some(v) => Str(v)
  }

  function ProgressEvent(p: Progress): TraceEvent {
    TraceEvent(
      name := None, phaseType := Some(Instant), timestamp := p.time * 1000,
      arguments := Some([Entry("details", MapArgument(p.details)), Entry("detailsClassName", StringArgument(p.detailsClassName))]))
  }

  function ProgressEvents(ps: seq<Progress>): (es: seq<TraceEvent>)
    ensures |es| == |ps|
    ensures forall i :: 0 <= i < |ps| ==> es[i] == ProgressEvent(ps[i])
  {
    seq(|ps|, i requires 0 <= i < |ps| => ProgressEvent(ps[i]))
  }

  function NullableProgressEvents(ps: Option<seq<Progress>>): seq<TraceEvent> {
    match ps
    case None => []
    case Some(ps) => ProgressEvents(ps)
  }

  /** The events of one record, children included. */
  function RecordEvents(r: BuildOperationRecord): seq<TraceEvent>
    decreases r
  {
    [BeginEvent(r)]
      + NullableProgressEvents(r.progress)
      + (match r.children case NoChildren => [] case Children(ks) => ForestEvents(ks))
      + [EndEvent(r)]
  }

  /** The events of a list of records, in list order. */
  function ForestEvents(rs: seq<BuildOperationRecord>): seq<TraceEvent>
    decreases rs
  {
    if rs == [] then [] else RecordEvents(rs[0]) + ForestEvents(rs[1..])
  }

  lemma {:induction false} ForestEventsSnoc(rs: seq<BuildOperationRecord>, r: BuildOperationRecord)
    ensures ForestEvents(rs + [r]) == ForestEvents(rs) + RecordEvents(r)
    decreases |rs|
  {
    if rs == [] {
      assert [r][1..] == [];
    } else {
      assert (rs + [r])[1..] == rs[1..] + [r];
      ForestEventsSnoc(rs[1..], r);
    }
  }

  lemma ForestEventsPrefix(rs: seq<BuildOperationRecord>, k: nat)
    requires k < |rs|
    ensures ForestEvents(rs[..k + 1]) == ForestEvents(rs[..k]) + RecordEvents(rs[k])
  {
    assert rs[..k + 1] == rs[..k] + [rs[k]];
    ForestEventsSnoc(rs[..k], rs[k]);
  }

  /** `convert(input)`: the events of the top-level records, in input order. */
  method Convert(input: seq<BuildOperationRecord>) returns (events: seq<TraceEvent>)
    ensures events == ForestEvents(input)
  {
    events := [];
    for i := 0 to |input|
      invariant events == ForestEvents(input[..i])
    {
      events := Helper(input[i], events);
      ForestEventsPrefix(input, i);
    }
    assert input[..|input|] == input;
  }

  /** `helper(record)`: appends the record's events to the list. */
  method Helper(record: BuildOperationRecord, events0: seq<TraceEvent>) returns (events: seq<TraceEvent>)
    ensures events == events0 + RecordEvents(record)
    decreases record, 1
  {
    events := events0 + [BeginEvent(record)];
    ghost var pes := NullableProgressEvents(record.progress);
    if record.progress.Some? {
      events := AddProgressEvents(record.progress.value, events);
    }
    assert events == events0 + [BeginEvent(record)] + pes;
    if record.children.Children? {
      events := AddChildEvents(record, events);
    }
    assert events == events0 + ([BeginEvent(record)] + pes + ChildEvents(record));
    events := events + [EndEvent(record)];
    assert RecordEvents(record) == [BeginEvent(record)] + pes + ChildEvents(record) + [EndEvent(record)];
  }

  /** `record.progress?.forEach { ... }`: one "i" event per progress entry, in order. */
  method AddProgressEvents(ps: seq<Progress>, events0: seq<TraceEvent>) returns (events: seq<TraceEvent>)
    ensures events == events0 + ProgressEvents(ps)
  {
    events := events0;
    for j := 0 to |ps|
      invariant events == events0 + ProgressEvents(ps[..j])
    {
      events := events + [ProgressEvent(ps[j])];
    }
    assert ps[..|ps|] == ps;
  }

  /** `record.children?.forEach { helper(it) }` */
  method AddChildEvents(record: BuildOperationRecord, events0: seq<TraceEvent>) returns (events: seq<TraceEvent>)
    requires record.children.Children?
    ensures events == events0 + ForestEvents(record.children.records)
    decreases record, 0
  {
    var ks := record.children.records;
    events := events0;
    for k := 0 to |ks|
      invariant events == events0 + ForestEvents(ks[..k])
    {
      events := Helper(ks[k], events);
      ForestEventsPrefix(ks, k);
    }
    assert ks[..|ks|] == ks;
  }

  // ---------------------------------------------------------------------------
  // The records of a forest, in the two depth-first orders

  /** Every record of the forest, each before its children. */
  function Preorder(rs: seq<BuildOperationRecord>): seq<BuildOperationRecord>
    decreases rs
  {
    if rs == [] then []
    else
      var r := rs[0];
      [r] + (match r.children case NoChildren => [] case Children(ks) => Preorder(ks)) + Preorder(rs[1..])
  }

  /** Every record of the forest, each after its children. */
  function Postorder(rs: seq<BuildOperationRecord>): seq<BuildOperationRecord>
    decreases rs
  {
    if rs == [] then []
    else
      var r := rs[0];
      (match r.children case NoChildren => [] case Children(ks) => Postorder(ks)) + [r] + Postorder(rs[1..])
  }

  function ProgressCount(r: BuildOperationRecord): nat {
    match r.progress
    case None => 0
    case Some(ps) => |ps|
  }

  /** The number of progress entries over a list of records. */
  function TotalProgress(rs: seq<BuildOperationRecord>): nat
    decreases |rs|
  {
    if rs == [] then 0 else ProgressCount(rs[0]) + TotalProgress(rs[1..])
  }

  lemma {:induction false} TotalProgressAppend(a: seq<BuildOperationRecord>, b: seq<BuildOperationRecord>)
    ensures TotalProgress(a + b) == TotalProgress(a) + TotalProgress(b)
    decreases |a|
  {
    if a == [] {
      assert a + b == b;
    } else {
      assert (a + b)[1..] == a[1..] + b;
      TotalProgressAppend(a[1..], b);
    }
  }

  function ChildEvents(r: BuildOperationRecord): seq<TraceEvent> {
    match r.children case NoChildren => [] case Children(ks) => ForestEvents(ks)
  }

  function ChildPreorder(r: BuildOperationRecord): seq<BuildOperationRecord> {
    match r.children case NoChildren => [] case Children(ks) => Preorder(ks)
  }

  /** Two events per record and one per progress entry, over the whole tree. */
  lemma {:induction false} ForestEventCount(rs: seq<BuildOperationRecord>)
    ensures |ForestEvents(rs)| == 2 * |Preorder(rs)| + TotalProgress(Preorder(rs))
    decreases rs
  {
    if rs != [] {
      var r := rs[0];
      var kids := ChildPreorder(r);
      if r.children.Children? {
        ForestEventCount(r.children.records);
      }
      ForestEventCount(rs[1..]);
      assert Preorder(rs) == [r] + kids + Preorder(rs[1..]);
      TotalProgressAppend([r] + kids, Preorder(rs[1..]));
      TotalProgressAppend([r], kids);
      assert TotalProgress([r]) == ProgressCount(r);
      assert RecordEvents(r) == [BeginEvent(r)] + NullableProgressEvents(r.progress) + ChildEvents(r) + [EndEvent(r)];
    }
  }

  // ---------------------------------------------------------------------------
  // The "B" events come in preorder, the "E" events in postorder

  function WithPhase(es: seq<TraceEvent>, phase: string): seq<TraceEvent>
    decreases |es|
  {
    if es == [] then []
    else (if es[0].phaseType == Some(phase) then [es[0]] else []) + WithPhase(es[1..], phase)
  }

  lemma {:induction false} WithPhaseAppend(a: seq<TraceEvent>, b: seq<TraceEvent>, phase: string)
    ensures WithPhase(a + b, phase) == WithPhase(a, phase) + WithPhase(b, phase)
    decreases |a|
  {
    if a == [] {
      assert a + b == b;
    } else {
      assert (a + b)[1..] == a[1..] + b;
      WithPhaseAppend(a[1..], b, phase);
    }
  }

  lemma {:induction false} WithPhaseProgress(ps: seq<Progress>, phase: string)
    requires phase != Instant
    ensures WithPhase(ProgressEvents(ps), phase) == []
    decreases |ps|
  {
    if ps != [] {
      assert ProgressEvents(ps)[1..] == ProgressEvents(ps[1..]);
      WithPhaseProgress(ps[1..], phase);
    }
  }

  function Begins(rs: seq<BuildOperationRecord>): seq<TraceEvent>
    decreases |rs|
  {
    if rs == [] then [] else [BeginEvent(rs[0])] + Begins(rs[1..])
  }

  function Ends(rs: seq<BuildOperationRecord>): seq<TraceEvent>
    decreases |rs|
  {
    if rs == [] then [] else [EndEvent(rs[0])] + Ends(rs[1..])
  }

  lemma {:induction false} BeginsAppend(a: seq<BuildOperationRecord>, b: seq<BuildOperationRecord>)
    ensures Begins(a + b) == Begins(a) + Begins(b)
    ensures Ends(a + b) == Ends(a) + Ends(b)
    decreases |a|
  {
    if a == [] {
      assert a + b == b;
    } else {
      assert (a + b)[1..] == a[1..] + b;
      BeginsAppend(a[1..], b);
    }
  }

  lemma BeginsSingle(r: BuildOperationRecord)
    ensures Begins([r]) == [BeginEvent(r)] && Ends([r]) == [EndEvent(r)]
  {
    assert [r][1..] == [];
  }

  /** Within one record's events, its own "B" comes first and its own "E" last among the "B"/"E" events. */
  lemma RecordPhases(r: BuildOperationRecord)
    ensures WithPhase(RecordEvents(r), Begin) == [BeginEvent(r)] + WithPhase(ChildEvents(r), Begin)
    ensures WithPhase(RecordEvents(r), End) == WithPhase(ChildEvents(r), End) + [EndEvent(r)]
  {
    var pes := NullableProgressEvents(r.progress);
    var kids := ChildEvents(r);
    assert WithPhase(pes, Begin) == [] && WithPhase(pes, End) == [] by {
      if r.progress.Some? {
        WithPhaseProgress(r.progress.value, Begin);
        WithPhaseProgress(r.progress.value, End);
      }
    }
    assert WithPhase([BeginEvent(r)], Begin) == [BeginEvent(r)] && WithPhase([BeginEvent(r)], End) == [] by {
      assert [BeginEvent(r)][1..] == [];
    }
    assert WithPhase([EndEvent(r)], End) == [EndEvent(r)] && WithPhase([EndEvent(r)], Begin) == [] by {
      assert [EndEvent(r)][1..] == [];
    }
    assert RecordEvents(r) == [BeginEvent(r)] + pes + kids + [EndEvent(r)];
    forall phase | phase == Begin || phase == End
      ensures WithPhase(RecordEvents(r), phase)
           == WithPhase([BeginEvent(r)], phase) + WithPhase(pes, phase) + WithPhase(kids, phase) + WithPhase([EndEvent(r)], phase)
    {
      WithPhaseAppend([BeginEvent(r)] + pes + kids, [EndEvent(r)], phase);
      WithPhaseAppend([BeginEvent(r)] + pes, kids, phase);
      WithPhaseAppend([BeginEvent(r)], pes, phase);
    }
  }

  /**
   * The "B" events are the begin events of all records in depth-first preorder: top-level
   * records in input order, children in list order, each parent before its children.
   */
  lemma {:induction false} BeginsInPreorder(rs: seq<BuildOperationRecord>)
    ensures WithPhase(ForestEvents(rs), Begin) == Begins(Preorder(rs))
    decreases rs
  {
    if rs != [] {
      var r := rs[0];
      var pre := ChildPreorder(r);
      if r.children.Children? {
        BeginsInPreorder(r.children.records);
      }
      BeginsInPreorder(rs[1..]);
      RecordPhases(r);
      WithPhaseAppend(RecordEvents(r), ForestEvents(rs[1..]), Begin);
      BeginsSingle(r);
      assert Preorder(rs) == [r] + pre + Preorder(rs[1..]);
      BeginsAppend([r] + pre, Preorder(rs[1..]));
      BeginsAppend([r], pre);
    }
  }

  /** The "E" events are the end events of all records in depth-first postorder: each parent after its children. */
  lemma {:induction false} EndsInPostorder(rs: seq<BuildOperationRecord>)
    ensures WithPhase(ForestEvents(rs), End) == Ends(Postorder(rs))
    decreases rs
  {
    if rs != [] {
      var r := rs[0];
      var post := match r.children case NoChildren => [] case Children(ks) => Postorder(ks);
      if r.children.Children? {
        EndsInPostorder(r.children.records);
      }
      EndsInPostorder(rs[1..]);
      RecordPhases(r);
      WithPhaseAppend(RecordEvents(r), ForestEvents(rs[1..]), End);
      BeginsSingle(r);
      assert Postorder(rs) == post + [r] + Postorder(rs[1..]);
      BeginsAppend(post + [r], Postorder(rs[1..]));
      BeginsAppend(post, [r]);
    }
  }

  // ---------------------------------------------------------------------------
  // Balance: every prefix holds at least as many "B" as "E" events, the whole as many

  /** The number of "B" minus the number of "E" events. */
  function Open(es: seq<TraceEvent>): int
    decreases |es|
  {
    if es == [] then 0
    else
      var last := es[|es| - 1];
      var delta := if last.phaseType == Some(Begin) then 1 else if last.phaseType == Some(End) then -1 else 0;
      Open(es[..|es| - 1]) + delta
  }

  ghost predicate Balanced(es: seq<TraceEvent>) {
    && Open(es) == 0
    && forall k :: 0 <= k <= |es| ==> Open(es[..k]) >= 0
  }

  lemma {:induction false} OpenAppend(a: seq<TraceEvent>, b: seq<TraceEvent>)
    ensures Open(a + b) == Open(a) + Open(b)
    decreases |b|
  {
    if b == [] {
      assert a + b == a;
    } else {
      assert (a + b)[..|a + b| - 1] == a + b[..|b| - 1];
      OpenAppend(a, b[..|b| - 1]);
    }
  }

  lemma BalancedAppend(a: seq<TraceEvent>, b: seq<TraceEvent>)
    requires Balanced(a) && Balanced(b)
    ensures Balanced(a + b)
  {
    OpenAppend(a, b);
    forall k | 0 <= k <= |a + b| ensures Open((a + b)[..k]) >= 0 {
      if k <= |a| {
        assert (a + b)[..k] == a[..k];
      } else {
        assert (a + b)[..k] == a + b[..k - |a|];
        OpenAppend(a, b[..k - |a|]);
      }
    }
  }

  /** Progress events neither open nor close anything, at any prefix. */
  lemma {:induction false} ProgressOpen(ps: seq<Progress>)
    ensures Open(ProgressEvents(ps)) == 0
    ensures forall k :: 0 <= k <= |ps| ==> Open(ProgressEvents(ps)[..k]) == 0
    decreases |ps|
  {
    if ps != [] {
      var es := ProgressEvents(ps);
      ProgressOpen(ps[..|ps| - 1]);
      assert es[..|es| - 1] == ProgressEvents(ps[..|ps| - 1]);
      forall k | 0 <= k <= |ps| ensures Open(es[..k]) == 0 {
        if k < |ps| {
          assert es[..k] == ProgressEvents(ps[..|ps| - 1])[..k];
        } else {
          assert es[..k] == es;
        }
      }
    }
  }

  /** `[B] + x + [E]` is balanced when `x` is. */
  lemma Wrapped(b: TraceEvent, x: seq<TraceEvent>, e: TraceEvent)
    requires b.phaseType == Some(Begin) && e.phaseType == Some(End)
    requires Balanced(x)
    ensures Balanced([b] + x + [e])
  {
    var w := [b] + x + [e];
    OpenAppend([b], x);
    OpenAppend([b] + x, [e]);
    assert Open([b]) == 1 by { assert [b][..0] == []; }
    assert Open([e]) == -1 by { assert [e][..0] == []; }
    forall k | 0 <= k <= |w| ensures Open(w[..k]) >= 0 {
      if k == 0 {
        assert w[..k] == [];
      } else if k <= |x| + 1 {
        assert w[..k] == [b] + x[..k - 1];
        OpenAppend([b], x[..k - 1]);
      } else {
        assert w[..k] == w;
      }
    }
  }

  /** `x + y` where `y` never opens or closes anything keeps `x`'s balance. */
  lemma NeutralPrefix(p: seq<TraceEvent>, x: seq<TraceEvent>)
    requires Open(p) == 0 && forall k :: 0 <= k <= |p| ==> Open(p[..k]) == 0
    requires Balanced(x)
    ensures Balanced(p + x)
  {
    assert Balanced(p);
    BalancedAppend(p, x);
  }

  lemma {:induction false} RecordBalanced(r: BuildOperationRecord)
    ensures Balanced(RecordEvents(r))
    decreases r
  {
    var pes := NullableProgressEvents(r.progress);
    var kids := ChildEvents(r);
    assert Balanced(kids) by {
      if r.children.Children? {
        ForestBalanced(r.children.records);
      } else {
        assert kids == [];
        assert kids[..0] == [];
      }
    }
    assert Open(pes) == 0 && forall k :: 0 <= k <= |pes| ==> Open(pes[..k]) == 0 by {
      if r.progress.Some? {
        ProgressOpen(r.progress.value);
      } else {
        assert pes[..0] == [];
      }
    }
    NeutralPrefix(pes, kids);
    Wrapped(BeginEvent(r), pes + kids, EndEvent(r));
    assert RecordEvents(r) == [BeginEvent(r)] + (pes + kids) + [EndEvent(r)];
  }

  /** The "B" and "E" events of the whole output are balanced. */
  lemma {:induction false} ForestBalanced(rs: seq<BuildOperationRecord>)
    ensures Balanced(ForestEvents(rs))
    decreases rs
  {
    if rs == [] {
      assert ForestEvents(rs)[..0] == [];
    } else {
      RecordBalanced(rs[0]);
      ForestBalanced(rs[1..]);
      BalancedAppend(RecordEvents(rs[0]), ForestEvents(rs[1..]));
    }
  }

  // ---------------------------------------------------------------------------
  // The layout of one record's events

  /**
   * A record's events open with its "B" event, named after it and stamped with its start
   * in microseconds; then one unnamed "i" event per progress entry, in order, stamped
   * with the entry's time and carrying its details and class name; then its children's
   * events; and they close with its "E" event, stamped with its end.
   */
  lemma RecordLayout(r: BuildOperationRecord)
    ensures var es := RecordEvents(r);
      var n := ProgressCount(r);
      && |es| == 2 + n + |ChildEvents(r)|
      && es[0].phaseType == Some(Begin) && es[0].name == Some(r.displayName) && es[0].timestamp == r.startTime * 1000
      && (forall i :: 1 <= i <= n ==>
            && es[i].phaseType == Some(Instant) && es[i].name.None?
            && es[i].timestamp == r.progress.value[i - 1].time * 1000
            && es[i].arguments == Some([Entry("details", MapArgument(r.progress.value[i - 1].details)),
                                        Entry("detailsClassName", StringArgument(r.progress.value[i - 1].detailsClassName))]))
      && es[1 + n..|es| - 1] == ChildEvents(r)
      && es[|es| - 1].phaseType == Some(End) && es[|es| - 1].name == Some(r.displayName)
      && es[|es| - 1].timestamp == r.endTime * 1000
  {
    var es := RecordEvents(r);
    var pes := NullableProgressEvents(r.progress);
    assert es == [BeginEvent(r)] + pes + ChildEvents(r) + [EndEvent(r)];
    assert |pes| == ProgressCount(r);
    forall i | 1 <= i <= ProgressCount(r) ensures es[i] == pes[i - 1] {
    }
    assert es[1 + |pes|..|es| - 1] == ChildEvents(r);
  }
}
