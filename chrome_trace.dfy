/**
 * app/.../TraceToChromeTraceConverter.kt: the Perfetto trace writer. Each visited
 * start becomes a slice-begin packet on a thread track and its post-visit callback a
 * slice-end packet on the same track; the first visit fixes the time origin and writes
 * a clock snapshot, and track descriptors are written once per process and per thread.
 *
 * Packets are values of `TracePacket` rather than protobuf bytes; the coded output
 * stream is the sequence `packets` they are appended to. Every packet the source writes
 * also carries trusted packet sequence id 1, which is the same for all and left out.
 */
module ChromeTrace {
  import opened Values
  import opened Strings
  import opened OperationLog

  // ---------------------------------------------------------------------------
  // Debug annotations

  /** A `DebugAnnotation` with a name and either nested dict entries or a string value. */
  datatype DebugAnnotation = DebugAnnotation(name: string, value: AnnotationValue)

  datatype AnnotationValue =
    | DictEntries(entries: seq<DebugAnnotation>)
    | StringValue(s: string)

  /** `toDebugAnnotations(args, name)`: a dict annotation named `name`, one entry per map entry. */
  function ToDebugAnnotations(args: Option<Fields>, name: string): (a: DebugAnnotation)
    ensures a.name == name && a.value.DictEntries?
    ensures args.None? ==> a.value.entries == []
    ensures args.Some? ==> |a.value.entries| == |args.value|
    ensures args.Some? ==> forall i :: 0 <= i < |args.value| ==> a.value.entries[i].name == args.value[i].key
  {
    match args
    case None => DebugAnnotation(name, DictEntries([]))
    case Some(fs) => DebugAnnotation(name, DictEntries(EntryAnnotations(fs)))
  }

  /** The dict entries of a map, in its iteration order. */
  function EntryAnnotations(fs: Fields): (r: seq<DebugAnnotation>)
    ensures |r| == |fs|
    ensures forall i :: 0 <= i < |fs| ==> r[i].name == fs[i].key
    decreases fs
  {
    if fs == [] then [] else [EntryAnnotation(fs[0])] + EntryAnnotations(fs[1..])
  }

  /** A nested map becomes a dict named by its key, anything else its `toString()`. */
  function EntryAnnotation(e: Entry): (a: DebugAnnotation)
    ensures a.name == e.key
    ensures a.value.DictEntries? <==> e.value.Object?
    decreases e
  {
    match e.value
    case Object(inner) => DebugAnnotation(e.key, DictEntries(EntryAnnotations(inner)))
    case _ => DebugAnnotation(e.key, StringValue(Show(e.value)))
  }

  /** Entry `i` of the dict is the nested dict or the string of entry `i` of the map. */
  lemma {:induction false} EntryAnnotationsAt(fs: Fields, i: int)
    requires 0 <= i < |fs|
    ensures fs[i].value.Object? ==>
      EntryAnnotations(fs)[i] == DebugAnnotation(fs[i].key, DictEntries(EntryAnnotations(fs[i].value.entries)))
    ensures !fs[i].value.Object? ==>
      EntryAnnotations(fs)[i] == DebugAnnotation(fs[i].key, StringValue(Show(fs[i].value)))
    decreases |fs|
  {
    if i > 0 {
      EntryAnnotationsAt(fs[1..], i - 1);
    }
  }

  /** A map whose leaves are all strings. */
  predicate StringLeaves(fs: Fields)
    decreases fs
  {
    forall i :: 0 <= i < |fs| ==> StringLeaf(fs[i])
  }

  predicate StringLeaf(e: Entry)
    decreases e
  {
    match e.value
    case Str(_) => true
    case Object(inner) => StringLeaves(inner)
    case _ => false
  }

  /** Reading dict entries back as a map: the partner of `EntryAnnotations`. */
  function AnnotationFields(entries: seq<DebugAnnotation>): (fs: Fields)
    ensures |fs| == |entries|
    decreases entries
  {
    if entries == [] then [] else [AnnotationEntry(entries[0])] + AnnotationFields(entries[1..])
  }

  function AnnotationEntry(a: DebugAnnotation): (e: Entry)
    ensures e.key == a.name
    decreases a
  {
    match a.value
    case DictEntries(es) => Entry(a.name, Object(AnnotationFields(es)))
    case StringValue(s) => Entry(a.name, Str(s))
  }

  /** A map of strings and nested maps of strings survives the conversion unchanged. */
  lemma {:induction false} AnnotationsRoundTrip(fs: Fields)
    requires StringLeaves(fs)
    ensures AnnotationFields(EntryAnnotations(fs)) == fs
    decreases fs
  {
    if fs != [] {
      EntryRoundTrip(fs[0]);
      AnnotationsRoundTrip(fs[1..]);
      assert fs == [fs[0]] + fs[1..];
    }
  }

  lemma {:induction false} EntryRoundTrip(e: Entry)
    requires StringLeaf(e)
    ensures AnnotationEntry(EntryAnnotation(e)) == e
    decreases e
  {
    match e.value
    case Str(_) =>
    case Object(inner) =>
      AnnotationsRoundTrip(inner);
  }

  // ---------------------------------------------------------------------------
  // Packets

  /** The clock ids of a clock snapshot: a numbered clock, or Perfetto's builtin boot-time clock. */
  datatype ClockId = ClockNumber(n: int) | BuiltinBoottime

  /** The first user-defined clock id, the trace's own millisecond clock. */
  const TraceClock := ClockNumber(64)

  datatype Clock = Clock(clockId: ClockId, timestamp: int, unitMultiplierNs: Option<int>)

  datatype SliceType = SliceBegin | SliceEnd

  datatype TracePacket =
    | ClockSnapshotPacket(clocks: seq<Clock>)
    | ProcessTrackPacket(trackUuid: int, pid: int, processName: string)
    | ThreadTrackPacket(trackUuid: int, pid: int, tid: int, threadName: string)
    | TrackEventPacket(
        clockId: ClockId,
        timestamp: int,
        trackUuid: int,
        sliceType: SliceType,
        name: Option<string>,
        categories: seq<string>,
        annotations: seq<DebugAnnotation>)

  /** The snapshot of `onFirstRecord`: clock 64 at 0 in milliseconds is `origin` on the boot-time clock. */
  function FirstSnapshot(origin: int): TracePacket {
    ClockSnapshotPacket([Clock(TraceClock, 0, Some(1000 * 1000)), Clock(BuiltinBoottime, origin, None)])
  }

  function ProcessTrack(pid: int): TracePacket {
    ProcessTrackPacket(0, pid, "Worker Lease " + IntToString(pid))
  }

  function ThreadTrack(uuid: int, pid: int, tid: int): TracePacket {
    ThreadTrackPacket(uuid, pid, tid, "thread(" + IntToString(tid) + ")")
  }

  function OrEmpty(s: Option<string>): string {
    match s
    case None => ""
    case Some(v) => v
  }

  function BeginSlice(start: BuildOperationStart, origin: int, uuid: int): TracePacket {
    TrackEventPacket(TraceClock, start.startTime - origin, uuid, SliceBegin, Some(start.displayName),
      [OrEmpty(start.detailsClassName)], [ToDebugAnnotations(start.details, "details")])
  }

  function EndSlice(finish: BuildOperationFinish, origin: int, uuid: int): TracePacket {
    TrackEventPacket(TraceClock, finish.endTime - origin, uuid, SliceEnd, None,
      [], [ToDebugAnnotations(finish.result, "result")])
  }

  // ---------------------------------------------------------------------------
  // The track table

  /** `knownPidTid[pid]?.containsKey(tid)` */
  predicate Known(known: map<int, map<int, int>>, pid: int, tid: int) {
    pid in known && tid in known[pid]
  }

  /** How many process descriptors for `pid` were written. */
  function ProcessTracks(ps: seq<TracePacket>, pid: int): nat
    decreases |ps|
  {
    if ps == [] then 0
    else
      var p := ps[|ps| - 1];
      ProcessTracks(ps[..|ps| - 1], pid) + (if p.ProcessTrackPacket? && p.pid == pid then 1 else 0)
  }

  /** How many thread descriptors for (`pid`, `tid`) were written. */
  function ThreadTracks(ps: seq<TracePacket>, pid: int, tid: int): nat
    decreases |ps|
  {
    if ps == [] then 0
    else
      var p := ps[|ps| - 1];
      ThreadTracks(ps[..|ps| - 1], pid, tid) + (if p.ThreadTrackPacket? && p.pid == pid && p.tid == tid then 1 else 0)
  }

  lemma TracksSnoc(ps: seq<TracePacket>, p: TracePacket)
    ensures forall pid ::
              ProcessTracks(ps + [p], pid) == ProcessTracks(ps, pid) + (if p.ProcessTrackPacket? && p.pid == pid then 1 else 0)
    ensures forall pid, tid ::
              ThreadTracks(ps + [p], pid, tid) ==
              ThreadTracks(ps, pid, tid) + (if p.ThreadTrackPacket? && p.pid == pid && p.tid == tid then 1 else 0)
  {
    assert (ps + [p])[..|ps|] == ps;
  }

  /** One process descriptor per known process, none for any other. */
  ghost predicate ProcessTracksOnce(ps: seq<TracePacket>, known: map<int, map<int, int>>) {
    forall pid :: ProcessTracks(ps, pid) == if pid in known then 1 else 0
  }

  /** One thread descriptor per known (pid, tid), none for any other. */
  ghost predicate ThreadTracksOnce(ps: seq<TracePacket>, known: map<int, map<int, int>>) {
    forall pid, tid :: ThreadTracks(ps, pid, tid) == if Known(known, pid, tid) then 1 else 0
  }

  /** Every thread descriptor written carries the uuid the table stores for its thread. */
  ghost predicate ThreadTracksStored(ps: seq<TracePacket>, known: map<int, map<int, int>>) {
    forall i :: 0 <= i < |ps| && ps[i].ThreadTrackPacket? ==>
      Known(known, ps[i].pid, ps[i].tid) && ps[i] == ThreadTrack(known[ps[i].pid][ps[i].tid], ps[i].pid, ps[i].tid)
  }

  /** The stored uuids were drawn from the counter: all below it, from 1, no two alike. */
  ghost predicate UuidsIssued(known: map<int, map<int, int>>, counter: int) {
    && 1 <= counter
    && (forall pid, tid :: Known(known, pid, tid) ==> 1 <= known[pid][tid] < counter)
    && (forall p1, t1, p2, t2 :: Known(known, p1, t1) && Known(known, p2, t2) && known[p1][t1] == known[p2][t2] ==>
          p1 == p2 && t1 == t2)
  }

  /** The thread ids handed out so far are 1, 2, ..., one per name. */
  ghost predicate ThreadIdsDense(ids: map<string, int>) {
    && (forall n :: n in ids ==> 1 <= ids[n] <= |ids|)
    && (forall n1, n2 :: n1 in ids && n2 in ids && ids[n1] == ids[n2] ==> n1 == n2)
  }

  /** `getOrPut(name) { size + 1 }`: the stored id, or the next one. */
  function ThreadIdFor(ids: map<string, int>, name: string): int {
    if name in ids then ids[name] else |ids| + 1
  }

  /** A thread id handed to a new name keeps the ids dense. */
  lemma NewThreadIdDense(ids: map<string, int>, name: string)
    requires ThreadIdsDense(ids)
    ensures ThreadIdsDense(ids[name := ThreadIdFor(ids, name)])
    ensures name in ids ==> ids[name := ThreadIdFor(ids, name)] == ids
  {
    if name !in ids {
      var ids' := ids[name := |ids| + 1];
      assert |ids'| == |ids| + 1;
      forall n1, n2 | n1 in ids' && n2 in ids' && ids'[n1] == ids'[n2] ensures n1 == n2 {
        if n1 != name && n2 != name {
          assert ids[n1] == ids[n2];
        }
      }
    }
  }

  lemma ThreadTracksAtLeastOne(ps: seq<TracePacket>, i: int)
    requires 0 <= i < |ps| && ps[i].ThreadTrackPacket?
    ensures ThreadTracks(ps, ps[i].pid, ps[i].tid) >= 1
    decreases |ps|
  {
    if i < |ps| - 1 {
      ThreadTracksAtLeastOne(ps[..|ps| - 1], i);
    }
  }

  lemma {:induction false} ThreadTracksAtLeastTwo(ps: seq<TracePacket>, i: int, j: int)
    requires 0 <= i < j < |ps| && ps[i].ThreadTrackPacket? && ps[j].ThreadTrackPacket?
    requires ps[i].pid == ps[j].pid && ps[i].tid == ps[j].tid
    ensures ThreadTracks(ps, ps[i].pid, ps[i].tid) >= 2
    decreases |ps|
  {
    var front := ps[..|ps| - 1];
    if j == |ps| - 1 {
      ThreadTracksAtLeastOne(front, i);
    } else {
      ThreadTracksAtLeastTwo(front, i, j);
    }
  }

  /** No two thread descriptors in the output share a uuid. */
  lemma ThreadTrackUuidsDistinct(ps: seq<TracePacket>, known: map<int, map<int, int>>, counter: int)
    requires ThreadTracksOnce(ps, known) && ThreadTracksStored(ps, known) && UuidsIssued(known, counter)
    ensures forall i, j :: 0 <= i < j < |ps| && ps[i].ThreadTrackPacket? && ps[j].ThreadTrackPacket? ==>
      ps[i].trackUuid != ps[j].trackUuid
  {
    forall i, j | 0 <= i < j < |ps| && ps[i].ThreadTrackPacket? && ps[j].ThreadTrackPacket?
      ensures ps[i].trackUuid != ps[j].trackUuid
    {
      if ps[i].trackUuid == ps[j].trackUuid {
        assert ps[i].pid == ps[j].pid && ps[i].tid == ps[j].tid;
        ThreadTracksAtLeastTwo(ps, i, j);
      }
    }
  }

  /** The table after a new thread (`pid`, `tid`) gets uuid `counter`. */
  function AddThread(known: map<int, map<int, int>>, pid: int, tid: int, uuid: int): map<int, map<int, int>>
    requires pid in known
  {
    known[pid := known[pid][tid := uuid]]
  }

  lemma AddThreadKnown(known: map<int, map<int, int>>, pid: int, tid: int, uuid: int)
    requires pid in known
    ensures forall p, t :: Known(AddThread(known, pid, tid, uuid), p, t) <==> Known(known, p, t) || (p == pid && t == tid)
    ensures forall p, t :: Known(known, p, t) && !(p == pid && t == tid) ==>
      AddThread(known, pid, tid, uuid)[p][t] == known[p][t]
    ensures AddThread(known, pid, tid, uuid)[pid][tid] == uuid
    ensures AddThread(known, pid, tid, uuid).Keys == known.Keys
  {
  }

  /** The table once `pid` is known: unchanged if it was, otherwise with an empty thread table for it. */
  function WithProcess(known: map<int, map<int, int>>, pid: int): (r: map<int, map<int, int>>)
    ensures pid in r
  {
    if pid in known then known else known[pid := map[]]
  }

  /** The uuid `visit` puts a slice of (`pid`, `tid`) on: the stored one, else the counter's. */
  function TrackUuid(known: map<int, map<int, int>>, pid: int, tid: int, counter: int): int {
    if Known(known, pid, tid) then known[pid][tid] else counter
  }

  /** The table once (`pid`, `tid`) is known, a new thread taking the counter's uuid. */
  function WithThread(known: map<int, map<int, int>>, pid: int, tid: int, counter: int): map<int, map<int, int>> {
    var k := WithProcess(known, pid);
    if tid in k[pid] then k else AddThread(k, pid, tid, counter)
  }

  /** The descriptors `visit` writes for (`pid`, `tid`): those not written before. */
  function TrackPackets(known: map<int, map<int, int>>, pid: int, tid: int, counter: int): seq<TracePacket> {
    (if pid in known then [] else [ProcessTrack(pid)])
      + (if Known(known, pid, tid) then [] else [ThreadTrack(counter, pid, tid)])
  }

  /** Declaring the process first changes nothing about its threads. */
  lemma WithProcessKeepsThreads(known: map<int, map<int, int>>, pid: int, tid: int, counter: int)
    ensures Known(WithProcess(known, pid), pid, tid) == Known(known, pid, tid)
    ensures TrackUuid(WithProcess(known, pid), pid, tid, counter) == TrackUuid(known, pid, tid, counter)
    ensures WithThread(WithProcess(known, pid), pid, tid, counter) == WithThread(known, pid, tid, counter)
    ensures WithProcess(WithProcess(known, pid), pid) == WithProcess(known, pid)
  {
  }

  /**
   * Declaring a track twice is declaring it once: the second time writes no descriptor
   * and yields the uuid of the first, whatever the counter says by then.
   */
  lemma TrackDeclaredOnce(known: map<int, map<int, int>>, pid: int, tid: int, counter: int, later: int)
    ensures var known' := WithThread(known, pid, tid, counter);
      && Known(known', pid, tid)
      && known'[pid][tid] == TrackUuid(known, pid, tid, counter)
      && TrackPackets(known', pid, tid, later) == []
      && TrackUuid(known', pid, tid, later) == TrackUuid(known, pid, tid, counter)
      && WithThread(known', pid, tid, later) == known'
  {
  }

  /** A new thread's descriptor and table entry keep one descriptor per known thread. */
  lemma NewThreadTracksOnce(ps: seq<TracePacket>, known: map<int, map<int, int>>, pid: int, tid: int, uuid: int)
    requires pid in known && tid !in known[pid]
    requires ProcessTracksOnce(ps, known) && ThreadTracksOnce(ps, known)
    ensures ProcessTracksOnce(ps + [ThreadTrack(uuid, pid, tid)], AddThread(known, pid, tid, uuid))
    ensures ThreadTracksOnce(ps + [ThreadTrack(uuid, pid, tid)], AddThread(known, pid, tid, uuid))
  {
    TracksSnoc(ps, ThreadTrack(uuid, pid, tid));
    AddThreadKnown(known, pid, tid, uuid);
  }

  /** ... and every descriptor still carries its thread's stored uuid. */
  lemma NewThreadTracksStored(ps: seq<TracePacket>, known: map<int, map<int, int>>, pid: int, tid: int, uuid: int)
    requires pid in known && tid !in known[pid]
    requires ThreadTracksOnce(ps, known) && ThreadTracksStored(ps, known)
    ensures ThreadTracksStored(ps + [ThreadTrack(uuid, pid, tid)], AddThread(known, pid, tid, uuid))
  {
    var ps' := ps + [ThreadTrack(uuid, pid, tid)];
    var known' := AddThread(known, pid, tid, uuid);
    AddThreadKnown(known, pid, tid, uuid);
    forall i | 0 <= i < |ps'| && ps'[i].ThreadTrackPacket?
      ensures Known(known', ps'[i].pid, ps'[i].tid) && ps'[i] == ThreadTrack(known'[ps'[i].pid][ps'[i].tid], ps'[i].pid, ps'[i].tid)
    {
      if i < |ps| {
        assert ps'[i] == ps[i];
        ThreadTracksAtLeastOne(ps, i);
      }
    }
  }

  /** ... and a uuid drawn from the counter is new. */
  lemma NewThreadUuidsIssued(known: map<int, map<int, int>>, pid: int, tid: int, counter: int)
    requires pid in known && tid !in known[pid]
    requires UuidsIssued(known, counter)
    ensures UuidsIssued(AddThread(known, pid, tid, counter), counter + 1)
  {
    AddThreadKnown(known, pid, tid, counter);
  }

  /** The end callback `visit` returns; it remembers the track its slice began on. */
  datatype EndCallback = EndCallback(trackUuid: int)

  // ---------------------------------------------------------------------------
  // The converter

  class TraceToChromeTraceConverter {
    var packetCount: int
    var uuidCounter: int
    var knownPidTid: map<int, map<int, int>>
    var startTime: int
    var bopThreadToId: map<string, int>
    /** The packets written to the coded output stream, in order. */
    var packets: seq<TracePacket>

    ghost predicate Valid()
      reads this
    {
      && packetCount == |packets|
      && (packets != [] ==> packets[0] == FirstSnapshot(startTime))
      && (knownPidTid != map[] ==> packets != [])
      && ProcessTracksOnce(packets, knownPidTid)
      && ThreadTracksOnce(packets, knownPidTid)
      && ThreadTracksStored(packets, knownPidTid)
      && UuidsIssued(knownPidTid, uuidCounter)
      && ThreadIdsDense(bopThreadToId)
    }

    /** A track uuid the table hands out. */
    ghost predicate Declared(uuid: int)
      reads this
    {
      exists pid, tid :: Known(knownPidTid, pid, tid) && knownPidTid[pid][tid] == uuid
    }

    constructor()
      ensures Valid()
      ensures packetCount == 0 && uuidCounter == 1 && startTime == 0
      ensures knownPidTid == map[] && bopThreadToId == map[] && packets == []
    {
      packetCount := 0;
      uuidCounter := 1;
      knownPidTid := map[];
      startTime := 0;
      bopThreadToId := map[];
      packets := [];
    }

    /** `writeTracePacket`: one packet more on the stream, one more counted. */
    method WriteTracePacket(packet: TracePacket)
      modifies this
      ensures packets == old(packets) + [packet]
      ensures packetCount == old(packetCount) + 1
      ensures uuidCounter == old(uuidCounter) && knownPidTid == old(knownPidTid)
      ensures startTime == old(startTime) && bopThreadToId == old(bopThreadToId)
    {
      packets := packets + [packet];
      packetCount := packetCount + 1;
    }

    /** `onFirstRecord`: the origin becomes the record's start time and the clock snapshot is written. */
    method OnFirstRecord(record: BuildOperationStart)
      requires Valid() && packetCount == 0
      modifies this
      ensures Valid()
      ensures startTime == record.startTime
      ensures packets == old(packets) + [FirstSnapshot(record.startTime)]
      ensures packetCount == old(packetCount) + 1
      ensures uuidCounter == old(uuidCounter) && knownPidTid == old(knownPidTid)
      ensures bopThreadToId == old(bopThreadToId)
    {
      startTime := record.startTime;
      WriteTracePacket(FirstSnapshot(startTime));
    }

    /** `getThreadId`: the id stored for the name, or the next id, stored from now on. */
    method GetThreadId(bopThreadName: string) returns (id: int)
      requires Valid()
      modifies this
      ensures Valid()
      ensures id == ThreadIdFor(old(bopThreadToId), bopThreadName)
      ensures bopThreadName in old(bopThreadToId) ==> id == old(bopThreadToId)[bopThreadName]
      ensures bopThreadName !in old(bopThreadToId) ==> id == |old(bopThreadToId)| + 1
      ensures bopThreadToId == old(bopThreadToId)[bopThreadName := id]
      ensures bopThreadName in old(bopThreadToId) ==> bopThreadToId == old(bopThreadToId)
      ensures packets == old(packets) && packetCount == old(packetCount)
      ensures uuidCounter == old(uuidCounter) && knownPidTid == old(knownPidTid) && startTime == old(startTime)
    {
      NewThreadIdDense(bopThreadToId, bopThreadName);
      if bopThreadName in bopThreadToId {
        id := bopThreadToId[bopThreadName];
      } else {
        id := |bopThreadToId| + 1;
        bopThreadToId := bopThreadToId[bopThreadName := id];
      }
    }

    /** The process step of `visit`: a descriptor for `pid` and an empty thread table, unless known. */
    method DeclareProcess(pid: int)
      requires Valid() && packets != []
      modifies this
      ensures Valid()
      ensures knownPidTid == WithProcess(old(knownPidTid), pid)
      ensures packets == old(packets) + if pid in old(knownPidTid) then [] else [ProcessTrack(pid)]
      ensures uuidCounter == old(uuidCounter) && startTime == old(startTime) && bopThreadToId == old(bopThreadToId)
    {
      if pid !in knownPidTid {
        TracksSnoc(packets, ProcessTrack(pid));
        WriteTracePacket(ProcessTrack(pid));
        knownPidTid := knownPidTid[pid := map[]];
      }
    }

    /** The thread step of `visit`: the stored uuid, or a new one from the counter with its descriptor. */
    method DeclareThread(pid: int, tid: int) returns (uuid: int)
      requires Valid() && pid in knownPidTid
      modifies this
      ensures Valid()
      ensures uuid == TrackUuid(old(knownPidTid), pid, tid, old(uuidCounter))
      ensures uuidCounter == old(uuidCounter) + if Known(old(knownPidTid), pid, tid) then 0 else 1
      ensures knownPidTid == WithThread(old(knownPidTid), pid, tid, old(uuidCounter))
      ensures packets == old(packets) + if Known(old(knownPidTid), pid, tid) then [] else [ThreadTrack(uuid, pid, tid)]
      ensures startTime == old(startTime) && bopThreadToId == old(bopThreadToId)
    {
      if tid !in knownPidTid[pid] {
        uuid := uuidCounter;
        NewThreadTracksOnce(packets, knownPidTid, pid, tid, uuid);
        NewThreadTracksStored(packets, knownPidTid, pid, tid, uuid);
        NewThreadUuidsIssued(knownPidTid, pid, tid, uuid);
        uuidCounter := uuidCounter + 1;
        WriteTracePacket(ThreadTrack(uuid, pid, tid));
        knownPidTid := AddThread(knownPidTid, pid, tid, uuid);
      } else {
        uuid := knownPidTid[pid][tid];
      }
    }

    /** A slice event keeps the tables as they are. */
    method WriteSlice(packet: TracePacket)
      requires Valid() && packets != [] && packet.TrackEventPacket?
      modifies this
      ensures Valid()
      ensures packets == old(packets) + [packet]
      ensures uuidCounter == old(uuidCounter) && knownPidTid == old(knownPidTid)
      ensures startTime == old(startTime) && bopThreadToId == old(bopThreadToId)
    {
      TracksSnoc(packets, packet);
      WriteTracePacket(packet);
    }

    /**
     * The track step of `visit`: the thread id of the build-operation thread "", then
     * the descriptors of worker lease 0 and of that thread, each written only the
     * first time.
     */
    method WorkerTrack() returns (uuid: int)
      requires Valid() && packets != []
      modifies this
      ensures Valid()
      ensures startTime == old(startTime)
      ensures bopThreadToId == old(bopThreadToId)["" := ThreadIdFor(old(bopThreadToId), "")]
      ensures var tid := ThreadIdFor(old(bopThreadToId), "");
        && uuid == TrackUuid(old(knownPidTid), 0, tid, old(uuidCounter))
        && uuidCounter == old(uuidCounter) + (if Known(old(knownPidTid), 0, tid) then 0 else 1)
        && knownPidTid == WithThread(old(knownPidTid), 0, tid, old(uuidCounter))
        && packets == old(packets) + TrackPackets(old(knownPidTid), 0, tid, old(uuidCounter))
    {
      ghost var known0 := knownPidTid;
      ghost var p0 := packets;
      var ctProcessId := 0;
      var ctThreadId := GetThreadId("");
      DeclareProcess(ctProcessId);
      ghost var p1 := packets;
      WithProcessKeepsThreads(known0, 0, ctThreadId, old(uuidCounter));
      uuid := DeclareThread(ctProcessId, ctThreadId);
      ConcatAssoc(p0, if 0 in known0 then [] else [ProcessTrack(0)],
        if Known(known0, 0, ctThreadId) then [] else [ThreadTrack(old(uuidCounter), 0, ctThreadId)]);
    }

    /**
     * `visit(start)`: the snapshot on the first visit, the process and thread
     * descriptors the first time they are needed, then the slice begin; the returned
     * callback ends the slice on the same track.
     */
    method Visit(start: BuildOperationStart) returns (postVisit: EndCallback)
      requires Valid()
      modifies this
      ensures Valid()
      ensures Declared(postVisit.trackUuid)
      ensures startTime == if old(packetCount) == 0 then start.startTime else old(startTime)
      ensures bopThreadToId == old(bopThreadToId)["" := ThreadIdFor(old(bopThreadToId), "")]
      ensures var tid := ThreadIdFor(old(bopThreadToId), "");
        && postVisit.trackUuid == TrackUuid(old(knownPidTid), 0, tid, old(uuidCounter))
        && uuidCounter == old(uuidCounter) + (if Known(old(knownPidTid), 0, tid) then 0 else 1)
        && knownPidTid == WithThread(old(knownPidTid), 0, tid, old(uuidCounter))
        && packets == old(packets)
          + (if old(packetCount) == 0 then [FirstSnapshot(startTime)] else [])
          + TrackPackets(old(knownPidTid), 0, tid, old(uuidCounter))
          + [BeginSlice(start, startTime, postVisit.trackUuid)]
    {
      ghost var first := if packetCount == 0 then [FirstSnapshot(start.startTime)] else [];
      if packetCount == 0 {
        OnFirstRecord(start);
      }
      assert packets == old(packets) + first;
      ghost var known1 := knownPidTid;
      ghost var counter1 := uuidCounter;
      var uuid := WorkerTrack();
      ghost var tid := ThreadIdFor(old(bopThreadToId), "");
      assert packets == old(packets) + first + TrackPackets(known1, 0, tid, counter1);
      assert Known(knownPidTid, 0, tid) && knownPidTid[0][tid] == uuid;
      WriteSlice(BeginSlice(start, startTime, uuid));
      postVisit := EndCallback(uuid);
    }

    /** Invoking the callback of `visit`: the slice end, on the track the slice began on. */
    method FinishSlice(postVisit: EndCallback, start: BuildOperationStart, finish: BuildOperationFinish)
      requires Valid() && Declared(postVisit.trackUuid)
      modifies this
      ensures Valid()
      ensures packets == old(packets) + [EndSlice(finish, startTime, postVisit.trackUuid)]
      ensures packetCount == old(packetCount) + 1
      ensures uuidCounter == old(uuidCounter) && knownPidTid == old(knownPidTid)
      ensures startTime == old(startTime) && bopThreadToId == old(bopThreadToId)
    {
      WriteSlice(EndSlice(finish, startTime, postVisit.trackUuid));
    }
  }
}
