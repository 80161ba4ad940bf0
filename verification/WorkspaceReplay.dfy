/** Rebuilding the workspace overview from the event log. */
module WorkspaceReplay {
  import opened Selections
  import opened Text

  datatype TaskStatus = Ready | Active | Blocked | Waiting | Done

  /** The kinds that name a task state, and any other kind string. */
  datatype Kind =
    | TaskCreated | TaskClaimed | TaskBlocked | TaskUnblocked | TaskWaiting | TaskResumed | TaskCompleted | TaskReleased
    | OtherKind(name: string)

  /** `laneId` and `title` are the event's data fields when they are strings. */
  datatype Event = Event(kind: Kind, timestamp: string, taskId: string, laneId: Option<string>, title: Option<string>)

  datatype TaskSummary = TaskSummary(
    taskId: string, status: TaskStatus, laneId: string, title: string, lastEventTimestamp: string)

  const UNKNOWN_LANE := "unknown"
  const STATUS_ORDER := [Ready, Active, Blocked, Waiting, Done]

  /** EVENT_KIND_TO_STATE */
  function StateFor(kind: Kind): Option<TaskStatus> {
    match kind
    case TaskCreated => Some(Ready)
    case TaskClaimed => Some(Active)
    case TaskBlocked => Some(Blocked)
    case TaskUnblocked => Some(Active)
    case TaskWaiting => Some(Waiting)
    case TaskResumed => Some(Active)
    case TaskCompleted => Some(Done)
    case TaskReleased => Some(Ready)
    case OtherKind(_) => None
  }

  function ExtractLaneId(e: Event): string {
    if e.laneId.GetOr("") != "" then e.laneId.value else UNKNOWN_LANE
  }

  function ExtractTitle(e: Event): string {
    if e.title.GetOr("") != "" then e.title.value else e.taskId
  }

  // ---------------------------------------------------------------------------------------------
  // The specification: each task by its own events alone
  // ---------------------------------------------------------------------------------------------

  /** The events of one task, in log order. */
  function Own(events: seq<Event>, taskId: string): seq<Event> {
    if events == [] then []
    else
      var e := events[|events| - 1];
      Own(events[..|events| - 1], taskId) + if e.taskId == taskId then [e] else []
  }

  /** The state named by the last event whose kind names one. */
  function StatusOf(events: seq<Event>): TaskStatus {
    if events == [] then Ready
    else
      var e := events[|events| - 1];
      StateFor(e.kind).GetOr(StatusOf(events[..|events| - 1]))
  }

  function LastCreated(events: seq<Event>): Option<Event> {
    if events == [] then None
    else if events[|events| - 1].kind == TaskCreated then Some(events[|events| - 1])
    else LastCreated(events[..|events| - 1])
  }

  function LaneOf(own: seq<Event>): string {
    var created := LastCreated(own);
    if created.Some? then ExtractLaneId(created.value) else UNKNOWN_LANE
  }

  function TitleOf(taskId: string, own: seq<Event>): string {
    var created := LastCreated(own);
    if created.Some? then ExtractTitle(created.value) else taskId
  }

  function SummaryOf(taskId: string, own: seq<Event>): TaskSummary {
    TaskSummary(taskId, StatusOf(own), LaneOf(own), TitleOf(taskId, own),
                if own == [] then "" else own[|own| - 1].timestamp)
  }

  /** The tasks in the order of their first events. */
  function FirstSeen(events: seq<Event>): seq<string> {
    if events == [] then []
    else
      var before, e := FirstSeen(events[..|events| - 1]), events[|events| - 1];
      if e.taskId in before then before else before + [e.taskId]
  }

  function SummariesOf(events: seq<Event>): (summaries: seq<TaskSummary>)
    ensures |summaries| == |FirstSeen(events)|
  {
    seq(|FirstSeen(events)|, i requires 0 <= i < |FirstSeen(events)| =>
      SummaryOf(FirstSeen(events)[i], Own(events, FirstSeen(events)[i])))
  }

  // ---------------------------------------------------------------------------------------------
  // The code: one pass over the log filling a map of accumulators
  // ---------------------------------------------------------------------------------------------

  datatype Accumulator = Accumulator(events: seq<Event>, laneId: string, title: string)

  method DeriveStatusFromEvents(events: seq<Event>) returns (state: TaskStatus)
    ensures state == StatusOf(events)
  {
    state := Ready;
    for i := 0 to |events|
      invariant state == StatusOf(events[..i])
    {
      assert events[..i + 1][..i] == events[..i];
      var next := StateFor(events[i].kind);
      if next.Some? {
        state := next.value;
      }
    }
    assert events[..|events|] == events;
  }

  /** An accumulator holds a task's own events with the lane and title of its last creation. */
  predicate Fits(a: Accumulator, id: string, own: seq<Event>) {
    && a.events == own && own != []
    && a.laneId == LaneOf(own) && a.title == TitleOf(id, own)
  }

  /** There is an accumulator for each task with events, and it fits them. */
  ghost predicate AllFit(acc: map<string, Accumulator>, events: seq<Event>) {
    && (forall id :: id in acc <==> Own(events, id) != [])
    && (forall id :: id in acc ==> Fits(acc[id], id, Own(events, id)))
  }

  /** What one event does to its task's accumulator. */
  function Accumulate(known: Option<Accumulator>, e: Event): Accumulator {
    match known
    case Some(a) =>
      if e.kind == TaskCreated then Accumulator(a.events + [e], ExtractLaneId(e), ExtractTitle(e))
      else a.(events := a.events + [e])
    case None =>
      if e.kind == TaskCreated then Accumulator([e], ExtractLaneId(e), ExtractTitle(e))
      else Accumulator([e], UNKNOWN_LANE, e.taskId)
  }

  lemma FitsOneMore(known: Option<Accumulator>, own: seq<Event>, e: Event)
    requires if known.Some? then Fits(known.value, e.taskId, own) else own == []
    ensures Fits(Accumulate(known, e), e.taskId, own + [e])
  {
    assert (own + [e])[..|own|] == own;
    if known.None? {
      assert own + [e] == [e];
      assert LastCreated([]) == None;
    }
  }

  function Lookup(acc: map<string, Accumulator>, id: string): Option<Accumulator> {
    if id in acc then Some(acc[id]) else None
  }

  lemma OwnOneMore(events: seq<Event>, e: Event, id: string)
    ensures Own(events + [e], id) == Own(events, id) + if e.taskId == id then [e] else []
  {
    assert (events + [e])[..|events|] == events;
  }

  lemma FirstSeenOneMore(events: seq<Event>, e: Event)
    ensures FirstSeen(events + [e]) ==
            if Own(events, e.taskId) != [] then FirstSeen(events) else FirstSeen(events) + [e.taskId]
  {
    assert (events + [e])[..|events|] == events;
    SeenHasEvents(events, e.taskId);
  }

  lemma {:induction false} SeenHasEvents(events: seq<Event>, id: string)
    ensures id in FirstSeen(events) <==> Own(events, id) != []
  {
    if events != [] {
      SeenHasEvents(events[..|events| - 1], id);
    }
  }

  lemma AccumulateOne(acc: map<string, Accumulator>, events: seq<Event>, e: Event)
    requires AllFit(acc, events)
    ensures AllFit(acc[e.taskId := Accumulate(Lookup(acc, e.taskId), e)], events + [e])
  {
    OwnOneMore(events, e, e.taskId);
    FitsOneMore(Lookup(acc, e.taskId), Own(events, e.taskId), e);
    var more := acc[e.taskId := Accumulate(Lookup(acc, e.taskId), e)];
    forall id ensures id in more <==> Own(events + [e], id) != [] {
      OwnOneMore(events, e, id);
    }
    forall id | id in more ensures Fits(more[id], id, Own(events + [e], id)) {
      OwnOneMore(events, e, id);
      if id != e.taskId {
        assert Own(events, id) + [] == Own(events, id);
      }
    }
  }

  method AccumulateEvent(order: seq<string>, acc: map<string, Accumulator>, e: Event)
    returns (order': seq<string>, acc': map<string, Accumulator>)
    ensures order' == if e.taskId in acc then order else order + [e.taskId]
    ensures acc' == acc[e.taskId := Accumulate(Lookup(acc, e.taskId), e)]
  {
    order' := order;
    var a;
    if e.taskId in acc {
      a := acc[e.taskId];
      a := a.(events := a.events + [e]);
      if e.kind == TaskCreated {
        a := a.(laneId := ExtractLaneId(e), title := ExtractTitle(e));
      }
    } else {
      var isCreated := e.kind == TaskCreated;
      a := Accumulator([e], if isCreated then ExtractLaneId(e) else UNKNOWN_LANE,
                       if isCreated then ExtractTitle(e) else e.taskId);
      order' := order + [e.taskId];
    }
    acc' := acc[e.taskId := a];
  }

  method AccumulateEvents(events: seq<Event>) returns (order: seq<string>, acc: map<string, Accumulator>)
    ensures order == FirstSeen(events) && AllFit(acc, events)
  {
    order, acc := [], map[];
    var i := 0;
    while i < |events|
      invariant 0 <= i <= |events|
      invariant order == FirstSeen(events[..i])
      invariant AllFit(acc, events[..i])
    {
      assert events[..i + 1] == events[..i] + [events[i]];
      FirstSeenOneMore(events[..i], events[i]);
      AccumulateOne(acc, events[..i], events[i]);
      order, acc := AccumulateEvent(order, acc, events[i]);
      i := i + 1;
    }
    assert events[..i] == events;
  }

  method Summarize(taskId: string, acc: map<string, Accumulator>, ghost events: seq<Event>) returns (s: TaskSummary)
    requires AllFit(acc, events) && Own(events, taskId) != []
    ensures s == SummaryOf(taskId, Own(events, taskId))
  {
    var a := acc[taskId];
    var status := DeriveStatusFromEvents(a.events);
    s := TaskSummary(taskId, status, a.laneId, a.title, a.events[|a.events| - 1].timestamp);
  }

  method SummarizeAll(order: seq<string>, acc: map<string, Accumulator>, ghost events: seq<Event>)
    returns (summaries: seq<TaskSummary>)
    requires AllFit(acc, events)
    requires forall k :: 0 <= k < |order| ==> Own(events, order[k]) != []
    ensures |summaries| == |order|
    ensures forall k :: 0 <= k < |order| ==> summaries[k] == SummaryOf(order[k], Own(events, order[k]))
  {
    summaries := [];
    for i := 0 to |order|
      invariant |summaries| == i
      invariant forall k :: 0 <= k < i ==> summaries[k] == SummaryOf(order[k], Own(events, order[k]))
    {
      var s := Summarize(order[i], acc, events);
      summaries := summaries + [s];
    }
  }

  method DeriveAllTaskSummaries(events: seq<Event>) returns (summaries: seq<TaskSummary>)
    ensures summaries == SummariesOf(events)
  {
    var order, acc := AccumulateEvents(events);
    forall k | 0 <= k < |order| ensures Own(events, order[k]) != [] {
      SeenHasEvents(events, order[k]);
    }
    summaries := SummarizeAll(order, acc, events);
  }

  // ---------------------------------------------------------------------------------------------
  // Events of different tasks commute
  // ---------------------------------------------------------------------------------------------

  predicate NoDuplicates(ids: seq<string>) {
    forall i, j :: 0 <= i < j < |ids| ==> ids[i] != ids[j]
  }

  lemma {:induction false} FirstSeenOnce(events: seq<Event>)
    ensures NoDuplicates(FirstSeen(events))
  {
    if events != [] {
      FirstSeenOnce(events[..|events| - 1]);
    }
  }

  /** Reordering events without reordering any one task's own changes at most the order of the summaries. */
  lemma ReorderingTasksIsHarmless(a: seq<Event>, b: seq<Event>)
    requires forall id :: Own(a, id) == Own(b, id)
    ensures |SummariesOf(a)| == |SummariesOf(b)|
    ensures forall s :: s in SummariesOf(a) <==> s in SummariesOf(b)
  {
    FirstSeenOnce(a);
    FirstSeenOnce(b);
    forall id ensures id in FirstSeen(a) <==> id in FirstSeen(b) {
      SeenHasEvents(a, id);
      SeenHasEvents(b, id);
    }
    SameSize(FirstSeen(a), FirstSeen(b));
    SameMembers(a, b);
    SameMembers(b, a);
  }

  lemma SummaryListed(events: seq<Event>, id: string)
    requires id in FirstSeen(events)
    ensures SummaryOf(id, Own(events, id)) in SummariesOf(events)
  {
    var j :| 0 <= j < |FirstSeen(events)| && FirstSeen(events)[j] == id;
    assert SummariesOf(events)[j] == SummaryOf(id, Own(events, id));
  }

  lemma ListedIsSummary(events: seq<Event>, s: TaskSummary)
    requires s in SummariesOf(events)
    ensures s.taskId in FirstSeen(events) && s == SummaryOf(s.taskId, Own(events, s.taskId))
  {
    var i :| 0 <= i < |SummariesOf(events)| && SummariesOf(events)[i] == s;
    assert FirstSeen(events)[i] in FirstSeen(events);
  }

  lemma SameMembers(a: seq<Event>, b: seq<Event>)
    requires forall id :: Own(a, id) == Own(b, id)
    requires forall id :: id in FirstSeen(a) ==> id in FirstSeen(b)
    ensures forall s :: s in SummariesOf(a) ==> s in SummariesOf(b)
  {
    forall s | s in SummariesOf(a) ensures s in SummariesOf(b) {
      ListedIsSummary(a, s);
      SummaryListed(b, s.taskId);
    }
  }

  lemma {:induction false} SameSize(a: seq<string>, b: seq<string>)
    requires NoDuplicates(a) && NoDuplicates(b)
    requires forall id :: id in a <==> id in b
    ensures |a| == |b|
  {
    SetSize(a);
    SetSize(b);
    assert (set id | id in a) == (set id | id in b);
  }

  lemma {:induction false} SetSize(a: seq<string>)
    requires NoDuplicates(a)
    ensures |set id | id in a| == |a|
  {
    if a != [] {
      var front, last := a[..|a| - 1], a[|a| - 1];
      SetSize(front);
      assert a == front + [last];
      assert (set id | id in a) == (set id | id in front) + {last};
    }
  }

  // ---------------------------------------------------------------------------------------------
  // Grouping and counting
  // ---------------------------------------------------------------------------------------------

  function WithStatus(tasks: seq<TaskSummary>, status: TaskStatus): seq<TaskSummary> {
    if tasks == [] then []
    else
      var t := tasks[|tasks| - 1];
      WithStatus(tasks[..|tasks| - 1], status) + if t.status == status then [t] else []
  }

  /** The tasks of each status, in the order of STATUS_ORDER; labels are left out. */
  method GroupTasksByStatus(tasks: seq<TaskSummary>) returns (groups: seq<(TaskStatus, seq<TaskSummary>)>)
    ensures |groups| == |STATUS_ORDER| == 5
    ensures groups[0].0 == Ready && groups[1].0 == Active && groups[2].0 == Blocked && groups[3].0 == Waiting
    ensures groups[4].0 == Done
    ensures forall k :: 0 <= k < |groups| ==> groups[k] == (STATUS_ORDER[k], WithStatus(tasks, STATUS_ORDER[k]))
  {
    var buckets: map<TaskStatus, seq<TaskSummary>> :=
      map[Ready := [], Active := [], Blocked := [], Waiting := [], Done := []];
    forall s: TaskStatus ensures s in buckets && buckets[s] == [] {
      match s { case Ready => case Active => case Blocked => case Waiting => case Done => }
    }
    for i := 0 to |tasks|
      invariant forall s :: s in buckets
      invariant forall s :: buckets[s] == WithStatus(tasks[..i], s)
    {
      assert tasks[..i + 1][..i] == tasks[..i];
      buckets := buckets[tasks[i].status := buckets[tasks[i].status] + [tasks[i]]];
    }
    assert tasks[..|tasks|] == tasks;
    groups := seq(|STATUS_ORDER|, k requires 0 <= k < |STATUS_ORDER| => (STATUS_ORDER[k], buckets[STATUS_ORDER[k]]));
  }

  /** Every task is in exactly one group. */
  lemma {:induction false} GroupsPartition(tasks: seq<TaskSummary>)
    ensures |WithStatus(tasks, Ready)| + |WithStatus(tasks, Active)| + |WithStatus(tasks, Blocked)|
            + |WithStatus(tasks, Waiting)| + |WithStatus(tasks, Done)| == |tasks|
    ensures forall s :: forall t :: t in WithStatus(tasks, s) <==> t in tasks && t.status == s
  {
    if tasks != [] {
      GroupsPartition(tasks[..|tasks| - 1]);
      assert tasks == tasks[..|tasks| - 1] + [tasks[|tasks| - 1]];
    }
  }

  datatype LaneWipEntry = LaneWipEntry(
    laneId: string, activeCount: nat, blockedCount: nat, waitingCount: nat, totalInProgress: nat)

  datatype Counts = Counts(active: nat, blocked: nat, waiting: nat)

  predicate InProgress(t: TaskSummary) {
    t.status == Active || t.status == Blocked || t.status == Waiting
  }

  function InLane(tasks: seq<TaskSummary>, lane: string): seq<TaskSummary> {
    if tasks == [] then []
    else
      var t := tasks[|tasks| - 1];
      InLane(tasks[..|tasks| - 1], lane) + if t.laneId == lane then [t] else []
  }

  /** The lanes that have work in progress, in the order it first shows. */
  function WipLanes(tasks: seq<TaskSummary>): seq<string> {
    if tasks == [] then []
    else
      var before, t := WipLanes(tasks[..|tasks| - 1]), tasks[|tasks| - 1];
      if !InProgress(t) || t.laneId in before then before else before + [t.laneId]
  }

  function LaneEntry(tasks: seq<TaskSummary>, lane: string): LaneWipEntry {
    var mine := InLane(tasks, lane);
    var a, b, w := |WithStatus(mine, Active)|, |WithStatus(mine, Blocked)|, |WithStatus(mine, Waiting)|;
    LaneWipEntry(lane, a, b, w, a + b + w)
  }

  lemma LaneOneMore(tasks: seq<TaskSummary>, t: TaskSummary, lane: string, s: TaskStatus)
    ensures |WithStatus(InLane(tasks + [t], lane), s)| ==
            |WithStatus(InLane(tasks, lane), s)| + if t.laneId == lane && t.status == s then 1 else 0
  {
    assert (tasks + [t])[..|tasks|] == tasks;
    var mine := InLane(tasks, lane);
    if t.laneId == lane {
      assert (mine + [t])[..|mine|] == mine;
    } else {
      assert mine + [] == mine;
    }
  }

  lemma {:induction false} NoWipOutside(tasks: seq<TaskSummary>, lane: string)
    requires lane !in WipLanes(tasks)
    ensures LaneEntry(tasks, lane) == LaneWipEntry(lane, 0, 0, 0, 0)
  {
    if tasks != [] {
      var before, t := tasks[..|tasks| - 1], tasks[|tasks| - 1];
      NoWipOutside(before, lane);
      assert tasks == before + [t];
      LaneOneMore(before, t, lane, Active);
      LaneOneMore(before, t, lane, Blocked);
      LaneOneMore(before, t, lane, Waiting);
    }
  }

  function CountsOf(tasks: seq<TaskSummary>, lane: string): Counts {
    var e := LaneEntry(tasks, lane);
    Counts(e.activeCount, e.blockedCount, e.waitingCount)
  }

  ghost predicate Counted(counts: map<string, Counts>, tasks: seq<TaskSummary>) {
    && (forall lane :: lane in counts <==> lane in WipLanes(tasks))
    && forall lane :: lane in counts ==> counts[lane] == CountsOf(tasks, lane)
  }

  function KnownCounts(counts: map<string, Counts>, lane: string): Counts {
    if lane in counts then counts[lane] else Counts(0, 0, 0)
  }

  function Bump(c: Counts, status: TaskStatus): Counts {
    match status
    case Active => c.(active := c.active + 1)
    case Blocked => c.(blocked := c.blocked + 1)
    case Waiting => c.(waiting := c.waiting + 1)
    case _ => c
  }

  lemma CountsOneMore(tasks: seq<TaskSummary>, t: TaskSummary, lane: string)
    ensures CountsOf(tasks + [t], lane) ==
            if t.laneId == lane then Bump(CountsOf(tasks, lane), t.status) else CountsOf(tasks, lane)
  {
    LaneOneMore(tasks, t, lane, Active);
    LaneOneMore(tasks, t, lane, Blocked);
    LaneOneMore(tasks, t, lane, Waiting);
  }

  lemma WipLanesOneMore(tasks: seq<TaskSummary>, t: TaskSummary)
    ensures WipLanes(tasks + [t]) ==
            if !InProgress(t) || t.laneId in WipLanes(tasks) then WipLanes(tasks) else WipLanes(tasks) + [t.laneId]
  {
    assert (tasks + [t])[..|tasks|] == tasks;
  }

  lemma CountOne(counts: map<string, Counts>, tasks: seq<TaskSummary>, t: TaskSummary)
    requires Counted(counts, tasks) && InProgress(t)
    ensures Counted(counts[t.laneId := Bump(KnownCounts(counts, t.laneId), t.status)], tasks + [t])
  {
    WipLanesOneMore(tasks, t);
    if t.laneId !in counts {
      NoWipOutside(tasks, t.laneId);
    }
    var more := counts[t.laneId := Bump(KnownCounts(counts, t.laneId), t.status)];
    forall lane | lane in more ensures more[lane] == CountsOf(tasks + [t], lane) {
      CountsOneMore(tasks, t, lane);
    }
  }

  lemma CountNone(counts: map<string, Counts>, tasks: seq<TaskSummary>, t: TaskSummary)
    requires Counted(counts, tasks) && !InProgress(t)
    ensures Counted(counts, tasks + [t])
  {
    WipLanesOneMore(tasks, t);
    forall lane | lane in counts ensures CountsOf(tasks + [t], lane) == CountsOf(tasks, lane) {
      CountsOneMore(tasks, t, lane);
    }
  }

  /** One task's turn in the loop. */
  method CountTask(order: seq<string>, counts: map<string, Counts>, t: TaskSummary, ghost tasks: seq<TaskSummary>)
    returns (order': seq<string>, counts': map<string, Counts>)
    requires order == WipLanes(tasks) && Counted(counts, tasks)
    ensures order' == WipLanes(tasks + [t]) && Counted(counts', tasks + [t])
  {
    order', counts' := order, counts;
    WipLanesOneMore(tasks, t);
    if !InProgress(t) {
      CountNone(counts, tasks, t);
      return;
    }
    var c := if t.laneId in counts then counts[t.laneId] else Counts(0, 0, 0);
    if t.status == Active {
      c := c.(active := c.active + 1);
    } else if t.status == Blocked {
      c := c.(blocked := c.blocked + 1);
    } else {
      c := c.(waiting := c.waiting + 1);
    }
    CountOne(counts, tasks, t);
    if t.laneId !in counts {
      order' := order + [t.laneId];
    }
    counts' := counts[t.laneId := c];
  }

  method ListEntries(order: seq<string>, counts: map<string, Counts>, ghost tasks: seq<TaskSummary>)
    returns (entries: seq<LaneWipEntry>)
    requires order == WipLanes(tasks) && Counted(counts, tasks)
    ensures |entries| == |order|
    ensures forall k :: 0 <= k < |entries| ==> entries[k] == LaneEntry(tasks, order[k])
  {
    entries := [];
    for i := 0 to |order|
      invariant |entries| == i
      invariant forall k :: 0 <= k < i ==> entries[k] == LaneEntry(tasks, order[k])
    {
      var c := counts[order[i]];
      entries := entries + [LaneWipEntry(order[i], c.active, c.blocked, c.waiting, c.active + c.blocked + c.waiting)];
    }
  }

  /** The entry counts these tasks by status, and those in progress altogether. */
  predicate CountsLane(e: LaneWipEntry, mine: seq<TaskSummary>) {
    && e.activeCount == |WithStatus(mine, Active)|
    && e.blockedCount == |WithStatus(mine, Blocked)|
    && e.waitingCount == |WithStatus(mine, Waiting)|
    && e.totalInProgress == e.activeCount + e.blockedCount + e.waitingCount
  }

  /** One entry per lane with work in progress, in the order it first shows. */
  method ComputeLaneWipCounts(tasks: seq<TaskSummary>) returns (entries: seq<LaneWipEntry>)
    ensures |entries| == |WipLanes(tasks)|
    ensures forall k :: 0 <= k < |entries| ==> entries[k] == LaneEntry(tasks, WipLanes(tasks)[k])
    ensures forall k :: 0 <= k < |entries| ==> CountsLane(entries[k], InLane(tasks, WipLanes(tasks)[k]))
  {
    var order: seq<string>, counts: map<string, Counts> := [], map[];
    for i := 0 to |tasks|
      invariant order == WipLanes(tasks[..i]) && Counted(counts, tasks[..i])
    {
      assert tasks[..i + 1] == tasks[..i] + [tasks[i]];
      order, counts := CountTask(order, counts, tasks[i], tasks[..i]);
    }
    assert tasks[..|tasks|] == tasks;
    entries := ListEntries(order, counts, tasks);
  }

  function LaneTotal(tasks: seq<TaskSummary>, lanes: seq<string>): nat {
    if lanes == [] then 0
    else LaneTotal(tasks, lanes[..|lanes| - 1]) + LaneEntry(tasks, lanes[|lanes| - 1]).totalInProgress
  }

  lemma {:induction false} TotalOneMore(tasks: seq<TaskSummary>, t: TaskSummary, lanes: seq<string>)
    requires NoDuplicates(lanes)
    ensures LaneTotal(tasks + [t], lanes) ==
            LaneTotal(tasks, lanes) + if InProgress(t) && t.laneId in lanes then 1 else 0
  {
    if lanes != [] {
      var front, lane := lanes[..|lanes| - 1], lanes[|lanes| - 1];
      assert lanes == front + [lane];
      TotalOneMore(tasks, t, front);
      LaneOneMore(tasks, t, lane, Active);
      LaneOneMore(tasks, t, lane, Blocked);
      LaneOneMore(tasks, t, lane, Waiting);
    }
  }

  lemma NewLaneTotal(tasks: seq<TaskSummary>, t: TaskSummary)
    requires InProgress(t) && t.laneId !in WipLanes(tasks)
    ensures LaneEntry(tasks + [t], t.laneId).totalInProgress == 1
  {
    NoWipOutside(tasks, t.laneId);
    LaneOneMore(tasks, t, t.laneId, Active);
    LaneOneMore(tasks, t, t.laneId, Blocked);
    LaneOneMore(tasks, t, t.laneId, Waiting);
  }

  lemma TotalOfOneMoreLane(tasks: seq<TaskSummary>, lanes: seq<string>, lane: string)
    ensures LaneTotal(tasks, lanes + [lane]) == LaneTotal(tasks, lanes) + LaneEntry(tasks, lane).totalInProgress
  {
    assert (lanes + [lane])[..|lanes|] == lanes;
  }

  function WipCount(tasks: seq<TaskSummary>): nat {
    |WithStatus(tasks, Active)| + |WithStatus(tasks, Blocked)| + |WithStatus(tasks, Waiting)|
  }

  lemma WipCountOneMore(tasks: seq<TaskSummary>, t: TaskSummary)
    ensures WipCount(tasks + [t]) == WipCount(tasks) + if InProgress(t) then 1 else 0
  {
    assert (tasks + [t])[..|tasks|] == tasks;
  }

  /** The lanes' totals add up to the tasks that are active, blocked or waiting. */
  lemma {:induction false} LaneTotalsAddUp(tasks: seq<TaskSummary>)
    ensures NoDuplicates(WipLanes(tasks))
    ensures LaneTotal(tasks, WipLanes(tasks)) == WipCount(tasks)
  {
    if tasks != [] {
      var before, t := tasks[..|tasks| - 1], tasks[|tasks| - 1];
      assert tasks == before + [t];
      LaneTotalsAddUp(before);
      WipLanesOneMore(before, t);
      WipCountOneMore(before, t);
      TotalOneMore(before, t, WipLanes(before));
      if InProgress(t) && t.laneId !in WipLanes(before) {
        NewLaneTotal(before, t);
        TotalOfOneMoreLane(tasks, WipLanes(before), t.laneId);
      }
    }
  }

  datatype Overview = Overview(
    tasks: seq<TaskSummary>, groups: seq<(TaskStatus, seq<TaskSummary>)>, lanes: seq<LaneWipEntry>,
    totalCount: nat, statusCounts: map<TaskStatus, nat>)

  method CountStatuses(tasks: seq<TaskSummary>) returns (counts: map<TaskStatus, nat>)
    ensures forall s :: s in counts && counts[s] == |WithStatus(tasks, s)|
  {
    counts := map[Ready := 0, Active := 0, Blocked := 0, Waiting := 0, Done := 0];
    forall s: TaskStatus ensures s in counts && counts[s] == 0 {
      match s { case Ready => case Active => case Blocked => case Waiting => case Done => }
    }
    for i := 0 to |tasks|
      invariant forall s :: s in counts && counts[s] == |WithStatus(tasks[..i], s)|
    {
      assert tasks[..i + 1][..i] == tasks[..i];
      counts := counts[tasks[i].status := counts[tasks[i].status] + 1];
    }
    assert tasks[..|tasks|] == tasks;
  }

  /** The overview's parts agree: counts are group sizes, and they add up to the total. */
  method BuildWorkspaceOverview(events: seq<Event>) returns (o: Overview)
    ensures o.tasks == SummariesOf(events) && o.totalCount == |o.tasks|
    ensures |o.groups| == |STATUS_ORDER| == 5
    ensures o.groups[0].0 == Ready && o.groups[1].0 == Active && o.groups[2].0 == Blocked
    ensures o.groups[3].0 == Waiting && o.groups[4].0 == Done
    ensures forall k :: 0 <= k < |o.groups| ==>
              && o.groups[k] == (STATUS_ORDER[k], WithStatus(o.tasks, STATUS_ORDER[k]))
              && STATUS_ORDER[k] in o.statusCounts && o.statusCounts[STATUS_ORDER[k]] == |o.groups[k].1|
    ensures |o.groups[0].1| + |o.groups[1].1| + |o.groups[2].1| + |o.groups[3].1| + |o.groups[4].1| == o.totalCount
    ensures |o.lanes| == |WipLanes(o.tasks)|
    ensures forall k :: 0 <= k < |o.lanes| ==> o.lanes[k] == LaneEntry(o.tasks, WipLanes(o.tasks)[k])
  {
    var tasks := DeriveAllTaskSummaries(events);
    var groups := GroupTasksByStatus(tasks);
    var lanes := ComputeLaneWipCounts(tasks);
    var counts := CountStatuses(tasks);
    GroupsPartition(tasks);
    o := Overview(tasks, groups, lanes, |tasks|, counts);
  }

  // ---------------------------------------------------------------------------------------------
  // What the parts of an overview mean
  // ---------------------------------------------------------------------------------------------

  /** Past `k` no event has a kind that names a state. */
  predicate NamesNoStateAfter(events: seq<Event>, k: int) {
    forall j :: k < j < |events| && 0 <= j ==> events[j].kind.OtherKind?
  }

  /** The status a kind names, as the dashboard has it. */
  predicate Names(kind: Kind, status: TaskStatus) {
    match status
    case Ready => kind.TaskCreated? || kind.TaskReleased?
    case Active => kind.TaskClaimed? || kind.TaskUnblocked? || kind.TaskResumed?
    case Blocked => kind.TaskBlocked?
    case Waiting => kind.TaskWaiting?
    case Done => kind.TaskCompleted?
  }

  /** A task's status is the one named by its last event that names one, and ready without such an event. */
  lemma {:induction false} StatusMeans(events: seq<Event>)
    ensures NamesNoStateAfter(events, -1) ==> StatusOf(events) == Ready
    ensures forall k :: 0 <= k < |events| && NamesNoStateAfter(events, k) && !events[k].kind.OtherKind? ==>
              Names(events[k].kind, StatusOf(events))
  {
    if events != [] {
      var n := |events| - 1;
      StatusMeans(events[..n]);
      forall k | 0 <= k < |events| && NamesNoStateAfter(events, k) && !events[k].kind.OtherKind?
        ensures Names(events[k].kind, StatusOf(events))
      {
        if k < n {
          StatusPasses(events, k);
        }
      }
      if NamesNoStateAfter(events, -1) {
        assert NamesNoStateAfter(events[..n], -1);
      }
    }
  }

  lemma StatusPasses(events: seq<Event>, k: nat)
    requires k < |events| - 1 && NamesNoStateAfter(events, k)
    ensures NamesNoStateAfter(events[..|events| - 1], k) && events[..|events| - 1][k] == events[k]
    ensures StatusOf(events) == StatusOf(events[..|events| - 1])
  {
    assert events[|events| - 1].kind.OtherKind?;
  }

  /** The event at `k` is the last creation. */
  predicate IsLastCreated(own: seq<Event>, k: nat) {
    k < |own| && own[k].kind.TaskCreated? && forall j :: k < j < |own| ==> !own[j].kind.TaskCreated?
  }

  lemma {:induction false} LastCreatedMeans(own: seq<Event>, k: nat)
    requires IsLastCreated(own, k)
    ensures LastCreated(own) == Some(own[k])
  {
    var n := |own| - 1;
    if k < n {
      assert !own[n].kind.TaskCreated? && own[..n][k] == own[k];
      LastCreatedMeans(own[..n], k);
    }
  }

  lemma {:induction false} NeverCreatedMeans(own: seq<Event>)
    requires forall j :: 0 <= j < |own| ==> !own[j].kind.TaskCreated?
    ensures LastCreated(own) == None
  {
    if own != [] {
      NeverCreatedMeans(own[..|own| - 1]);
    }
  }

  /** A summary's lane and title are those of the task's last creation, if it has them. */
  lemma SummaryMeans(taskId: string, own: seq<Event>, k: nat)
    requires IsLastCreated(own, k)
    ensures var s := SummaryOf(taskId, own);
            && s.taskId == taskId && s.status == StatusOf(own)
            && s.laneId == (if own[k].laneId.Some? && own[k].laneId.value != "" then own[k].laneId.value else "unknown")
            && s.title == (if own[k].title.Some? && own[k].title.value != "" then own[k].title.value
                           else own[k].taskId)
            && s.lastEventTimestamp == own[|own| - 1].timestamp
  {
    LastCreatedMeans(own, k);
  }

  lemma SummaryOfUncreated(taskId: string, own: seq<Event>)
    requires own != [] && forall j :: 0 <= j < |own| ==> !own[j].kind.TaskCreated?
    ensures SummaryOf(taskId, own) ==
            TaskSummary(taskId, StatusOf(own), "unknown", taskId, own[|own| - 1].timestamp)
  {
    NeverCreatedMeans(own);
  }

  function HasTask(taskId: string): Event -> bool {
    (e: Event) => e.taskId == taskId
  }

  function HasStatus(status: TaskStatus): TaskSummary -> bool {
    (t: TaskSummary) => t.status == status
  }

  function HasLane(lane: string): TaskSummary -> bool {
    (t: TaskSummary) => t.laneId == lane
  }

  lemma {:induction false} OwnIsSelected(events: seq<Event>, taskId: string)
    ensures Own(events, taskId) == Selected(events, HasTask(taskId))
  {
    if events != [] {
      OwnIsSelected(events[..|events| - 1], taskId);
      SelectedOneMore(events, HasTask(taskId));
    }
  }

  /** A task's own events are those of the log with its id, in log order. */
  lemma OwnSelects(events: seq<Event>, taskId: string)
    ensures IsSelection(events, Own(events, taskId), HasTask(taskId))
  {
    OwnIsSelected(events, taskId);
    SelectedIsSelection(events, HasTask(taskId));
  }

  lemma {:induction false} GroupsAreSelected(tasks: seq<TaskSummary>, status: TaskStatus, lane: string)
    ensures WithStatus(tasks, status) == Selected(tasks, HasStatus(status))
    ensures InLane(tasks, lane) == Selected(tasks, HasLane(lane))
  {
    if tasks != [] {
      GroupsAreSelected(tasks[..|tasks| - 1], status, lane);
      SelectedOneMore(tasks, HasStatus(status));
      SelectedOneMore(tasks, HasLane(lane));
    }
  }

  /** A group is the tasks of its status, in their order; likewise a lane. */
  lemma GroupsSelect(tasks: seq<TaskSummary>, status: TaskStatus, lane: string)
    ensures IsSelection(tasks, WithStatus(tasks, status), HasStatus(status))
    ensures IsSelection(tasks, InLane(tasks, lane), HasLane(lane))
  {
    GroupsAreSelected(tasks, status, lane);
    SelectedIsSelection(tasks, HasStatus(status));
    SelectedIsSelection(tasks, HasLane(lane));
  }

  /** Which places hold a key that has not come before. */
  function NewKeys(keys: seq<Option<string>>): (flags: seq<bool>)
    ensures |flags| == |keys|
  {
    seq(|keys|, k requires 0 <= k < |keys| => keys[k].Some? && keys[k] !in keys[..k])
  }

  function Unique(keys: seq<Option<string>>): seq<string> {
    if keys == [] then []
    else
      var n := |keys| - 1;
      Unique(keys[..n]) + if keys[n].Some? && keys[n] !in keys[..n] then [keys[n].value] else []
  }

  lemma {:induction false} UniqueMeans(keys: seq<Option<string>>, id: string)
    ensures id in Unique(keys) <==> Some(id) in keys
  {
    if keys != [] {
      var n := |keys| - 1;
      UniqueMeans(keys[..n], id);
      assert keys == keys[..n] + [keys[n]];
    }
  }

  /** The keys at the places where they first come. */
  predicate FirstKeys(keys: seq<Option<string>>, at: seq<nat>, found: seq<string>) {
    && PlacesAt(NewKeys(keys), at) && |found| == |at|
    && forall i :: 0 <= i < |at| ==> at[i] < |keys| && keys[at[i]] == Some(found[i])
  }

  lemma NewKeysOneMore(keys: seq<Option<string>>)
    requires keys != []
    ensures NewKeys(keys)[..|keys| - 1] == NewKeys(keys[..|keys| - 1])
  {
    var n := |keys| - 1;
    forall k | 0 <= k < n ensures NewKeys(keys)[k] == NewKeys(keys[..n])[k] {
      assert keys[..n][..k] == keys[..k];
    }
  }

  lemma {:induction false} UniqueAreFirst(keys: seq<Option<string>>) returns (at: seq<nat>)
    ensures FirstKeys(keys, at, Unique(keys))
  {
    at := [];
    if keys != [] {
      var n := |keys| - 1;
      at := UniqueAreFirst(keys[..n]);
      NewKeysOneMore(keys);
      OneMorePlace(NewKeys(keys), at);
      at := if NewKeys(keys)[n] then at + [n] else at;
    }
  }

  function TaskIds(events: seq<Event>): (keys: seq<Option<string>>)
    ensures |keys| == |events|
  {
    seq(|events|, k requires 0 <= k < |events| => Some(events[k].taskId))
  }

  function LanesInProgress(tasks: seq<TaskSummary>): (keys: seq<Option<string>>)
    ensures |keys| == |tasks|
  {
    seq(|tasks|, k requires 0 <= k < |tasks| =>
      if tasks[k].status.Active? || tasks[k].status.Blocked? || tasks[k].status.Waiting?
      then Some(tasks[k].laneId) else None)
  }

  lemma {:induction false} FirstSeenAreUnique(events: seq<Event>)
    ensures FirstSeen(events) == Unique(TaskIds(events))
  {
    if events != [] {
      var n := |events| - 1;
      FirstSeenAreUnique(events[..n]);
      assert TaskIds(events)[..n] == TaskIds(events[..n]);
      UniqueMeans(TaskIds(events[..n]), events[n].taskId);
    }
  }

  lemma {:induction false} WipLanesAreUnique(tasks: seq<TaskSummary>)
    ensures WipLanes(tasks) == Unique(LanesInProgress(tasks))
  {
    if tasks != [] {
      var n := |tasks| - 1;
      WipLanesAreUnique(tasks[..n]);
      assert LanesInProgress(tasks)[..n] == LanesInProgress(tasks[..n]);
      UniqueMeans(LanesInProgress(tasks[..n]), tasks[n].laneId);
    }
  }

  /** Tasks are listed by their first events, and lanes by their first tasks in progress. */
  lemma ListedByFirst(events: seq<Event>, tasks: seq<TaskSummary>) returns (firsts: seq<nat>, lanes: seq<nat>)
    ensures FirstKeys(TaskIds(events), firsts, FirstSeen(events))
    ensures FirstKeys(LanesInProgress(tasks), lanes, WipLanes(tasks))
  {
    firsts := UniqueAreFirst(TaskIds(events));
    FirstSeenAreUnique(events);
    lanes := UniqueAreFirst(LanesInProgress(tasks));
    WipLanesAreUnique(tasks);
  }
}
