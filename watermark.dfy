/**
 The per-task watermark filter of app.rb's main loop (lines 58-135), as
 functions of the watermark table and the decoded records. The loops that
 compute them are in filter_loop.dfy.
 */
module Watermark {
  import opened Options
  import opened Events

  /** What the loop closes over: the log index read at start-up, the start-up time, and the type lists. */
  datatype Config = Config(lastIndex: int, startedAt: int, allowlist: seq<string>, denylist: seq<string>)

  /** `task_metadata`: the `:last_event_timestamp` of every task key that has one. */
  type Table = map<string, int>

  /** A table together with the notifications sent while producing it, in order. */
  datatype Outcome = Outcome(table: Table, sent: seq<Notification>)

  /** `s` holds `pattern` somewhere (a regular-expression match on a literal pattern). */
  predicate Contains(s: string, pattern: string)
    decreases |s|
  {
    |pattern| <= |s| && (s[..|pattern|] == pattern || Contains(s[1..], pattern))
  }

  /** `s` holds a copy of `pattern` starting at offset `i`. */
  predicate At(s: string, pattern: string, i: int)
  {
    0 <= i && i + |pattern| <= |s| && s[i..i + |pattern|] == pattern
  }

  /** A copy at offset 0 is a matching prefix. */
  lemma AtStart(s: string, pattern: string)
    ensures At(s, pattern, 0) <==> |pattern| <= |s| && s[..|pattern|] == pattern
  {
    if |pattern| <= |s| {
      assert s[0..|pattern|] == s[..|pattern|];
    }
  }

  /** A copy at offset `i` of the tail is a copy at offset `i + 1` of `s`. */
  lemma AtTail(s: string, pattern: string, i: int)
    requires |s| > 0 && 0 <= i
    ensures At(s[1..], pattern, i) <==> At(s, pattern, i + 1)
  {
    if i + |pattern| <= |s| - 1 {
      assert s[1..][i..i + |pattern|] == s[i + 1..i + 1 + |pattern|];
    }
  }

  /** `Contains` is substring search: it holds exactly when some offset of `s` starts a copy of `pattern`. */
  lemma {:induction false} ContainsAt(s: string, pattern: string)
    ensures Contains(s, pattern) <==> exists i :: At(s, pattern, i)
    decreases |s|
  {
    AtStart(s, pattern);
    if |pattern| <= |s| && s[..|pattern|] != pattern {
      ContainsAt(s[1..], pattern);
      if exists i :: At(s[1..], pattern, i) {
        var i :| At(s[1..], pattern, i);
        AtTail(s, pattern, i);
      }
      if exists i :: At(s, pattern, i) {
        var i :| At(s, pattern, i);
        AtTail(s, pattern, i - 1);
      }
    }
  }

  /** `task_id.match(/connect-proxy/)`. */
  predicate IsConnectProxy(taskId: string)
  {
    Contains(taskId, "connect-proxy")
  }

  /** `"#{job_id}.#{task_id}"`. */
  function TaskIdentifier(jobId: string, taskId: string): string
  {
    jobId + "." + taskId
  }

  /** The event type is not denylisted, and the allowlist is empty or lists it. */
  predicate Passes(cfg: Config, e: TaskEvent)
  {
    e.eventType !in cfg.denylist && (|cfg.allowlist| == 0 || e.eventType in cfg.allowlist)
  }

  /** `task_metadata[key][:last_event_timestamp] || started_at`. */
  function LastHandledAt(cfg: Config, table: Table, key: string): int
  {
    if key in table then table[key] else cfg.startedAt
  }

  function Notify(key: string, e: TaskEvent): Notification
  {
    Notification(key, e.eventType, e.displayMessage, e.time, e.details)
  }

  /** What the loop over one task's events leaves: the notifications and `most_recent_event_timestamp`. */
  datatype TaskScan = TaskScan(sent: seq<Notification>, mostRecent: Option<int>)

  /**
   The loop over a task's events (app.rb:94-125): an event whose type fails
   the lists is skipped before anything else; a passing event raises
   `mostRecent`, and is sent when its time is after `lastHandledAt`.
   */
  function ScanTaskEvents(cfg: Config, key: string, lastHandledAt: int, events: seq<TaskEvent>): (r: TaskScan)
    ensures forall i :: 0 <= i < |r.sent| ==> r.sent[i].taskIdentifier == key && r.sent[i].time > lastHandledAt
    ensures r.sent != [] ==> r.mostRecent.Some? && r.mostRecent.value > lastHandledAt
  {
    if events == [] then TaskScan([], None)
    else
      var s := ScanTaskEvents(cfg, key, lastHandledAt, events[..|events| - 1]);
      var e := events[|events| - 1];
      if !Passes(cfg, e) then s
      else
        var mostRecent := if s.mostRecent.None? || e.time > s.mostRecent.value then Some(e.time) else s.mostRecent;
        TaskScan(if e.time <= lastHandledAt then s.sent else s.sent + [Notify(key, e)], mostRecent)
  }

  /**
   One `task_id => task_state` pair (app.rb:83-135): a connect-proxy task is
   ignored; otherwise its events are scanned against its watermark,
   and the watermark is raised to the scan's maximum when that is later.
   */
  function FilterTask(cfg: Config, table: Table, jobId: string, entry: TaskEntry): (r: Outcome)
    ensures IsConnectProxy(entry.taskId) ==> r == Outcome(table, [])
    ensures var key := TaskIdentifier(jobId, entry.taskId);
      || r.table == table
      || (key in r.table && r.table == table[key := r.table[key]] && r.table[key] > LastHandledAt(cfg, table, key))
    ensures var key := TaskIdentifier(jobId, entry.taskId);
      r.sent != [] ==> key in r.table && r.table[key] > LastHandledAt(cfg, table, key)
  {
    if IsConnectProxy(entry.taskId) then Outcome(table, [])
    else
      var key := TaskIdentifier(jobId, entry.taskId);
      var lastHandledAt := LastHandledAt(cfg, table, key);
      var s := ScanTaskEvents(cfg, key, lastHandledAt, entry.state.events);
      if s.mostRecent.Some? && s.mostRecent.value > lastHandledAt then Outcome(table[key := s.mostRecent.value], s.sent)
      else Outcome(table, s.sent)
  }

  /** An allocation's task states, in order, each seeing the table the previous one left. */
  function FilterTasks(cfg: Config, table: Table, jobId: string, entries: seq<TaskEntry>): Outcome
  {
    if entries == [] then Outcome(table, [])
    else
      var a := FilterTasks(cfg, table, jobId, entries[..|entries| - 1]);
      var b := FilterTask(cfg, a.table, jobId, entries[|entries| - 1]);
      Outcome(b.table, a.sent + b.sent)
  }

  /** One event envelope (app.rb:66-81): only `Allocation` events with `TaskStates` are acted on. */
  function FilterEvent(cfg: Config, table: Table, event: Event): Outcome
  {
    if event.topic != "Allocation" then Outcome(table, [])
    else
      match event.allocation.taskStates
      case None => Outcome(table, [])
      case Some(entries) => FilterTasks(cfg, table, event.allocation.jobId, entries)
  }

  function FilterEvents(cfg: Config, table: Table, events: seq<Event>): Outcome
  {
    if events == [] then Outcome(table, [])
    else
      var a := FilterEvents(cfg, table, events[..|events| - 1]);
      var b := FilterEvent(cfg, a.table, events[|events| - 1]);
      Outcome(b.table, a.sent + b.sent)
  }

  /** A heartbeat, or a record at or below the start-up log index (app.rb:59-64). */
  predicate Skipped(cfg: Config, record: Record)
  {
    record.Heartbeat? || cfg.lastIndex >= record.index
  }

  /** One decoded record (app.rb:58-143). */
  function FilterRecord(cfg: Config, table: Table, record: Record): Outcome
  {
    if Skipped(cfg, record) then Outcome(table, [])
    else FilterEvents(cfg, table, record.events)
  }

  /** The records of one chunk, in order. */
  function FilterRecords(cfg: Config, table: Table, records: seq<Record>): Outcome
  {
    if records == [] then Outcome(table, [])
    else
      var a := FilterRecords(cfg, table, records[..|records| - 1]);
      var b := FilterRecord(cfg, a.table, records[|records| - 1]);
      Outcome(b.table, a.sent + b.sent)
  }

  // ---------------------------------------------------------------------
  // One task's events

  /**
   `mostRecent` is set exactly when some event passes the lists, and is then
   the largest time among the passing events; failing events never count.
   */
  lemma {:induction false} MostRecentIsMaxPassing(cfg: Config, key: string, w: int, events: seq<TaskEvent>)
    ensures var m := ScanTaskEvents(cfg, key, w, events).mostRecent;
      && (m.Some? <==> exists i :: 0 <= i < |events| && Passes(cfg, events[i]))
      && (m.Some? ==> forall i :: 0 <= i < |events| && Passes(cfg, events[i]) ==> events[i].time <= m.value)
      && (m.Some? ==> exists i :: 0 <= i < |events| && Passes(cfg, events[i]) && events[i].time == m.value)
  {
    if events != [] {
      var n := |events|;
      var init := events[..n - 1];
      MostRecentIsMaxPassing(cfg, key, w, init);
      assert forall i :: 0 <= i < n - 1 ==> init[i] == events[i];
    }
  }

  /**
   A notification is sent for an event exactly when the event passes the
   lists and is later than the watermark read before the loop.
   */
  lemma {:induction false} SentIffPassingAndLater(cfg: Config, key: string, w: int, events: seq<TaskEvent>, n: Notification)
    ensures n in ScanTaskEvents(cfg, key, w, events).sent <==>
      exists i :: 0 <= i < |events| && Passes(cfg, events[i]) && events[i].time > w && n == Notify(key, events[i])
  {
    if events != [] {
      var k := |events|;
      var init := events[..k - 1];
      SentIffPassingAndLater(cfg, key, w, init, n);
      assert forall i :: 0 <= i < k - 1 ==> init[i] == events[i];
    }
  }

  /** Events are visited in the order received: the notifications of `a + b` are those of `a`, then those of `b`. */
  lemma {:induction false} SentInOrder(cfg: Config, key: string, w: int, a: seq<TaskEvent>, b: seq<TaskEvent>)
    ensures ScanTaskEvents(cfg, key, w, a + b).sent == ScanTaskEvents(cfg, key, w, a).sent + ScanTaskEvents(cfg, key, w, b).sent
  {
    if b == [] {
      assert a + b == a;
    } else {
      var n := |b|;
      SentInOrder(cfg, key, w, a, b[..n - 1]);
      assert (a + b)[..|a + b| - 1] == a + b[..n - 1];
      assert (a + b)[|a + b| - 1] == b[n - 1];
    }
  }

  /** No more notifications than events. */
  lemma {:induction false} SentBounded(cfg: Config, key: string, w: int, events: seq<TaskEvent>)
    ensures |ScanTaskEvents(cfg, key, w, events).sent| <= |events|
  {
    if events != [] {
      SentBounded(cfg, key, w, events[..|events| - 1]);
    }
  }

  // ---------------------------------------------------------------------
  // One task state and the watermark table

  /**
   The watermark rule for one task. A connect-proxy task changes nothing and
   sends nothing. Otherwise the table changes at most at this task's key, and
   only to a value strictly above the watermark read before the loop; the new
   watermark is never lower, is at least every passing event's time, and is
   either unchanged or one of those times: it is the maximum of the old
   watermark and the passing times. Events that fail the lists never move it.
   */
  lemma FilterTaskWatermark(cfg: Config, t: Table, jobId: string, entry: TaskEntry)
    ensures IsConnectProxy(entry.taskId) ==> FilterTask(cfg, t, jobId, entry) == Outcome(t, [])
    ensures !IsConnectProxy(entry.taskId) ==>
      var t' := FilterTask(cfg, t, jobId, entry).table;
      var key := TaskIdentifier(jobId, entry.taskId);
      var w, w' := LastHandledAt(cfg, t, key), LastHandledAt(cfg, t', key);
      var events := entry.state.events;
      && (t' == t || (w' > w && t' == t[key := w']))
      && w' >= w
      && (forall i :: 0 <= i < |events| && Passes(cfg, events[i]) ==> events[i].time <= w')
      && (w' == w || exists i :: 0 <= i < |events| && Passes(cfg, events[i]) && events[i].time == w')
      && ((forall i :: 0 <= i < |events| ==> !Passes(cfg, events[i])) ==> t' == t)
  {
    if !IsConnectProxy(entry.taskId) {
      var key := TaskIdentifier(jobId, entry.taskId);
      MostRecentIsMaxPassing(cfg, key, LastHandledAt(cfg, t, key), entry.state.events);
    }
  }

  /** Every watermark is at least what it was, and no key is forgotten. */
  ghost predicate Advances(cfg: Config, t: Table, t': Table)
  {
    t.Keys <= t'.Keys && forall k :: LastHandledAt(cfg, t, k) <= LastHandledAt(cfg, t', k)
  }

  /** The two tables agree on every key outside `keys`. */
  ghost predicate Within(t: Table, t': Table, keys: set<string>)
  {
    forall k :: k !in keys ==> (k in t' <==> k in t) && (k in t ==> t'[k] == t[k])
  }

  /** Every notification is about one of `keys`. */
  ghost predicate SentFor(sent: seq<Notification>, keys: set<string>)
  {
    forall i :: 0 <= i < |sent| ==> sent[i].taskIdentifier in keys
  }

  /** Keys an allocation's task states touch: connect-proxy tasks have none. */
  function TaskKeys(jobId: string, entries: seq<TaskEntry>): set<string>
  {
    if entries == [] then {}
    else
      var last := entries[|entries| - 1];
      TaskKeys(jobId, entries[..|entries| - 1])
        + (if IsConnectProxy(last.taskId) then {} else {TaskIdentifier(jobId, last.taskId)})
  }

  function EventTaskKeys(event: Event): set<string>
  {
    if event.topic != "Allocation" || event.allocation.taskStates.None? then {}
    else TaskKeys(event.allocation.jobId, event.allocation.taskStates.value)
  }

  function EventsTaskKeys(events: seq<Event>): set<string>
  {
    if events == [] then {} else EventsTaskKeys(events[..|events| - 1]) + EventTaskKeys(events[|events| - 1])
  }

  function RecordTaskKeys(cfg: Config, record: Record): set<string>
  {
    if Skipped(cfg, record) then {} else EventsTaskKeys(record.events)
  }

  function RecordsTaskKeys(cfg: Config, records: seq<Record>): set<string>
  {
    if records == [] then {} else RecordsTaskKeys(cfg, records[..|records| - 1]) + RecordTaskKeys(cfg, records[|records| - 1])
  }

  lemma Compose(cfg: Config, t1: Table, t2: Table, t3: Table, k1: set<string>, k2: set<string>,
                s1: seq<Notification>, s2: seq<Notification>)
    requires Advances(cfg, t1, t2) && Within(t1, t2, k1) && SentFor(s1, k1)
    requires Advances(cfg, t2, t3) && Within(t2, t3, k2) && SentFor(s2, k2)
    ensures Advances(cfg, t1, t3) && Within(t1, t3, k1 + k2) && SentFor(s1 + s2, k1 + k2)
  {
    forall k ensures LastHandledAt(cfg, t1, k) <= LastHandledAt(cfg, t3, k) {
      assert LastHandledAt(cfg, t1, k) <= LastHandledAt(cfg, t2, k);
    }
  }

  lemma FilterTaskFrame(cfg: Config, t: Table, jobId: string, entry: TaskEntry)
    ensures var o := FilterTask(cfg, t, jobId, entry);
      var keys := TaskKeys(jobId, [entry]);
      Advances(cfg, t, o.table) && Within(t, o.table, keys) && SentFor(o.sent, keys)
  {
    assert [entry][..0] == [];
    FilterTaskWatermark(cfg, t, jobId, entry);
    if !IsConnectProxy(entry.taskId) {
      var key := TaskIdentifier(jobId, entry.taskId);
      var o := FilterTask(cfg, t, jobId, entry);
      forall i | 0 <= i < |o.sent| ensures o.sent[i].taskIdentifier == key {
        SentIffPassingAndLater(cfg, key, LastHandledAt(cfg, t, key), entry.state.events, o.sent[i]);
      }
    }
  }

  lemma {:induction false} FilterTasksFrame(cfg: Config, t: Table, jobId: string, entries: seq<TaskEntry>)
    ensures var o := FilterTasks(cfg, t, jobId, entries);
      Advances(cfg, t, o.table) && Within(t, o.table, TaskKeys(jobId, entries)) && SentFor(o.sent, TaskKeys(jobId, entries))
  {
    if entries != [] {
      var n := |entries|;
      var a := FilterTasks(cfg, t, jobId, entries[..n - 1]);
      FilterTasksFrame(cfg, t, jobId, entries[..n - 1]);
      FilterTaskFrame(cfg, a.table, jobId, entries[n - 1]);
      assert TaskKeys(jobId, entries) == TaskKeys(jobId, entries[..n - 1]) + TaskKeys(jobId, [entries[n - 1]]) by {
        assert [entries[n - 1]][..0] == [];
      }
      Compose(cfg, t, a.table, FilterTasks(cfg, t, jobId, entries).table,
              TaskKeys(jobId, entries[..n - 1]), TaskKeys(jobId, [entries[n - 1]]),
              a.sent, FilterTask(cfg, a.table, jobId, entries[n - 1]).sent);
    }
  }

  lemma {:induction false} FilterEventsFrame(cfg: Config, t: Table, events: seq<Event>)
    ensures var o := FilterEvents(cfg, t, events);
      Advances(cfg, t, o.table) && Within(t, o.table, EventsTaskKeys(events)) && SentFor(o.sent, EventsTaskKeys(events))
  {
    if events != [] {
      var n := |events|;
      var a := FilterEvents(cfg, t, events[..n - 1]);
      var e := events[n - 1];
      FilterEventsFrame(cfg, t, events[..n - 1]);
      if e.topic == "Allocation" && e.allocation.taskStates.Some? {
        FilterTasksFrame(cfg, a.table, e.allocation.jobId, e.allocation.taskStates.value);
      }
      Compose(cfg, t, a.table, FilterEvents(cfg, t, events).table,
              EventsTaskKeys(events[..n - 1]), EventTaskKeys(e),
              a.sent, FilterEvent(cfg, a.table, e).sent);
    }
  }

  /**
   Over a chunk's records: no watermark ever decreases and no key is dropped;
   the only entries that change are those of the non-proxy tasks of the
   records that are acted on, and every notification is about one of them.
   */
  lemma {:induction false} FilterRecordsFrame(cfg: Config, t: Table, records: seq<Record>)
    ensures var o := FilterRecords(cfg, t, records);
      && Advances(cfg, t, o.table)
      && Within(t, o.table, RecordsTaskKeys(cfg, records))
      && SentFor(o.sent, RecordsTaskKeys(cfg, records))
  {
    if records != [] {
      var n := |records|;
      var a := FilterRecords(cfg, t, records[..n - 1]);
      var r := records[n - 1];
      FilterRecordsFrame(cfg, t, records[..n - 1]);
      if !Skipped(cfg, r) {
        FilterEventsFrame(cfg, a.table, r.events);
      }
      Compose(cfg, t, a.table, FilterRecords(cfg, t, records).table,
              RecordsTaskKeys(cfg, records[..n - 1]), RecordTaskKeys(cfg, r),
              a.sent, FilterRecord(cfg, a.table, r).sent);
    }
  }

  // ---------------------------------------------------------------------
  // Replays are silent

  /** Every passing event of a task is at or below that task's watermark in `t`. */
  ghost predicate CoveredTask(cfg: Config, t: Table, jobId: string, entry: TaskEntry)
  {
    IsConnectProxy(entry.taskId) ||
    forall i :: 0 <= i < |entry.state.events| && Passes(cfg, entry.state.events[i]) ==>
      entry.state.events[i].time <= LastHandledAt(cfg, t, TaskIdentifier(jobId, entry.taskId))
  }

  ghost predicate CoveredTasks(cfg: Config, t: Table, jobId: string, entries: seq<TaskEntry>)
  {
    forall j :: 0 <= j < |entries| ==> CoveredTask(cfg, t, jobId, entries[j])
  }

  ghost predicate CoveredEvent(cfg: Config, t: Table, event: Event)
  {
    event.topic != "Allocation" || event.allocation.taskStates.None? ||
    CoveredTasks(cfg, t, event.allocation.jobId, event.allocation.taskStates.value)
  }

  ghost predicate CoveredRecord(cfg: Config, t: Table, record: Record)
  {
    Skipped(cfg, record) || forall i :: 0 <= i < |record.events| ==> CoveredEvent(cfg, t, record.events[i])
  }

  ghost predicate CoveredRecords(cfg: Config, t: Table, records: seq<Record>)
  {
    forall j :: 0 <= j < |records| ==> CoveredRecord(cfg, t, records[j])
  }

  /** Raising watermarks keeps the events of a record covered. */
  lemma CoveredEventsMono(cfg: Config, t: Table, t': Table, events: seq<Event>)
    requires forall i :: 0 <= i < |events| ==> CoveredEvent(cfg, t, events[i])
    requires Advances(cfg, t, t')
    ensures forall i :: 0 <= i < |events| ==> CoveredEvent(cfg, t', events[i])
  {
    forall i, k | 0 <= i < |events| && events[i].topic == "Allocation" && events[i].allocation.taskStates.Some?
                  && 0 <= k < |events[i].allocation.taskStates.value|
      ensures CoveredTask(cfg, t', events[i].allocation.jobId, events[i].allocation.taskStates.value[k])
    {
      assert CoveredEvent(cfg, t, events[i]);
      assert CoveredTask(cfg, t, events[i].allocation.jobId, events[i].allocation.taskStates.value[k]);
    }
  }

  /** Raising watermarks keeps records covered. */
  lemma CoveredRecordsMono(cfg: Config, t: Table, t': Table, records: seq<Record>)
    requires CoveredRecords(cfg, t, records) && Advances(cfg, t, t')
    ensures CoveredRecords(cfg, t', records)
  {
    forall j | 0 <= j < |records| && !Skipped(cfg, records[j])
      ensures forall i :: 0 <= i < |records[j].events| ==> CoveredEvent(cfg, t', records[j].events[i])
    {
      assert CoveredRecord(cfg, t, records[j]);
      CoveredEventsMono(cfg, t, t', records[j].events);
    }
  }

  /** A covered task sends nothing and writes nothing. */
  lemma CoveredTaskIdle(cfg: Config, t: Table, jobId: string, entry: TaskEntry)
    requires CoveredTask(cfg, t, jobId, entry)
    ensures FilterTask(cfg, t, jobId, entry) == Outcome(t, [])
  {
    if !IsConnectProxy(entry.taskId) {
      var key := TaskIdentifier(jobId, entry.taskId);
      var w := LastHandledAt(cfg, t, key);
      var s := ScanTaskEvents(cfg, key, w, entry.state.events);
      MostRecentIsMaxPassing(cfg, key, w, entry.state.events);
    }
  }

  lemma {:induction false} CoveredTasksIdle(cfg: Config, t: Table, jobId: string, entries: seq<TaskEntry>)
    requires CoveredTasks(cfg, t, jobId, entries)
    ensures FilterTasks(cfg, t, jobId, entries) == Outcome(t, [])
  {
    if entries != [] {
      var n := |entries|;
      CoveredTasksIdle(cfg, t, jobId, entries[..n - 1]);
      CoveredTaskIdle(cfg, t, jobId, entries[n - 1]);
    }
  }

  lemma {:induction false} CoveredEventsIdle(cfg: Config, t: Table, events: seq<Event>)
    requires forall i :: 0 <= i < |events| ==> CoveredEvent(cfg, t, events[i])
    ensures FilterEvents(cfg, t, events) == Outcome(t, [])
  {
    if events != [] {
      var n := |events|;
      var e := events[n - 1];
      CoveredEventsIdle(cfg, t, events[..n - 1]);
      assert CoveredEvent(cfg, t, e);
      if e.topic == "Allocation" && e.allocation.taskStates.Some? {
        CoveredTasksIdle(cfg, t, e.allocation.jobId, e.allocation.taskStates.value);
      }
    }
  }

  lemma {:induction false} CoveredRecordsIdle(cfg: Config, t: Table, records: seq<Record>)
    requires CoveredRecords(cfg, t, records)
    ensures FilterRecords(cfg, t, records) == Outcome(t, [])
  {
    if records != [] {
      var n := |records|;
      var r := records[n - 1];
      CoveredRecordsIdle(cfg, t, records[..n - 1]);
      assert CoveredRecord(cfg, t, r);
      if !Skipped(cfg, r) {
        CoveredEventsIdle(cfg, t, r.events);
      }
    }
  }

  /** After one task is filtered, that task is covered. */
  lemma FilterTaskCovers(cfg: Config, t: Table, jobId: string, entry: TaskEntry)
    ensures CoveredTask(cfg, FilterTask(cfg, t, jobId, entry).table, jobId, entry)
  {
    FilterTaskWatermark(cfg, t, jobId, entry);
  }

  lemma {:induction false} FilterTasksCovers(cfg: Config, t: Table, jobId: string, entries: seq<TaskEntry>)
    ensures CoveredTasks(cfg, FilterTasks(cfg, t, jobId, entries).table, jobId, entries)
  {
    if entries != [] {
      var n := |entries|;
      var a := FilterTasks(cfg, t, jobId, entries[..n - 1]);
      var t' := FilterTasks(cfg, t, jobId, entries).table;
      FilterTasksCovers(cfg, t, jobId, entries[..n - 1]);
      FilterTaskFrame(cfg, a.table, jobId, entries[n - 1]);
      FilterTaskCovers(cfg, a.table, jobId, entries[n - 1]);
      forall j | 0 <= j < n - 1 ensures CoveredTask(cfg, t', jobId, entries[j]) {
        assert CoveredTask(cfg, a.table, jobId, entries[..n - 1][j]);
      }
    }
  }

  lemma {:induction false} FilterEventsCovers(cfg: Config, t: Table, events: seq<Event>)
    ensures var t' := FilterEvents(cfg, t, events).table;
      forall i :: 0 <= i < |events| ==> CoveredEvent(cfg, t', events[i])
  {
    if events != [] {
      var n := |events|;
      var a := FilterEvents(cfg, t, events[..n - 1]);
      var e := events[n - 1];
      var t' := FilterEvents(cfg, t, events).table;
      FilterEventsCovers(cfg, t, events[..n - 1]);
      if e.topic == "Allocation" && e.allocation.taskStates.Some? {
        FilterTasksCovers(cfg, a.table, e.allocation.jobId, e.allocation.taskStates.value);
        FilterTasksFrame(cfg, a.table, e.allocation.jobId, e.allocation.taskStates.value);
      }
      CoveredEventsMono(cfg, a.table, t', events[..n - 1]);
      forall i | 0 <= i < n - 1 ensures CoveredEvent(cfg, t', events[i]) {
        assert CoveredEvent(cfg, t', events[..n - 1][i]);
      }
    }
  }

  lemma {:induction false} FilterRecordsCovers(cfg: Config, t: Table, records: seq<Record>)
    ensures CoveredRecords(cfg, FilterRecords(cfg, t, records).table, records)
  {
    if records != [] {
      var n := |records|;
      var a := FilterRecords(cfg, t, records[..n - 1]);
      var r := records[n - 1];
      var t' := FilterRecords(cfg, t, records).table;
      FilterRecordsCovers(cfg, t, records[..n - 1]);
      if !Skipped(cfg, r) {
        FilterEventsCovers(cfg, a.table, r.events);
        FilterEventsFrame(cfg, a.table, r.events);
      }
      CoveredRecordsMono(cfg, a.table, t', records[..n - 1]);
      forall j | 0 <= j < n - 1 ensures CoveredRecord(cfg, t', records[j]) {
        assert CoveredRecord(cfg, t', records[..n - 1][j]);
      }
    }
  }

  /**
   Once a batch of records has been filtered, filtering the same records
   again (a replay from the stream) sends nothing and leaves the table as it
   is.
   */
  lemma ReplayIsSilent(cfg: Config, t: Table, records: seq<Record>)
    ensures var t' := FilterRecords(cfg, t, records).table;
      FilterRecords(cfg, t', records) == Outcome(t', [])
  {
    FilterRecordsCovers(cfg, t, records);
    CoveredRecordsIdle(cfg, FilterRecords(cfg, t, records).table, records);
  }

  // ---------------------------------------------------------------------
  // Chunk boundaries and concrete cases

  /** Filtering `a + b` is filtering `a`, then `b` from the table `a` left: chunk boundaries do not matter. */
  lemma {:induction false} FilterRecordsConcat(cfg: Config, t: Table, a: seq<Record>, b: seq<Record>)
    ensures var x := FilterRecords(cfg, t, a);
      var y := FilterRecords(cfg, x.table, b);
      FilterRecords(cfg, t, a + b) == Outcome(y.table, x.sent + y.sent)
  {
    if b == [] {
      assert a + b == a;
    } else {
      var n := |b|;
      FilterRecordsConcat(cfg, t, a, b[..n - 1]);
      var x := FilterRecords(cfg, t, a);
      var y := FilterRecords(cfg, x.table, b[..n - 1]);
      var z := FilterRecord(cfg, y.table, b[n - 1]);
      assert (a + b)[..|a + b| - 1] == a + b[..n - 1];
      assert (a + b)[|a + b| - 1] == b[n - 1];
      assert FilterRecords(cfg, t, a + b) == Outcome(z.table, (x.sent + y.sent) + z.sent);
      assert FilterRecords(cfg, x.table, b) == Outcome(z.table, y.sent + z.sent);
      assert (x.sent + y.sent) + z.sent == x.sent + (y.sent + z.sent);
    }
  }

  /** A record carrying one allocation event with one task state. */
  function SingleTaskRecord(index: int, jobId: string, taskId: string, events: seq<TaskEvent>): Record
  {
    Envelope(index, [Event("Allocation", Allocation(jobId, Some([TaskEntry(taskId, TaskState(events))])))])
  }

  lemma SingleTaskRecordIsItsTask(cfg: Config, t: Table, index: int, jobId: string, taskId: string, events: seq<TaskEvent>)
    requires index > cfg.lastIndex
    ensures FilterRecord(cfg, t, SingleTaskRecord(index, jobId, taskId, events)) == FilterTask(cfg, t, jobId, TaskEntry(taskId, TaskState(events)))
  {
    var r := SingleTaskRecord(index, jobId, taskId, events);
    var entry := TaskEntry(taskId, TaskState(events));
    var o := FilterTask(cfg, t, jobId, entry);
    assert [entry][..0] == [];
    assert FilterTasks(cfg, t, jobId, [entry]) == Outcome(o.table, [] + o.sent);
    assert r.events[..0] == [];
    assert FilterEvents(cfg, t, r.events) == Outcome(o.table, [] + o.sent);
    assert [] + o.sent == o.sent;
  }

  /** Two unseen events `T1 < T2` with empty lists: both are sent, in order, and the watermark becomes `T2`. */
  lemma TwoUnseenEventsBothSent(cfg: Config, index: int, jobId: string, taskId: string, e1: TaskEvent, e2: TaskEvent)
    requires index > cfg.lastIndex && !IsConnectProxy(taskId)
    requires cfg.allowlist == [] && cfg.denylist == []
    requires cfg.startedAt < e1.time < e2.time
    ensures var key := TaskIdentifier(jobId, taskId);
      FilterRecord(cfg, map[], SingleTaskRecord(index, jobId, taskId, [e1, e2]))
        == Outcome(map[key := e2.time], [Notify(key, e1), Notify(key, e2)])
  {
    SingleTaskRecordIsItsTask(cfg, map[], index, jobId, taskId, [e1, e2]);
    var key := TaskIdentifier(jobId, taskId);
    var w := LastHandledAt(cfg, map[], key);
    assert [e1, e2][..1] == [e1];
    assert [e1][..0] == [];
    assert Passes(cfg, e1) && Passes(cfg, e2);
    assert ScanTaskEvents(cfg, key, w, [e1]) == TaskScan([] + [Notify(key, e1)], Some(e1.time));
    assert [] + [Notify(key, e1)] == [Notify(key, e1)];
    assert ScanTaskEvents(cfg, key, w, [e1, e2]) == TaskScan([Notify(key, e1)] + [Notify(key, e2)], Some(e2.time));
  }

  /**
   The same with `T1`'s type denylisted: only `T2` is sent, and the
   watermark still becomes `T2`.
   */
  lemma DenylistedFirstEvent(cfg: Config, index: int, jobId: string, taskId: string, e1: TaskEvent, e2: TaskEvent)
    requires index > cfg.lastIndex && !IsConnectProxy(taskId)
    requires cfg.allowlist == [] && cfg.denylist == [e1.eventType] && e2.eventType != e1.eventType
    requires cfg.startedAt < e1.time < e2.time
    ensures var key := TaskIdentifier(jobId, taskId);
      FilterRecord(cfg, map[], SingleTaskRecord(index, jobId, taskId, [e1, e2]))
        == Outcome(map[key := e2.time], [Notify(key, e2)])
  {
    SingleTaskRecordIsItsTask(cfg, map[], index, jobId, taskId, [e1, e2]);
    var key := TaskIdentifier(jobId, taskId);
    var w := LastHandledAt(cfg, map[], key);
    assert [e1, e2][..1] == [e1];
    assert [e1][..0] == [];
    assert !Passes(cfg, e1) && Passes(cfg, e2);
    assert ScanTaskEvents(cfg, key, w, [e1]) == TaskScan([], None);
    assert ScanTaskEvents(cfg, key, w, [e1, e2]) == TaskScan([] + [Notify(key, e2)], Some(e2.time));
    assert [] + [Notify(key, e2)] == [Notify(key, e2)];
  }

  /**
   A task whose only events fail the type lists leaves the watermark where it
   was, however late those events are: filtered events do not advance it.
   */
  lemma FilteredEventsDoNotAdvance(cfg: Config, t: Table, index: int, jobId: string, taskId: string, events: seq<TaskEvent>)
    requires index > cfg.lastIndex
    requires forall i :: 0 <= i < |events| ==> !Passes(cfg, events[i])
    ensures FilterRecord(cfg, t, SingleTaskRecord(index, jobId, taskId, events)) == Outcome(t, [])
  {
    SingleTaskRecordIsItsTask(cfg, t, index, jobId, taskId, events);
    var entry := TaskEntry(taskId, TaskState(events));
    FilterTaskWatermark(cfg, t, jobId, entry);
    if !IsConnectProxy(taskId) {
      var key := TaskIdentifier(jobId, taskId);
      MostRecentIsMaxPassing(cfg, key, LastHandledAt(cfg, t, key), events);
    }
  }
}
