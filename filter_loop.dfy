/**
 The loops of app.rb's main loop body (lines 58-135) as methods. Each takes
 the watermark table as it stands and returns the table it leaves and the
 notifications it posts, in order; each is proved equal to the function of
 the same level in module Watermark, so every property proved there holds
 of these loops.
 */
module FilterLoop {
  import opened Options
  import opened Events
  import opened Watermark

  /**
   One `task_id => task_state` pair (app.rb:83-135): the watermark is read
   once, the events are scanned in order, and the watermark is written after
   the scan when the scan's maximum is later.
   */
  method ProcessTask(cfg: Config, table: Table, jobId: string, entry: TaskEntry)
    returns (table': Table, sent: seq<Notification>)
    ensures Outcome(table', sent) == FilterTask(cfg, table, jobId, entry)
  {
    if IsConnectProxy(entry.taskId) {
      return table, [];
    }
    var key := TaskIdentifier(jobId, entry.taskId);
    var lastHandledAt := if key in table then table[key] else cfg.startedAt;
    var events := entry.state.events;
    var mostRecent: Option<int> := None;
    sent := [];
    var i := 0;
    while i < |events|
      invariant 0 <= i <= |events|
      invariant TaskScan(sent, mostRecent) == ScanTaskEvents(cfg, key, lastHandledAt, events[..i])
    {
      var e := events[i];
      assert events[..i + 1][..i] == events[..i];
      if e.eventType in cfg.denylist {
        // skipped: denylisted
      } else if |cfg.allowlist| > 0 && e.eventType !in cfg.allowlist {
        // skipped: not allowlisted
      } else {
        if mostRecent.None? || e.time > mostRecent.value {
          mostRecent := Some(e.time);
        }
        if e.time > lastHandledAt {
          sent := sent + [Notify(key, e)];
        }
      }
      i := i + 1;
    }
    assert events[..i] == events;
    table' := table;
    if mostRecent.Some? && mostRecent.value > lastHandledAt {
      table' := table[key := mostRecent.value];
    }
  }

  /** One event envelope (app.rb:70-135): task states of an `Allocation` event, in order. */
  method ProcessEvent(cfg: Config, table: Table, event: Event) returns (table': Table, sent: seq<Notification>)
    ensures Outcome(table', sent) == FilterEvent(cfg, table, event)
  {
    table', sent := table, [];
    if event.topic != "Allocation" || event.allocation.taskStates.None? {
      return;
    }
    var jobId := event.allocation.jobId;
    var entries := event.allocation.taskStates.value;
    var j := 0;
    while j < |entries|
      invariant 0 <= j <= |entries|
      invariant Outcome(table', sent) == FilterTasks(cfg, table, jobId, entries[..j])
    {
      assert entries[..j + 1][..j] == entries[..j];
      var t, s := ProcessTask(cfg, table', jobId, entries[j]);
      table', sent := t, sent + s;
      j := j + 1;
    }
    assert entries[..j] == entries;
  }

  /** One decoded record (app.rb:58-143): heartbeats and already-indexed records are skipped. */
  method ProcessRecord(cfg: Config, table: Table, record: Record) returns (table': Table, sent: seq<Notification>)
    ensures Outcome(table', sent) == FilterRecord(cfg, table, record)
  {
    table', sent := table, [];
    if record.Heartbeat? || cfg.lastIndex >= record.index {
      return;
    }
    var events := record.events;
    var i := 0;
    while i < |events|
      invariant 0 <= i <= |events|
      invariant Outcome(table', sent) == FilterEvents(cfg, table, events[..i])
    {
      assert events[..i + 1][..i] == events[..i];
      var t, s := ProcessEvent(cfg, table', events[i]);
      table', sent := t, sent + s;
      i := i + 1;
    }
    assert events[..i] == events;
  }

  /**
   The records decoded from one chunk, in order (app.rb:58). The table only
   advances, changes only at the keys of non-proxy tasks of acted-on records,
   and a replay of the same records afterwards posts nothing.
   */
  method ProcessRecords(cfg: Config, table: Table, records: seq<Record>) returns (table': Table, sent: seq<Notification>)
    ensures Outcome(table', sent) == FilterRecords(cfg, table, records)
    ensures Advances(cfg, table, table') && Within(table, table', RecordsTaskKeys(cfg, records))
    ensures SentFor(sent, RecordsTaskKeys(cfg, records))
    ensures FilterRecords(cfg, table', records) == Outcome(table', [])
  {
    table', sent := table, [];
    var k := 0;
    while k < |records|
      invariant 0 <= k <= |records|
      invariant Outcome(table', sent) == FilterRecords(cfg, table, records[..k])
    {
      assert records[..k + 1][..k] == records[..k];
      var t, s := ProcessRecord(cfg, table', records[k]);
      table', sent := t, sent + s;
      k := k + 1;
    }
    assert records[..k] == records;
    FilterRecordsFrame(cfg, table, records);
    ReplayIsSilent(cfg, table, records);
  }
}
