/**
 The state app.rb's `loop do` keeps between chunks (lines 34, 38 and 40-144):
 the pending text of the inline decoder, the watermark table, and the
 notifications posted so far. One call of `Iterate` is one pass of the loop
 body, with the chunk that `readpartial` returned as its argument.
 */
module App {
  import opened Options
  import opened Split
  import opened Events
  import EnvList
  import InlineDecoder
  import opened Watermark
  import FilterLoop

  class Relay {
    const cfg: Config
    var previousJsonPart: string
    var taskMetadata: Table
    /** Every notification posted to the webhook, in order. */
    var posted: seq<Notification>

    /**
     Start-up (app.rb:20-38): the type lists come from the two environment
     variables' values, the log index and the start time are given.
     */
    constructor (lastIndex: int, startedAt: int, allowlistVar: Option<string>, denylistVar: Option<string>)
      ensures cfg == Config(lastIndex, startedAt, EnvList.ParseEnvList(allowlistVar), EnvList.ParseEnvList(denylistVar))
      ensures previousJsonPart == [] && taskMetadata == map[] && posted == []
    {
      cfg := Config(lastIndex, startedAt, EnvList.ParseEnvList(allowlistVar), EnvList.ParseEnvList(denylistVar));
      previousJsonPart := [];
      taskMetadata := map[];
      posted := [];
    }

    /**
     One pass of the loop body (app.rb:42-143): decode the chunk against the
     pending text, then filter the decoded records against the table. No
     watermark goes down, only keys of non-proxy tasks of acted-on records
     change, and everything posted in this pass is about one of them.
     */
    method Iterate(chunk: string, parse: string -> Option<Record>)
      modifies this
      ensures var scan := InlineDecoder.ScanParts(parse, old(previousJsonPart), SplitDrop(chunk, '\n'));
        var o := FilterRecords(cfg, old(taskMetadata), scan.parsed);
        && previousJsonPart == scan.pending
        && taskMetadata == o.table
        && posted == old(posted) + o.sent
      ensures var records := InlineDecoder.ScanParts(parse, old(previousJsonPart), SplitDrop(chunk, '\n')).parsed;
        && Advances(cfg, old(taskMetadata), taskMetadata)
        && Within(old(taskMetadata), taskMetadata, RecordsTaskKeys(cfg, records))
        && SentFor(posted[|old(posted)|..], RecordsTaskKeys(cfg, records))
    {
      var pending, records := InlineDecoder.DecodeChunk(previousJsonPart, chunk, parse);
      var table, sent := FilterLoop.ProcessRecords(cfg, taskMetadata, records);
      previousJsonPart := pending;
      taskMetadata := table;
      posted := posted + sent;
      assert posted[|old(posted)|..] == sent;
    }
  }
}
