# Nomad event streamer: decoding and watermark filtering, modelled in Dafny

The program reads the Nomad event stream, a long-lived newline-delimited
JSON (NDJSON) body that arrives in arbitrary chunks. It decodes the stream
into records. It posts a Discord notification for every task event whose
type passes the deny and allow lists and whose time is after its task's
watermark. This project models the two parts that carry the logic:

- **Decoding.** Two decoders are modelled:
  - the `NDJSON` class of `lib/ndjson.rb`, whose `@previous_part` buffer holds the unterminated line between calls;
  - the older decoder inlined in `app.rb`, which tries each piece of a chunk as JSON and keeps the failures as pending text.
- **The per-task watermark filter** of `app.rb`. Each allocation event carries task states. For each task the filter:
  - keys each task by `"<job>.<task>"`;
  - reads its watermark, which defaults to the start-up time;
  - emits the events whose type passes the deny and allow lists and whose time is after the watermark;
  - raises the watermark to the greatest passing event time, when that is after the watermark.

  Heartbeats (`{}`), records at or below the start-up log index, non-`Allocation` topics, allocations without task states and `connect-proxy` tasks are skipped.

It also models `parse_env_list`, which turns an environment variable into a
type list.

`JSON.parse` is a parameter, `parse: string -> Option<J>`:
- `None` stands for a parse error. In the class it also stands for a line that parses to `nil`, which `.compact` drops.
- Records are datatypes (`Events.Record`), and the watermark table is a `map<string, int>`.
- Posting to Discord is modelled as appending a `Notification` to an output sequence.

Files:
- `option.dfy`: `Option`.
- `split.dfy`: Ruby's `split` with and without `-1`, and the line framing, meaning a text's complete lines and its unterminated rest.
- `ndjson.dfy`: the `NDJSON` class, chunking invariance and the RSpec scenarios.
- `inline_decoder.dfy`: the inline decoder.
- `env_list.dfy`: `parse_env_list` and `String#strip`.
- `events.dfy`: records, events, task states and notifications.
- `watermark.dfy`: the filter as functions, with its properties.
- `filter_loop.dfy`: the filter's nested loops as methods, proved equal to those functions.
- `app.dfy`: the state the main `loop do` keeps between chunks, and one pass of its body.

Behaviour of `app.rb` that the model keeps:
- **Filtered events do not move the watermark.** The deny and allow checks (lines 97-101) run before `most_recent_event_timestamp` is updated (lines 104-109); `Watermark.FilteredEventsDoNotAdvance` states this. A denylisted earlier event does not stop a later passing one from raising the watermark (`Watermark.DenylistedFirstEvent`).
- **Task keys** are `"#{job_id}.#{task_id}"` (line 87).
- **Posting** sends every emitted event as it is, without classifying it.
- **Heartbeats** are only skipped (line 59).

## Model

| member | source | states |
|---|---|---|
| Split.SplitKeep | lib/ndjson.rb:14 | `split("\n", -1)`: nothing for the empty string; otherwise one piece more than there are separators, none holding a separator, and joining them with the separator gives the string back |
| Split.SplitDrop | app.rb:42 | `split("\n")`: the `-1` pieces with the trailing run of empty pieces removed; its last piece is non-empty and no piece holds a separator |
| Split.PiecesOfJoin | lib/ndjson.rb:14 | splitting undoes joining separator-free pieces |
| Split.Lines | lib/ndjson.rb:16-24 | definition: the pieces of `split("\n", -1)` except the last, i.e. the lines a newline closes (`wholes`); `LinesAndRest` and `LinesUnique` fix their meaning |
| Split.Rest | lib/ndjson.rb:16-24 | definition: the last piece of `split("\n", -1)`, the text after the last newline (the new `@previous_part`); `LinesAndRest` and `LinesUnique` fix its meaning |
| Split.LinesAndRest | lib/ndjson.rb:16-24 | a text is its complete lines, each followed by a newline, then its rest; none of them holds a newline; there are as many complete lines as newlines |
| Split.LinesUnique | lib/ndjson.rb:16-24 | the framing is unique: any newline-free lines and rest that rebuild a text are its lines and rest |
| Split.LinesConcat | lib/ndjson.rb:14-24 | chunking invariance of the framing: the lines of `b + c1 + c2` are those of `b + c1` followed by those of its rest plus `c2`, and the rests agree |
| Split.StepFraming | lib/ndjson.rb:14-24 | one call with a newline-free buffer: an empty chunk completes nothing and keeps the buffer; otherwise the first completed line is the buffer glued to the chunk's first piece, the middle pieces are lines, and the last piece is the new buffer; the number of lines equals the number of newlines in the chunk |
| Split.WholeLinesFraming | app.rb:42 | text made of whole lines, the last non-empty: `split("\n")` gives those lines back, and they are its complete lines with an empty rest |
| NdjsonDecoder.Compact | lib/ndjson.rb:26-34 | the values of the completed lines, failed parses dropped, never more than the lines |
| NdjsonDecoder.CompactConcat | lib/ndjson.rb:26-34 | map-and-compact works line by line, in order: the values of `a + b` are those of `a` then those of `b` |
| NdjsonDecoder.CompactMember | lib/ndjson.rb:26-34 | a value is in the output exactly when some completed line parses to it |
| NdjsonDecoder.CompactAllParse | lib/ndjson.rb:26-34 | when every line parses, the output has one value per line, in line order |
| NdjsonDecoder.NDJSON.constructor | lib/ndjson.rb:6-8 | `@previous_part` starts empty |
| NdjsonDecoder.NDJSON.ParsePartial | lib/ndjson.rb:10-35 | the buffer stays newline-free; the new buffer is the rest of old buffer + chunk; the result is the values of that text's complete lines |
| NdjsonDecoder.DecodeChunks | spec/lib/ndjson_spec.rb:26-30 | feeding chunks one by one to a fresh decoder and concatenating the results gives the values of the complete lines of the whole text, wherever the chunk boundaries fall |
| NdjsonDecoder.OneLine | lib/ndjson.rb:14-34 | a text that is one newline-free line and its newline yields that line's value when it parses, and nothing otherwise |
| NdjsonDecoder.ParsesValidJsonByItself | spec/lib/ndjson_spec.rb:9-18 | one complete line in one chunk gives the values of that one line: its value when it parses, nothing otherwise |
| NdjsonDecoder.ParsesMultipleParts | spec/lib/ndjson_spec.rb:20-35 | a line split over four chunks, the last ending it, gives the values of that one whole line: its value when it parses, nothing otherwise |
| NdjsonDecoder.DropsIncompleteHead | spec/lib/ndjson_spec.rb:37-48 | an incomplete first line that fails to parse is dropped; the next line's value remains |
| NdjsonDecoder.IncompleteHeadAndTail | spec/lib/ndjson_spec.rb:50-61 | an incomplete head is dropped, and an incomplete tail is completed by the next chunk |
| NdjsonDecoder.MultipleIncompletePartials | spec/lib/ndjson_spec.rb:63-77 | chunks without a newline complete nothing and are carried over |
| NdjsonDecoder.CompleteAndBlankPartials | spec/lib/ndjson_spec.rb:79-94 | an empty chunk changes nothing in between |
| NdjsonDecoder.MixOfIncompleteAndComplete | spec/lib/ndjson_spec.rb:96-109 | a failed head is dropped; the lines after it come out in order |
| NdjsonDecoder.EachPartialIncomplete | spec/lib/ndjson_spec.rb:111-122 | the buffer and the next chunk's first piece form one line |
| NdjsonDecoder.ParsesJustNewLines | spec/lib/ndjson_spec.rb:124-139 | a chunk that starts with a newline closes the pending `{}` |
| NdjsonDecoder.ParsesNewLineOnItsOwn | spec/lib/ndjson_spec.rb:141-152 | a bare newline chunk closes the pending `{}`: its value when it parses, nothing otherwise |
| NdjsonDecoder.BlankLineYieldsNothing | lib/ndjson.rb:14-34 | a bare newline with nothing pending completes the empty line, which does not parse: no values |
| InlineDecoder.ScanParts | app.rb:46-56 | the loop over a chunk's pieces never collects more values than there are pieces |
| InlineDecoder.ScanValues | app.rb:47-52 | every collected value is the parse of the pending text plus the piece it was collected at |
| InlineDecoder.ScanKeepsText | app.rb:46-56 | the parsed texts followed by the new pending text are exactly the old pending text followed by the pieces; only the newlines are lost |
| InlineDecoder.DecodeChunk | app.rb:42-56 | the loop's pending text and collected values are those of the scan over `split("\n")` of the chunk |
| InlineDecoder.ScanAllParse | app.rb:46-56 | when every piece parses on its own, nothing is left pending and every piece's value is collected in order |
| InlineDecoder.AgreesOnWholeLines | app.rb:42-56 | on whole lines that all parse, the inline decoder and the `NDJSON` class give the same values |
| InlineDecoder.PoisonedPending | app.rb:53-55 | once the pending text starts with a prefix that no continuation parses, nothing is ever collected again and every piece is appended |
| EnvList.IsSpace | app.rb:16 | definition: the characters Ruby's `strip` removes: NUL, tab, line feed, vertical tab, form feed, carriage return and space |
| EnvList.StripLeft | app.rb:16 | a suffix of its input that does not start with whitespace, everything it drops being whitespace (`lstrip`) |
| EnvList.StripRight | app.rb:16 | a prefix of its input that does not end with whitespace, everything it drops being whitespace (`rstrip`) |
| EnvList.Strip | app.rb:16 | Ruby's `String#strip`: never longer than its input, and the result neither starts nor ends with whitespace |
| EnvList.StripSlice | app.rb:16 | `strip` returns a slice of its input; everything before and after it is whitespace, and it neither starts nor ends with whitespace |
| EnvList.ParseEnvList | app.rb:15-17 | an unset variable gives `[]`; a set one gives one stripped entry per piece of `split(",")`, at most one more than the commas |
| EnvList.ListedNamesAreClean | app.rb:16 | no listed name holds a comma or starts or ends with whitespace |
| EnvList.BlankValueYieldsEmptyName | app.rb:16 | a variable holding only whitespace gives `[""]`, a non-empty list |
| Watermark.Contains | app.rb:85 | definition: `pattern` occurs at the start of `s` or somewhere in its tail; `ContainsAt` states what it means |
| Watermark.ContainsAt | app.rb:85 | `Contains` is substring search: it holds exactly when some offset of the text starts a copy of the pattern |
| Watermark.IsConnectProxy | app.rb:85 | definition: `task_id.match(/connect-proxy/)`, a literal pattern, so the task id holds `connect-proxy` at some offset (by `ContainsAt`) |
| Watermark.TaskIdentifier | app.rb:87 | definition: `"#{job_id}.#{task_id}"`, with no namespace prefix |
| Watermark.LastHandledAt | app.rb:88 | definition: the task's written `:last_event_timestamp`, or `started_at` when none has been written |
| Watermark.Passes | app.rb:97-101 | definition: the type is not in the denylist, and the allowlist is empty or holds it, so the denylist wins when a type is in both |
| Watermark.Notify | app.rb:114-124 | definition: the post carries the task key, the event's type, display message, time and details |
| Watermark.Skipped | app.rb:59-64 | definition: a heartbeat (`parsed_resource.empty?`) or a record with `last_index >= Index` |
| Watermark.ScanTaskEvents | app.rb:94-125 | the loop over one task's events: an event failing the lists is skipped before anything else; a passing one raises the running maximum and is posted when it is after the watermark read once before the loop. Every post carries the task's key and a time after that watermark, and a scan that posts anything has a maximum above the watermark |
| Watermark.FilterTask | app.rb:83-132 | one `task_id => task_state` pair: a connect-proxy task posts and writes nothing; otherwise the scan runs against the watermark read once, and the scan's maximum is written when it is later. The table is either unchanged or changed only at this task's key, to a value above the old watermark, and any post implies that write |
| Watermark.FilterTasks | app.rb:83-135 | definition: an allocation's task states in hash order, each filtered against the table the previous one left, posts concatenated; its properties are `FilterTasksFrame` and `FilterTasksCovers` |
| Watermark.FilterEvent | app.rb:70-81 | definition: a non-`Allocation` topic or an allocation without `TaskStates` changes nothing and posts nothing; otherwise its task states are filtered with its `JobID`; its properties are in `FilterEventsFrame` |
| Watermark.FilterEvents | app.rb:66-142 | definition: a record's event envelopes in order, each against the table the previous one left, posts concatenated; its properties are `FilterEventsFrame` and `FilterEventsCovers` |
| Watermark.FilterRecord | app.rb:58-64 | definition: a heartbeat (`{}`) or a record with `last_index >= Index` changes nothing and posts nothing; otherwise its events are filtered; its properties are in `FilterRecordsFrame` |
| Watermark.FilterRecords | app.rb:58 | definition: the decoded records of one chunk in order against the persistent table, posts concatenated; its properties are `FilterRecordsFrame`, `ReplayIsSilent` and `FilterRecordsConcat` |
| Watermark.MostRecentIsMaxPassing | app.rb:92-109 | `most_recent_event_timestamp` is set exactly when some event passes the lists, and is then the greatest passing time |
| Watermark.SentIffPassingAndLater | app.rb:97-112 | an event is posted exactly when it is not denylisted, the allowlist is empty or lists it, and its time is after the watermark read before the loop |
| Watermark.SentInOrder | app.rb:94 | events are visited in received order: the posts for `a + b` are those for `a`, then those for `b` |
| Watermark.SentBounded | app.rb:94-125 | no more posts than events |
| Watermark.FilterTaskWatermark | app.rb:83-132 | a connect-proxy task changes nothing and posts nothing. Otherwise the table changes at most at this task's key. It changes only to a value above the old watermark. The new watermark is never lower, is at least every passing time, and is either the old one or a passing time. It stays put when nothing passes |
| Watermark.FilterTaskFrame | app.rb:85-131 | one task: watermarks only rise, only its own key can change (none for a proxy), and every post is about that key |
| Watermark.FilterTasksFrame | app.rb:83-135 | an allocation's task states: watermarks only rise, only their non-proxy keys change, posts are about those keys |
| Watermark.FilterEventsFrame | app.rb:66-81 | a record's events: only `Allocation` events with task states change the table or post |
| Watermark.FilterRecordsFrame | app.rb:58-64 | a chunk's records: heartbeats and records at or below the start-up index touch nothing; the table only advances and changes only at keys of acted-on non-proxy tasks; posts are about those keys |
| Watermark.CoveredTaskIdle | app.rb:106-112 | a task whose passing events are all at or below its watermark posts nothing and writes nothing |
| Watermark.FilterTaskCovers | app.rb:130-132 | after a task is filtered, its watermark is at least each of its passing event times |
| Watermark.ReplayIsSilent | app.rb:58-135 | replaying records that were already filtered posts nothing and leaves the table unchanged |
| Watermark.FilterRecordsConcat | app.rb:58 | filtering `a + b` is filtering `a` then `b` from the table `a` left: chunk boundaries do not matter |
| Watermark.TwoUnseenEventsBothSent | app.rb:83-132 | two unseen events `T1 < T2` with empty lists: both are posted, in order, and the watermark becomes `T2` |
| Watermark.DenylistedFirstEvent | app.rb:97-109 | with `T1`'s type denylisted, only `T2` is posted and the watermark becomes `T2` |
| Watermark.FilteredEventsDoNotAdvance | app.rb:97-132 | a task whose events all fail the lists leaves the table as it was, however late the events are |
| FilterLoop.ProcessTask | app.rb:83-135 | the scan loop, with its separate deny and allow checks, then the write after the loop, compute that task's outcome |
| FilterLoop.ProcessEvent | app.rb:70-135 | the loop over an allocation's task states computes the event's outcome; other topics and missing task states are skipped |
| FilterLoop.ProcessRecord | app.rb:58-135 | heartbeats and replayed indices are skipped; the loop over events computes the record's outcome |
| FilterLoop.ProcessRecords | app.rb:58-135 | over a chunk's records: the outcome is as specified, the table only advances and changes only at acted-on task keys, posts are about those keys, and a replay afterwards posts nothing |
| App.Relay.constructor | app.rb:20-38 | the type lists come from `parse_env_list`; the pending text and table start empty |
| App.Relay.Iterate | app.rb:40-143 | one pass of the loop body: the inline decoder's pending text and values, then the filter's table and posts; no watermark goes down and only acted-on task keys change |

## Left out

- HTTP: the agent lookup (app.rb:26-28), opening the stream (app.rb:36), `readpartial` (app.rb:42) and the Discord post (app.rb:120-124). These are network I/O. The log index and each chunk are parameters, and a post is an appended `Notification`.
- `current_timestamp` (app.rb:11-13): it works through a floating-point clock reading. `started_at` is an integer parameter.
- `JSON.parse` (lib/ndjson.rb:28, app.rb:47): a foreign library, abstracted as the `parse` parameter. The shape of a JSON value is not modelled, so a record that lacks `Index`, `Events`, `Payload`, `Time` or `Details` cannot be expressed. The crashes those would cause are not modelled. Nor is a value that is not an object, or a `null` line in the inline decoder, where `nil.empty?` would raise.
- `puts` logging and the message text built at app.rb:117-118. These are presentation only.
- The infinite `loop do` (app.rb:40): `App.Relay.Iterate` is one pass of it.
- `EVENT_TYPE_ALLOWLIST` and `EVENT_TYPE_DENYLIST` (app.rb:20-21): they are computed but never used.
- Reading the default-initialising `task_metadata` (app.rb:34, 88, 134) inserts an empty hash for the key. The table here holds only written watermarks, because an empty entry reads the same as a missing one.
- Ruby hashes are ordered, so a task-state hash is a sequence of entries. Duplicate task ids within one hash are therefore not ruled out.
- Bytes: `readpartial` (app.rb:42) returns bytes, so a chunk can end inside a multibyte UTF-8 character. A Dafny `char` here stands for one byte of the stream. Nothing in the model depends on chars being Unicode characters, and a character split across chunks is not distinguished from any other text.
