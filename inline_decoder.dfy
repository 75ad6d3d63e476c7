/**
 The decoder inlined in the main loop of app.rb (lines 38-56). Each chunk is
 split at newlines with trailing empty pieces dropped; each piece is appended
 to the pending text and the result is tried as JSON. On success the value is
 collected and the pending text cleared; on failure the piece stays appended
 to the pending text, without the newline that ended it.
 */
module InlineDecoder {
  import opened Options
  import opened Split
  import NdjsonDecoder

  /** What the loop leaves behind: the pending text, the values, and the texts they were parsed from. */
  datatype Scan<J> = Scan(pending: string, parsed: seq<J>, texts: seq<string>)

  /** The loop over the pieces of one chunk, starting from pending text `previous`. */
  function ScanParts<J>(parse: string -> Option<J>, previous: string, parts: seq<string>): (r: Scan<J>)
    ensures |r.parsed| == |r.texts| <= |parts|
  {
    if parts == [] then Scan(previous, [], [])
    else
      var s := ScanParts(parse, previous, parts[..|parts| - 1]);
      var text := s.pending + parts[|parts| - 1];
      match parse(text)
      case Some(v) => Scan([], s.parsed + [v], s.texts + [text])
      case None => Scan(text, s.parsed, s.texts)
  }

  /** Every collected value is the parse of the text it came from. */
  lemma {:induction false} ScanValues<J>(parse: string -> Option<J>, previous: string, parts: seq<string>)
    ensures forall i :: 0 <= i < |ScanParts(parse, previous, parts).parsed| ==>
      parse(ScanParts(parse, previous, parts).texts[i]) == Some(ScanParts(parse, previous, parts).parsed[i])
  {
    if parts != [] {
      var n := |parts|;
      ScanValues(parse, previous, parts[..n - 1]);
    }
  }

  /**
   The parsed texts followed by the new pending text are exactly the old
   pending text followed by the pieces: nothing is lost but the newlines
   between pieces.
   */
  lemma {:induction false} ScanKeepsText<J>(parse: string -> Option<J>, previous: string, parts: seq<string>)
    ensures Concat(ScanParts(parse, previous, parts).texts) + ScanParts(parse, previous, parts).pending
         == previous + Concat(parts)
  {
    if parts != [] {
      var n := |parts|;
      ScanKeepsText(parse, previous, parts[..n - 1]);
      var s := ScanParts(parse, previous, parts[..n - 1]);
      var r := ScanParts(parse, previous, parts);
      ConcatSnoc(parts[..n - 1], parts[n - 1]);
      assert parts[..n - 1] + [parts[n - 1]] == parts;
      if parse(s.pending + parts[n - 1]).Some? {
        ConcatSnoc(s.texts, s.pending + parts[n - 1]);
      }
      KeepStep(Concat(s.texts), s.pending, parts[n - 1], previous, Concat(parts[..n - 1]), Concat(r.texts), r.pending);
    }
  }

  /** One step of ScanKeepsText, on plain strings: whichever way the piece went, nothing is lost. */
  lemma KeepStep(texts: string, pending: string, part: string, previous: string, before: string, texts': string, pending': string)
    requires texts + pending == previous + before
    requires (texts' == texts + (pending + part) && pending' == []) || (texts' == texts && pending' == pending + part)
    ensures texts' + pending' == previous + (before + part)
  {
    calc {
      texts' + pending';
      texts + (pending + part);
      (texts + pending) + part;
      (previous + before) + part;
      previous + (before + part);
    }
  }

  /** One more piece: the scan either collects the joined text's value or keeps it pending. */
  lemma ScanStep<J>(parse: string -> Option<J>, previous: string, parts: seq<string>, i: nat,
                    pending: string, parsed: seq<J>)
    requires i < |parts|
    requires pending == ScanParts(parse, previous, parts[..i]).pending
    requires parsed == ScanParts(parse, previous, parts[..i]).parsed
    ensures parse(pending + parts[i]).Some? ==>
      ScanParts(parse, previous, parts[..i + 1]).pending == [] &&
      ScanParts(parse, previous, parts[..i + 1]).parsed == parsed + [parse(pending + parts[i]).value]
    ensures parse(pending + parts[i]).None? ==>
      ScanParts(parse, previous, parts[..i + 1]).pending == pending + parts[i] &&
      ScanParts(parse, previous, parts[..i + 1]).parsed == parsed
  {
    assert parts[..i + 1][..i] == parts[..i];
  }

  /**
   The loop body of app.rb for one chunk: returns the new pending text and
   the collected values, as ScanParts describes over the chunk's pieces.
   */
  method DecodeChunk<J>(previous: string, chunk: string, parse: string -> Option<J>)
    returns (pending: string, parsedResources: seq<J>)
    ensures pending == ScanParts(parse, previous, SplitDrop(chunk, '\n')).pending
    ensures parsedResources == ScanParts(parse, previous, SplitDrop(chunk, '\n')).parsed
  {
    var jsonParts := SplitDrop(chunk, '\n');
    pending, parsedResources := previous, [];
    var i := 0;
    while i < |jsonParts|
      invariant 0 <= i <= |jsonParts|
      invariant pending == ScanParts(parse, previous, jsonParts[..i]).pending
      invariant parsedResources == ScanParts(parse, previous, jsonParts[..i]).parsed
    {
      ScanStep(parse, previous, jsonParts, i, pending, parsedResources);
      match parse(pending + jsonParts[i]) {
        case Some(v) =>
          pending := [];
          parsedResources := parsedResources + [v];
        case None =>
          pending := pending + jsonParts[i];
      }
      i := i + 1;
    }
    assert jsonParts[..i] == jsonParts;
  }

  lemma {:induction false} ScanAllParse<J>(parse: string -> Option<J>, lines: seq<string>)
    requires forall i :: 0 <= i < |lines| ==> parse(lines[i]).Some?
    ensures ScanParts(parse, [], lines).pending == []
    ensures ScanParts(parse, [], lines).parsed == NdjsonDecoder.Compact(parse, lines)
  {
    if lines != [] {
      var n := |lines|;
      ScanAllParse(parse, lines[..n - 1]);
      assert [] + lines[n - 1] == lines[n - 1];
    }
  }

  /**
   On a chunk made of whole lines, each of which parses, started with nothing
   pending, the inline decoder and the NDJSON class agree: the same values,
   in the same order, and nothing left pending.
   */
  lemma AgreesOnWholeLines<J>(parse: string -> Option<J>, lines: seq<string>)
    requires |lines| > 0 && lines[|lines| - 1] != [] && AllFree(lines, '\n')
    requires forall i :: 0 <= i < |lines| ==> parse(lines[i]).Some?
    ensures ScanParts(parse, [], SplitDrop(Terminated(lines), '\n')).pending == []
    ensures ScanParts(parse, [], SplitDrop(Terminated(lines), '\n')).parsed
         == NdjsonDecoder.Compact(parse, Lines(Terminated(lines)))
  {
    WholeLinesFraming(lines);
    ScanAllParse(parse, lines);
  }

  /**
   The inline decoder's fragility: once the pending text starts with a
   prefix that no continuation can turn into valid JSON (a corrupt line),
   every later piece is appended to it and no value is ever emitted again.
   */
  lemma {:induction false} PoisonedPending<J>(parse: string -> Option<J>, bad: string, rest: string, parts: seq<string>)
    requires forall t :: parse(bad + t) == None
    ensures ScanParts(parse, bad + rest, parts).parsed == []
    ensures ScanParts(parse, bad + rest, parts).pending == bad + rest + Concat(parts)
  {
    if parts != [] {
      var n := |parts|;
      PoisonedPending(parse, bad, rest, parts[..n - 1]);
      var pending := bad + rest + Concat(parts[..n - 1]);
      assert pending + parts[n - 1] == bad + (rest + Concat(parts[..n - 1]) + parts[n - 1]);
      assert parse(pending + parts[n - 1]) == None;
      ConcatSnoc(parts[..n - 1], parts[n - 1]);
      assert parts[..n - 1] + [parts[n - 1]] == parts;
    }
  }
}
