/**
 lib/ndjson.rb: the incremental NDJSON decoder. Each call splits the incoming
 chunk at newlines, completes the pending line with the chunk's first piece,
 keeps the chunk's last piece pending, and returns the parsed value of every
 completed line that parses. JSON.parse is the parameter `parse`; `None`
 stands for both a parse error and a line that parses to nil.
 */
module NdjsonDecoder {
  import opened Options
  import opened Split

  /**
   `lines.map { |l| JSON.parse(l) rescue nil }.compact`: the values of the
   lines that parse, in line order, never more values than lines.
   */
  function Compact<J>(parse: string -> Option<J>, lines: seq<string>): (r: seq<J>)
    ensures |r| <= |lines|
  {
    if lines == [] then []
    else
      var init := Compact(parse, lines[..|lines| - 1]);
      match parse(lines[|lines| - 1])
      case Some(v) => init + [v]
      case None => init
  }

  /** Map-and-compact distributes over concatenation: output follows line order. */
  lemma {:induction false} CompactConcat<J>(parse: string -> Option<J>, a: seq<string>, b: seq<string>)
    ensures Compact(parse, a + b) == Compact(parse, a) + Compact(parse, b)
  {
    if b == [] {
      assert a + b == a;
    } else {
      var n := |b|;
      CompactConcat(parse, a, b[..n - 1]);
      assert (a + b)[..|a + b| - 1] == a + b[..n - 1];
      assert (a + b)[|a + b| - 1] == b[n - 1];
    }
  }

  /** A value comes out exactly when some completed line parses to it. */
  lemma {:induction false} CompactMember<J>(parse: string -> Option<J>, lines: seq<string>, v: J)
    ensures v in Compact(parse, lines) <==> exists i :: 0 <= i < |lines| && parse(lines[i]) == Some(v)
  {
    if lines != [] {
      var n := |lines|;
      var init := lines[..n - 1];
      CompactMember(parse, init, v);
      if exists i :: 0 <= i < n && parse(lines[i]) == Some(v) {
        var i :| 0 <= i < n && parse(lines[i]) == Some(v);
        if i < n - 1 { assert init[i] == lines[i]; }
      }
      if exists i :: 0 <= i < n - 1 && parse(init[i]) == Some(v) {
        var i :| 0 <= i < n - 1 && parse(init[i]) == Some(v);
        assert lines[i] == init[i];
      }
    }
  }

  /** Every completed line parses: nothing is dropped. */
  lemma {:induction false} CompactAllParse<J>(parse: string -> Option<J>, lines: seq<string>)
    requires forall i :: 0 <= i < |lines| ==> parse(lines[i]).Some?
    ensures |Compact(parse, lines)| == |lines|
    ensures forall i :: 0 <= i < |lines| ==> Compact(parse, lines)[i] == parse(lines[i]).value
  {
    if lines != [] {
      var n := |lines|;
      CompactAllParse(parse, lines[..n - 1]);
      assert forall i :: 0 <= i < n - 1 ==> lines[..n - 1][i] == lines[i];
    }
  }

  lemma CloseLine(wholes: seq<string>, pending: string, part: string)
    requires AllFree(wholes, '\n') && '\n' !in pending
    ensures AllFree(wholes + [pending], '\n')
    ensures Terminated(wholes + [pending]) + part == Terminated(wholes) + pending + "\n" + part
  {
    assert (wholes + [pending])[..|wholes|] == wholes;
  }

  lemma JoinSnoc(parts: seq<string>, x: string)
    requires |parts| >= 1
    ensures Join(parts + [x], '\n') == Join(parts, '\n') + "\n" + x
  {
    assert (parts + [x])[..|parts|] == parts;
  }

  /** The first piece of the `parse_partial` loop extends the pending text. */
  lemma FirstPiece(start: string, wholes: seq<string>, pending: string, parts: seq<string>, index: nat)
    requires index == 0 < |parts| && '\n' !in parts[index] && '\n' !in pending && wholes == []
    requires Terminated(wholes) + pending == start + Join(parts[..index], '\n')
    ensures '\n' !in pending + parts[index]
    ensures Terminated(wholes) + (pending + parts[index]) == start + Join(parts[..index + 1], '\n')
  {
    assert Terminated(wholes) == [] && Join(parts[..index], '\n') == [];
    assert [] + pending == pending && start + [] == start;
    assert parts[..index + 1] == [parts[index]];
  }

  /** A later piece closes the pending text as a whole line and starts a new one. */
  lemma LaterPiece(start: string, wholes: seq<string>, pending: string, parts: seq<string>, index: nat)
    requires 0 < index < |parts| && '\n' !in parts[index]
    requires '\n' !in pending && AllFree(wholes, '\n')
    requires Terminated(wholes) + pending == start + Join(parts[..index], '\n')
    ensures AllFree(wholes + [pending], '\n')
    ensures Terminated(wholes + [pending]) + ([] + parts[index]) == start + Join(parts[..index + 1], '\n')
  {
    var part := parts[index];
    var before := parts[..index];
    CloseLine(wholes, pending, part);
    assert Join(parts[..index + 1], '\n') == Join(before, '\n') + "\n" + part by {
      assert parts[..index + 1] == before + [part];
      JoinSnoc(before, part);
    }
    assert [] + part == part;
  }

  /** After the last piece, the closed lines and the pending text frame the whole text. */
  lemma LastPiece(start: string, partial: string, parts: seq<string>, wholes: seq<string>, pending: string)
    requires parts == SplitKeep(partial, '\n')
    requires '\n' !in pending && AllFree(wholes, '\n')
    requires Terminated(wholes) + pending == start + Join(parts[..|parts|], '\n')
    ensures wholes == Lines(start + partial) && pending == Rest(start + partial)
  {
    assert parts[..|parts|] == parts;
    LinesUnique(wholes, pending, start + partial);
  }

  /** The decoder object: `@previous_part` is the pending, unterminated line. */
  class NDJSON {
    var previousPart: string

    /** The pending text never holds a newline. */
    ghost predicate Valid()
      reads this
    {
      '\n' !in previousPart
    }

    /** `initialize`: nothing pending. */
    constructor ()
      ensures Valid() && previousPart == []
    {
      previousPart := [];
    }

    /**
     `parse_partial`: the lines completed by this chunk are the complete
     lines of the old pending text followed by the chunk, the new pending
     text is that text's unterminated rest, and the result is the image of
     the completed lines under `parse`, failed lines dropped.
     */
    method ParsePartial<J>(partial: string, parse: string -> Option<J>) returns (records: seq<J>)
      requires Valid()
      modifies this
      ensures Valid()
      ensures previousPart == Rest(old(previousPart) + partial)
      ensures records == Compact(parse, Lines(old(previousPart) + partial))
    {
      var wholes: seq<string> := [];
      var parts := SplitKeep(partial, '\n');
      var index := 0;
      while index < |parts|
        invariant 0 <= index <= |parts|
        invariant '\n' !in previousPart && AllFree(wholes, '\n')
        invariant index == 0 ==> wholes == []
        invariant Terminated(wholes) + previousPart == old(previousPart) + Join(parts[..index], '\n')
      {
        var part := parts[index];
        assert '\n' !in part;
        if index != 0 {
          LaterPiece(old(previousPart), wholes, previousPart, parts, index);
          wholes := wholes + [previousPart];
          previousPart := [];
        } else {
          FirstPiece(old(previousPart), wholes, previousPart, parts, index);
        }
        previousPart := previousPart + part;
        index := index + 1;
      }
      LastPiece(old(previousPart), partial, parts, wholes, previousPart);
      records := Compact(parse, wholes);
    }
  }

  /**
   Feeding `chunks` one by one to a fresh decoder and collecting the results
   (the pattern of the decoder's tests) yields exactly the values of the
   complete lines of the whole text: where the chunk boundaries fall makes
   no difference.
   */
  method DecodeChunks<J>(chunks: seq<string>, parse: string -> Option<J>) returns (collection: seq<J>)
    ensures collection == Compact(parse, Lines(Concat(chunks)))
  {
    var decoder := new NDJSON();
    collection := [];
    var i := 0;
    assert Concat(chunks[..0]) == [];
    LinesUnique([], [], []);
    while i < |chunks|
      invariant 0 <= i <= |chunks|
      invariant decoder.Valid()
      invariant decoder.previousPart == Rest(Concat(chunks[..i]))
      invariant collection == Compact(parse, Lines(Concat(chunks[..i])))
    {
      var sofar := Concat(chunks[..i]);
      assert chunks[..i + 1][..i] == chunks[..i];
      assert Concat(chunks[..i + 1]) == sofar + chunks[i];
      var records := decoder.ParsePartial(chunks[i], parse);
      LinesConcat([], sofar, chunks[i]);
      assert [] + sofar == sofar;
      CompactConcat(parse, Lines(sofar), Lines(Rest(sofar) + chunks[i]));
      collection := collection + records;
      i := i + 1;
    }
    assert chunks[..i] == chunks;
  }

  // The decoder's own test scenarios, stated for any `parse`. Each feeds the
  // chunks to a fresh decoder and names the complete lines that come out.
  // The text arithmetic is done once, on symbolic lines, by the lemmas below.

  /** Chunks that rebuild newline-terminated, newline-free lines complete exactly those lines. */
  lemma ChunksOfLines(chunks: seq<string>, lines: seq<string>)
    requires AllFree(lines, '\n') && Concat(chunks) == Terminated(lines)
    ensures Lines(Concat(chunks)) == lines && Rest(Concat(chunks)) == []
  {
    assert Terminated(lines) + [] == Concat(chunks);
    LinesUnique(lines, [], Concat(chunks));
  }

  lemma ConcatPair(a: string, b: string)
    ensures Concat([a, b]) == a + b
  {
    assert [a, b][..1] == [a] && [a][..0] == [];
    assert Concat([a]) == [] + a == a;
  }

  lemma ConcatTriple(a: string, b: string, c: string)
    ensures Concat([a, b, c]) == a + b + c
  {
    assert [a, b, c][..2] == [a, b];
    ConcatPair(a, b);
  }

  lemma ConcatQuad(a: string, b: string, c: string, d: string)
    ensures Concat([a, b, c, d]) == a + b + c + d
  {
    assert [a, b, c, d][..3] == [a, b, c];
    ConcatTriple(a, b, c);
  }

  lemma TerminatedPair(a: string, b: string)
    ensures Terminated([a, b]) == a + "\n" + b + "\n"
  {
    assert [a, b][..1] == [a] && [a][..0] == [];
    assert Terminated([a]) == [] + a + "\n" == a + "\n";
  }

  lemma TerminatedTriple(a: string, b: string, c: string)
    ensures Terminated([a, b, c]) == a + "\n" + b + "\n" + c + "\n"
  {
    assert [a, b, c][..2] == [a, b];
    TerminatedPair(a, b);
  }

  lemma TerminatedQuad(a: string, b: string, c: string, d: string)
    ensures Terminated([a, b, c, d]) == a + "\n" + b + "\n" + c + "\n" + d + "\n"
  {
    assert [a, b, c, d][..3] == [a, b, c];
    TerminatedTriple(a, b, c);
  }

  /** A text that is one newline-free line and its newline decodes to that line's value, if it parses. */
  lemma OneLine<J>(parse: string -> Option<J>, whole: string, l: string)
    requires '\n' !in l && whole == l + "\n"
    ensures Compact(parse, Lines(whole)) == Compact(parse, [l])
    ensures parse(l).Some? ==> Compact(parse, Lines(whole)) == [parse(l).value]
    ensures parse(l).None? ==> Compact(parse, Lines(whole)) == []
  {
    assert [l][..0] == [] && Terminated([l]) == l + "\n";
    assert [] + whole == whole;
    LinesUnique([l], [], whole);
  }

  /** The line's four chunks, the last ending it with a newline, give the whole line's value when it parses. */
  method ParsesMultipleParts<J>(parse: string -> Option<J>) returns (collection: seq<J>)
    ensures collection == Compact(parse, ["{\"a\":\"" + "0\", \"" + "b\":" + "\"1\"}"])
    ensures var l := "{\"a\":\"" + "0\", \"" + "b\":" + "\"1\"}";
      parse(l).Some? ==> collection == [parse(l).value]
  {
    var c0, c1, c2, tail := "{\"a\":\"", "0\", \"", "b\":", "\"1\"}";
    collection := DecodeChunks([c0, c1, c2, tail + "\n"], parse);
    ConcatQuad(c0, c1, c2, tail + "\n");
    assert c0 + c1 + c2 + (tail + "\n") == c0 + c1 + c2 + tail + "\n";
    OneLine(parse, Concat([c0, c1, c2, tail + "\n"]), c0 + c1 + c2 + tail);
  }

  lemma IncompleteHeadText(l0: string, l1: string)
    ensures Concat([l0 + "\n", l1 + "\n"]) == Terminated([l0, l1])
  {
    ConcatPair(l0 + "\n", l1 + "\n");
    TerminatedPair(l0, l1);
  }

  method DropsIncompleteHead<J>(parse: string -> Option<J>) returns (collection: seq<J>)
    requires parse(":\"0\"}") == None
    ensures collection == Compact(parse, ["{\"b\":\"1\"}"])
  {
    var l0, l1 := ":\"0\"}", "{\"b\":\"1\"}";
    collection := DecodeChunks([l0 + "\n", l1 + "\n"], parse);
    IncompleteHeadText(l0, l1);
    ChunksOfLines([l0 + "\n", l1 + "\n"], [l0, l1]);
    CompactConcat(parse, [l0], [l1]);
  }

  lemma IncompletePartialsText(c0: string, c1: string, close: string, l1: string)
    ensures Concat([c0, c1, close + "\n" + l1 + "\n"]) == Terminated([c0 + c1 + close, l1])
  {
    ConcatTriple(c0, c1, close + "\n" + l1 + "\n");
    TerminatedPair(c0 + c1 + close, l1);
  }

  /** Two chunks without a newline are carried over until the third completes the first line. */
  method MultipleIncompletePartials<J>(parse: string -> Option<J>) returns (collection: seq<J>)
    ensures collection == Compact(parse, ["{\"a\":" + "\"0\"" + "}", "{\"b\":\"1\"}"])
  {
    var c0, c1, close, l1 := "{\"a\":", "\"0\"", "}", "{\"b\":\"1\"}";
    collection := DecodeChunks([c0, c1, close + "\n" + l1 + "\n"], parse);
    IncompletePartialsText(c0, c1, close, l1);
    ChunksOfLines([c0, c1, close + "\n" + l1 + "\n"], [c0 + c1 + close, l1]);
  }

  lemma BlankPartialText(l0: string, l1: string, l2: string)
    ensures Concat([l0 + "\n" + l1 + "\n", "", l2 + "\n"]) == Terminated([l0, l1, l2])
  {
    ConcatTriple(l0 + "\n" + l1 + "\n", "", l2 + "\n");
    TerminatedTriple(l0, l1, l2);
  }

  method CompleteAndBlankPartials<J>(parse: string -> Option<J>) returns (collection: seq<J>)
    ensures collection == Compact(parse, ["{\"a\":\"0\"}", "{\"b\":\"1\"}", "{\"c\":\"2\"}"])
  {
    var l0, l1, l2 := "{\"a\":\"0\"}", "{\"b\":\"1\"}", "{\"c\":\"2\"}";
    collection := DecodeChunks([l0 + "\n" + l1 + "\n", "", l2 + "\n"], parse);
    BlankPartialText(l0, l1, l2);
    ChunksOfLines([l0 + "\n" + l1 + "\n", "", l2 + "\n"], [l0, l1, l2]);
  }

  lemma JustNewLinesText(l: string)
    ensures Concat([l, "\n" + l + "\n", l + "\n"]) == Terminated([l, l, l])
  {
    ConcatTriple(l, "\n" + l + "\n", l + "\n");
    TerminatedTriple(l, l, l);
  }

  method ParsesJustNewLines<J>(parse: string -> Option<J>) returns (collection: seq<J>)
    ensures collection == Compact(parse, ["{}", "{}", "{}"])
  {
    var l := "{}";
    collection := DecodeChunks([l, "\n" + l + "\n", l + "\n"], parse);
    JustNewLinesText(l);
    ChunksOfLines([l, "\n" + l + "\n", l + "\n"], [l, l, l]);
  }

  method ParsesNewLineOnItsOwn<J>(parse: string -> Option<J>) returns (collection: seq<J>)
    ensures collection == Compact(parse, ["{}"])
    ensures parse("{}").Some? ==> collection == [parse("{}").value]
  {
    var l := "{}";
    collection := DecodeChunks([l, "\n"], parse);
    ConcatPair(l, "\n");
    OneLine(parse, Concat([l, "\n"]), l);
  }

  /** A bare newline with nothing pending completes the empty line, which does not parse. */
  method BlankLineYieldsNothing<J>(parse: string -> Option<J>) returns (collection: seq<J>)
    requires parse("") == None
    ensures collection == []
  {
    var l: string := [];
    collection := DecodeChunks([l + "\n"], parse);
    assert [l + "\n"][..0] == [] && Concat([l + "\n"]) == l + "\n";
    OneLine(parse, l + "\n", l);
  }

  method ParsesValidJsonByItself<J>(parse: string -> Option<J>) returns (collection: seq<J>)
    ensures collection == Compact(parse, ["{\"a\":\"0\"}"])
    ensures parse("{\"a\":\"0\"}").Some? ==> collection == [parse("{\"a\":\"0\"}").value]
  {
    var l := "{\"a\":\"0\"}";
    collection := DecodeChunks([l + "\n"], parse);
    assert [l + "\n"][..0] == [] && Concat([l + "\n"]) == l + "\n";
    OneLine(parse, l + "\n", l);
  }

  lemma HeadAndTailText(l0: string, open: string, close: string)
    ensures Concat([l0 + "\n" + open, close + "\n"]) == Terminated([l0, open + close])
  {
    ConcatPair(l0 + "\n" + open, close + "\n");
    TerminatedPair(l0, open + close);
  }

  method IncompleteHeadAndTail<J>(parse: string -> Option<J>) returns (collection: seq<J>)
    requires parse("\"a\":\"0\"}") == None
    ensures collection == Compact(parse, ["{\"b\":\"1\"" + "}"])
  {
    var l0, open, close := "\"a\":\"0\"}", "{\"b\":\"1\"", "}";
    collection := DecodeChunks([l0 + "\n" + open, close + "\n"], parse);
    HeadAndTailText(l0, open, close);
    ChunksOfLines([l0 + "\n" + open, close + "\n"], [l0, open + close]);
    CompactConcat(parse, [l0], [open + close]);
  }

  lemma MixText(l0: string, l1: string, open: string, close: string, l3: string)
    ensures Concat([l0 + "\n" + l1 + "\n" + open, close + "\n" + l3 + "\n"])
         == Terminated([l0, l1, open + close, l3])
  {
    ConcatPair(l0 + "\n" + l1 + "\n" + open, close + "\n" + l3 + "\n");
    TerminatedQuad(l0, l1, open + close, l3);
  }

  method MixOfIncompleteAndComplete<J>(parse: string -> Option<J>) returns (collection: seq<J>)
    requires parse("\"a\":\"0\"}") == None
    ensures collection == Compact(parse, ["{\"b\":\"1\"}", "{\"c\":" + "\"2\"}", "{\"d\":\"3\"}"])
  {
    var l0, l1, open, close, l3 := "\"a\":\"0\"}", "{\"b\":\"1\"}", "{\"c\":", "\"2\"}", "{\"d\":\"3\"}";
    collection := DecodeChunks([l0 + "\n" + l1 + "\n" + open, close + "\n" + l3 + "\n"], parse);
    MixText(l0, l1, open, close, l3);
    ChunksOfLines([l0 + "\n" + l1 + "\n" + open, close + "\n" + l3 + "\n"], [l0, l1, open + close, l3]);
    assert [l0, l1, open + close, l3] == [l0] + [l1, open + close, l3];
    CompactConcat(parse, [l0], [l1, open + close, l3]);
  }

  method EachPartialIncomplete<J>(parse: string -> Option<J>) returns (collection: seq<J>)
    ensures collection == Compact(parse, ["{\"a\":" + "\"0\"}"])
    ensures parse("{\"a\":" + "\"0\"}").Some? ==> collection == [parse("{\"a\":" + "\"0\"}").value]
  {
    var c0, close := "{\"a\":", "\"0\"}";
    collection := DecodeChunks([c0, close + "\n"], parse);
    ConcatPair(c0, close + "\n");
    assert c0 + (close + "\n") == c0 + close + "\n";
    OneLine(parse, Concat([c0, close + "\n"]), c0 + close);
  }
}
