/** The relay loop of the handler: upstream text arrives in chunks, is cut
    into newline-terminated event lines through a carry-over buffer, and
    every line that carries a non-empty text delta is written out. */
module Relay {
  import opened Wrappers
  import opened Text

  /** `JSON.parse(data)` followed by `choices[0].delta.content` and its
      string conversion: the text of a truthy delta, or None when the payload
      does not parse, has no such field, the delta is falsy, or anything in
      between throws (the handler swallows all of these). */
  type Extractor = string -> Option<string>

  /** The trimmed line that ends the upstream stream. */
  const Sentinel: string := "data: [DONE]"

  /** The server-sent-events field name the handler strips. */
  const DataField: string := "data:"

  /** What one complete line is, after trimming. */
  datatype LineKind = Blank | Done | Payload(data: string)

  /** Trim the line; skip it if empty or the sentinel; otherwise strip an
      optional `data:` prefix (and the whitespace after it). */
  function Classify(line: string): (k: LineKind)
    ensures k == Blank <==> AllSpace(line)
    ensures k.Payload? ==> IsTrimmed(k.data)
  {
    var t := Trim(line);
    if t == [] then Blank
    else if t == Sentinel then Done
    else Payload(if DataField <= t then Trim(t[|DataField|..]) else t)
  }

  /** Only whitespace lines are blank, only the sentinel ends the stream, and
      a payload is trimmed, no longer than its line, and is the whole trimmed
      line unless that starts with the `data:` field name. */
  lemma ClassifySpec(line: string)
    ensures Classify(line) == Blank <==> AllSpace(line)
    ensures Classify(line) == Done <==> Trim(line) == Sentinel
    ensures Classify(line).Payload? ==>
              IsTrimmed(Classify(line).data) && |Classify(line).data| <= |line|
    ensures Classify(line).Payload? && !(DataField <= Trim(line)) ==>
              Classify(line).data == Trim(line)
  {
  }

  /** What the handler writes for one complete line: the extracted delta when
      the line carries a payload whose delta is a non-empty string. */
  function LineDelta(line: string, extract: Extractor): (r: Option<string>)
    ensures r.Some? ==> r.value != ""
  {
    match Classify(line)
    case Payload(data) =>
      var d := extract(data);
      if d.Some? && d.value != "" then d else None
    case _ => None
  }

  /** Blank lines and the sentinel write nothing; any other line writes
      exactly when its payload yields a non-empty delta, and writes that
      delta. */
  lemma LineDeltaSpec(line: string, extract: Extractor)
    ensures AllSpace(line) || Trim(line) == Sentinel ==> LineDelta(line, extract) == None
    ensures LineDelta(line, extract).Some? <==>
              Classify(line).Payload? && extract(Classify(line).data).Some? &&
              extract(Classify(line).data).value != ""
    ensures LineDelta(line, extract).Some? ==> LineDelta(line, extract) == extract(Classify(line).data)
  {
    ClassifySpec(line);
  }

  /** What is written for one line, if anything. */
  type LineHandler = string -> Option<string>

  /** The writes a sequence of complete lines produces, in order. */
  function Emit(lines: seq<string>, delta: LineHandler): seq<string> {
    if lines == [] then []
    else
      var d := delta(lines[|lines| - 1]);
      Emit(lines[..|lines| - 1], delta) + (if d.Some? then [d.value] else [])
  }

  /** The per-line handling of the relay loop, as a value. */
  function Deltas(extract: Extractor): LineHandler {
    line => LineDelta(line, extract)
  }

  /** At most one write per line, and never an empty write. */
  lemma {:induction false} EmitSpec(lines: seq<string>, extract: Extractor)
    ensures |Emit(lines, Deltas(extract))| <= |lines|
    ensures forall i :: 0 <= i < |Emit(lines, Deltas(extract))| ==> Emit(lines, Deltas(extract))[i] != ""
  {
    if lines != [] {
      EmitSpec(lines[..|lines| - 1], extract);
    }
  }

  /** The newline-terminated lines of `text` (`lines` after `lines.pop()`). */
  function CompleteLines(text: string): (lines: seq<string>)
    ensures |lines| == |Split(text)| - 1
  {
    var parts := Split(text);
    parts[..|parts| - 1]
  }

  /** The fragment after the last newline of `text` (what `lines.pop()`
      puts back into the buffer). */
  function Pending(text: string): (fragment: string)
    ensures '\n' !in fragment
  {
    var parts := Split(text);
    SplitNoNewline(text);
    parts[|parts| - 1]
  }

  /** The whole output for a received text: only complete lines count. */
  function Relayed(text: string, extract: Extractor): seq<string> {
    Emit(CompleteLines(text), Deltas(extract))
  }

  /** All chunks received, in order. */
  function Concat(chunks: seq<string>): string {
    if chunks == [] then "" else Concat(chunks[..|chunks| - 1]) + chunks[|chunks| - 1]
  }

  /** The carry-over buffer invariant: the buffer holds no newline, and the
      complete lines, each followed by a newline, then the buffer, are
      exactly the text received. */
  lemma FramingInvariant(text: string)
    ensures '\n' !in Pending(text)
    ensures CompleteLines(text) == [] ==> Pending(text) == text
    ensures CompleteLines(text) != [] ==>
              Join(CompleteLines(text)) + "\n" + Pending(text) == text
  {
    SplitNoNewline(text);
    JoinSplit(text);
    JoinLast(Split(text));
  }

  /** Splitting a concatenation: the complete lines of the first part come
      first, and its pending fragment is glued onto the second part. */
  lemma SplitAppend(a: string, b: string)
    ensures Split(a + b) == CompleteLines(a) + Split(Pending(a) + b)
  {
    JoinLinesAppend(a, b);
    LinesAppendNewlineFree(a, b);
    SplitJoin(CompleteLines(a) + Split(Pending(a) + b));
  }

  /** The pieces SplitAppend names join back into the concatenation. */
  lemma JoinLinesAppend(a: string, b: string)
    ensures Join(CompleteLines(a) + Split(Pending(a) + b)) == a + b
  {
    var p := CompleteLines(a);
    var q := Split(Pending(a) + b);
    FramingInvariant(a);
    JoinSplit(Pending(a) + b);
    if p == [] {
      assert p + q == q;
    } else {
      JoinAppend(p, q);
    }
  }

  /** The pieces SplitAppend names hold no newline. */
  lemma LinesAppendNewlineFree(a: string, b: string)
    ensures var s := CompleteLines(a) + Split(Pending(a) + b);
            forall i :: 0 <= i < |s| ==> '\n' !in s[i]
  {
    var p := CompleteLines(a);
    var q := Split(Pending(a) + b);
    SplitNoNewline(a);
    SplitNoNewline(Pending(a) + b);
    assert forall i :: 0 <= i < |p| ==> p[i] == Split(a)[i];
    assert forall i :: |p| <= i < |p + q| ==> (p + q)[i] == q[i - |p|];
  }

  /** Feeding more text: the old complete lines stay, the new ones are those
      of the old buffer followed by the new text, and the buffer is that of
      the old buffer followed by the new text. */
  lemma LinesAppend(a: string, b: string)
    ensures CompleteLines(a + b) == CompleteLines(a) + CompleteLines(Pending(a) + b)
    ensures Pending(a + b) == Pending(Pending(a) + b)
  {
    SplitAppend(a, b);
    var s := Split(Pending(a) + b);
    assert Split(a + b) == CompleteLines(a) + s;
    assert (CompleteLines(a) + s)[..|CompleteLines(a) + s| - 1]
        == CompleteLines(a) + s[..|s| - 1];
  }

  /** Output of consecutive runs of lines is the output of their union. */
  lemma {:induction false} EmitAppend(l1: seq<string>, l2: seq<string>, delta: LineHandler)
    ensures Emit(l1 + l2, delta) == Emit(l1, delta) + Emit(l2, delta)
  {
    if l2 == [] {
      assert l1 + l2 == l1;
    } else {
      var n := |l2| - 1;
      EmitAppend(l1, l2[..n], delta);
      assert (l1 + l2)[..|l1 + l2| - 1] == l1 + l2[..n];
      assert (l1 + l2)[|l1 + l2| - 1] == l2[n];
    }
  }

  /** Streaming: the output for a longer text extends the output for any
      prefix of it by the output for the prefix's buffer plus the rest. */
  lemma RelayAppend(a: string, b: string, extract: Extractor)
    ensures Relayed(a + b, extract) == Relayed(a, extract) + Relayed(Pending(a) + b, extract)
  {
    LinesAppend(a, b);
    EmitAppend(CompleteLines(a), CompleteLines(Pending(a) + b), Deltas(extract));
  }

  /** What has been written is never retracted by later text. */
  lemma RelayPrefix(a: string, b: string, extract: Extractor)
    ensures Relayed(a, extract) <= Relayed(a + b, extract)
  {
    RelayAppend(a, b, extract);
  }

  /** Text after the last newline is held back: appending a newline-free
      tail changes no output and only grows the buffer. */
  lemma TailNeverEmitted(a: string, tail: string, extract: Extractor)
    requires '\n' !in tail
    ensures Relayed(a + tail, extract) == Relayed(a, extract)
    ensures Pending(a + tail) == Pending(a) + tail
  {
    RelayAppend(a, tail, extract);
    LinesAppend(a, tail);
    FramingInvariant(a);
    var p := Pending(a) + tail;
    assert '\n' !in p by {
      forall i | 0 <= i < |p| ensures p[i] != '\n' {
        if i < |Pending(a)| { assert p[i] == Pending(a)[i]; } else { assert p[i] == tail[i - |Pending(a)|]; }
      }
    }
    NoNewlineSplit(p);
    assert CompleteLines(p) == [];
  }

  /** A line that writes nothing (blank, the sentinel, a payload that does
      not parse or has no delta) does not stop the lines after it. */
  lemma SilentLineSkipped(before: seq<string>, line: string, after: seq<string>, delta: LineHandler)
    requires delta(line) == None
    ensures Emit(before + [line] + after, delta) == Emit(before, delta) + Emit(after, delta)
  {
    EmitAppend(before + [line], after, delta);
    assert (before + [line])[..|before|] == before;
  }

  /** Well-formed text made of whole lines is relayed line by line. */
  lemma RelayWholeLines(lines: seq<string>, extract: Extractor)
    requires lines != []
    requires forall i :: 0 <= i < |lines| ==> '\n' !in lines[i]
    ensures Relayed(Join(lines) + "\n", extract) == Emit(lines, Deltas(extract))
  {
    WholeLines(lines);
  }

  /** Text made of whole lines has exactly those lines as complete lines.
      (With no lines at all the text would be "\n", which is one empty line.) */
  lemma WholeLines(lines: seq<string>)
    requires lines != []
    requires forall i :: 0 <= i < |lines| ==> '\n' !in lines[i]
    ensures CompleteLines(Join(lines) + "\n") == lines
  {
    var framed := lines + [""];
    assert Join(lines) + "\n" == Join(framed) by {
      JoinAppend(lines, [""]);
      assert Join([""]) == "";
    }
    assert forall i :: 0 <= i < |framed| ==> '\n' !in framed[i] by {
      assert forall i :: 0 <= i < |lines| ==> framed[i] == lines[i];
    }
    SplitJoin(framed);
    assert framed[..|lines|] == lines;
  }

  /** A `data:` event line, with any whitespace around it and between the
      field name and the payload, classifies as its trimmed payload unless
      it is the sentinel. */
  lemma ClassifyDataField(p: string, q: string, d: string, r: string)
    requires AllSpace(p) && AllSpace(q) && AllSpace(r)
    requires IsTrimmed(d) && d != "" && DataField + q + d != Sentinel
    ensures Classify(p + DataField + q + d + r) == Payload(d)
  {
    var t := DataField + q + d;
    DataFieldShape(q, d);
    assert Trim(p + DataField + q + d + r) == t by {
      assert p + DataField + q + d + r == p + t + r;
      TrimPadded(p, t, r);
    }
    assert Trim(t[|DataField|..]) == d by {
      assert q + d + "" == q + d;
      TrimPadded(q, d, "");
    }
    ClassifyPayload(p + DataField + q + d + r, t);
  }

  /** The field name, whitespace and a trimmed payload form a trimmed text
      that starts with the field name and continues with the rest. */
  lemma DataFieldShape(q: string, d: string)
    requires IsTrimmed(d) && d != ""
    ensures var t := DataField + q + d;
            IsTrimmed(t) && DataField <= t && t[|DataField|..] == q + d
  {
    var t := DataField + q + d;
    assert t[0] == 'd';
    assert t[|t| - 1] == d[|d| - 1];
    assert t[..5] == DataField;
  }

  /** A line whose trimmed text starts with the field name, and is neither
      empty nor the sentinel, carries what follows the field name, trimmed. */
  lemma ClassifyPayload(line: string, t: string)
    requires Trim(line) == t && t != [] && t != Sentinel && DataField <= t
    ensures Classify(line) == Payload(Trim(t[|DataField|..]))
  {
  }

  /** The usual shape, `data: ` and a trimmed payload other than the
      sentinel's, classifies as that payload. */
  lemma ClassifyDataLine(d: string)
    requires IsTrimmed(d) && d != "" && d != "[DONE]"
    ensures Classify("data: " + d) == Payload(d)
  {
    DataSpaceLine(d);
    assert AllSpace(" ") by { assert IsSpace(' '); }
    ClassifyDataField("", " ", d, "");
  }

  /** `data: ` is the field name and one space. */
  lemma DataSpaceLine(d: string)
    requires d != "[DONE]"
    ensures "" + DataField + " " + d + "" == "data: " + d
    ensures DataField + " " + d != Sentinel
  {
    var line := "data: " + d;
    assert DataField + " " + d == line;
    assert line[6..] == d;
    assert Sentinel[6..] == "[DONE]";
  }

  /** The inner loop of the relay: handle each complete line in turn and
      write its delta, if any. */
  method WriteLines(lines: seq<string>, extract: Extractor) returns (written: seq<string>)
    ensures written == Emit(lines, Deltas(extract))
  {
    written := [];
    for j := 0 to |lines|
      invariant written == Emit(lines[..j], Deltas(extract))
    {
      assert lines[..j + 1][..j] == lines[..j];
      var t := Trim(lines[j]);
      if t == [] || t == Sentinel {
        continue;
      }
      var data := if DataField <= t then Trim(t[|DataField|..]) else t;
      var delta := extract(data);
      if delta.Some? && delta.value != "" {
        written := written + [delta.value];
      }
    }
    assert lines[..|lines|] == lines;
  }

  /** Each of the first `|marks|` chunks has its mark: the number of writes
      after which everything received up to and including it was relayed. */
  predicate Marked(chunks: seq<string>, extract: Extractor, marks: seq<nat>, written: seq<string>) {
    |marks| <= |chunks| &&
    forall k :: 0 <= k < |marks| ==>
      marks[k] <= |written| && written[..marks[k]] == Relayed(Concat(chunks[..k + 1]), extract)
  }

  /** Writing more keeps the earlier marks; the new chunk is marked at the
      end of what has been written. */
  lemma MarkChunk(chunks: seq<string>, extract: Extractor, marks: seq<nat>,
                  written: seq<string>, out: seq<string>)
    requires |marks| < |chunks| && Marked(chunks, extract, marks, written)
    requires written + out == Relayed(Concat(chunks[..|marks| + 1]), extract)
    ensures Marked(chunks, extract, marks + [|written + out|], written + out)
  {
    var w := written + out;
    forall k | 0 <= k < |marks|
      ensures w[..marks[k]] == written[..marks[k]]
    {
    }
    assert w[..|w|] == w;
  }

  /** The relay loop: read chunks until the stream ends, carrying the
      unterminated fragment over in `buffer`, and write the delta of every
      complete line. Returns what was written, the unprocessed fragment left
      in the buffer when the stream ended, and for each chunk how many writes
      had been made once it was handled: by then every complete line received
      so far has been relayed, so nothing waits for the end of the stream. */
  method RelayStream(chunks: seq<string>, extract: Extractor)
    returns (written: seq<string>, buffer: string, ghost marks: seq<nat>)
    ensures written == Relayed(Concat(chunks), extract)
    ensures buffer == Pending(Concat(chunks)) && '\n' !in buffer
    ensures |marks| == |chunks|
    ensures forall k :: 0 <= k < |marks| ==>
              marks[k] <= |written| && written[..marks[k]] == Relayed(Concat(chunks[..k + 1]), extract)
  {
    written, buffer, marks := [], "", [];
    ghost var processed: seq<string> := [];
    var i := 0;
    while i < |chunks|
      invariant 0 <= i <= |chunks|
      invariant buffer == Pending(Concat(chunks[..i]))
      invariant written == Relayed(Concat(chunks[..i]), extract)
      invariant |marks| == i && Marked(chunks, extract, marks, written)
      invariant processed == CompleteLines(Concat(chunks[..i])) && written == Emit(processed, Deltas(extract))
    {
      ghost var received := Concat(chunks[..i]);
      buffer := buffer + chunks[i];
      var lines := Split(buffer);
      buffer := lines[|lines| - 1];
      lines := lines[..|lines| - 1];
      assert lines == CompleteLines(Pending(received) + chunks[i]);
      var out := WriteLines(lines, extract);
      assert written + out == Relayed(received, extract) + Relayed(Pending(received) + chunks[i], extract);
      assert Concat(chunks[..i + 1]) == received + chunks[i] by {
        assert chunks[..i + 1][..i] == chunks[..i];
      }
      RelayAppend(received, chunks[i], extract);
      LinesAppend(received, chunks[i]);
      MarkChunk(chunks, extract, marks, written, out);
      written := written + out;
      processed := processed + lines;
      marks := marks + [|written|];
      i := i + 1;
    }
    assert chunks[..i] == chunks;
    FramingInvariant(Concat(chunks));
  }

  /** An upstream stream of two events carrying the JSON payloads `p1` and
      `p2`, with a keep-alive line, a blank line and the sentinel. */
  function ExampleLines(p1: string, p2: string): seq<string> {
    ["data: " + p1, ": keep-alive", "data: " + p2, "", Sentinel]
  }

  /** However such a stream is cut into chunks (in the middle of a line, of
      the sentinel, anywhere), the relay writes exactly the two deltas, in
      order: the keep-alive line, which does not parse, stops nothing. */
  lemma ExampleStream(chunks: seq<string>, extract: Extractor,
                      p1: string, p2: string, d1: string, d2: string)
    requires IsTrimmed(p1) && p1 != "" && p1 != "[DONE]" && '\n' !in p1
    requires IsTrimmed(p2) && p2 != "" && p2 != "[DONE]" && '\n' !in p2
    requires extract(p1) == Some(d1) && d1 != ""
    requires extract(p2) == Some(d2) && d2 != ""
    requires extract(": keep-alive") == None
    requires Concat(chunks) == Join(ExampleLines(p1, p2)) + "\n"
    ensures Relayed(Concat(chunks), extract) == [d1, d2]
  {
    ExampleLinesNewlineFree(p1, p2);
    RelayWholeLines(ExampleLines(p1, p2), extract);
    ExampleDeltas(extract, p1, p2, d1, d2);
  }

  /** No line of the example holds a newline. */
  lemma ExampleLinesNewlineFree(p1: string, p2: string)
    requires '\n' !in p1 && '\n' !in p2
    ensures var lines := ExampleLines(p1, p2);
            forall i :: 0 <= i < |lines| ==> '\n' !in lines[i]
  {
    assert '\n' !in "data: " + p1 && '\n' !in "data: " + p2;
  }

  /** The example's lines write the two deltas. */
  lemma ExampleDeltas(extract: Extractor, p1: string, p2: string, d1: string, d2: string)
    requires IsTrimmed(p1) && p1 != "" && p1 != "[DONE]"
    requires IsTrimmed(p2) && p2 != "" && p2 != "[DONE]"
    requires extract(p1) == Some(d1) && d1 != ""
    requires extract(p2) == Some(d2) && d2 != ""
    requires extract(": keep-alive") == None
    ensures Emit(ExampleLines(p1, p2), Deltas(extract)) == [d1, d2]
  {
    DataLineDelta(p1, extract, d1);
    DataLineDelta(p2, extract, d2);
    KeepAliveLine(extract);
    BlankLineDelta(extract);
    SentinelDelta(extract);
    EmitTwoOfFive(ExampleLines(p1, p2), Deltas(extract), d1, d2);
  }

  /** A `data: ` line whose payload yields a non-empty delta writes it. */
  lemma DataLineDelta(d: string, extract: Extractor, v: string)
    requires IsTrimmed(d) && d != "" && d != "[DONE]"
    requires extract(d) == Some(v) && v != ""
    ensures Deltas(extract)("data: " + d) == Some(v)
  {
    ClassifyDataLine(d);
  }

  /** An empty line writes nothing. */
  lemma BlankLineDelta(extract: Extractor)
    ensures Deltas(extract)("") == None
  {
    assert Trim("") == [];
  }

  /** The sentinel line writes nothing. */
  lemma SentinelDelta(extract: Extractor)
    ensures Deltas(extract)(Sentinel) == None
  {
    SentinelTrimmed();
  }

  /** Five lines of which the first and the third write. */
  lemma EmitTwoOfFive(lines: seq<string>, delta: LineHandler, d1: string, d2: string)
    requires |lines| == 5
    requires delta(lines[0]) == Some(d1) && delta(lines[1]) == None
    requires delta(lines[2]) == Some(d2) && delta(lines[3]) == None
    requires delta(lines[4]) == None
    ensures Emit(lines, delta) == [d1, d2]
  {
    assert Emit(lines[..1], delta) == [d1] by {
      assert lines[..1][..0] == [];
    }
    assert Emit(lines[..2], delta) == [d1] by {
      assert lines[..2][..1] == lines[..1];
    }
    assert Emit(lines[..3], delta) == [d1, d2] by {
      assert lines[..3][..2] == lines[..2];
    }
    assert Emit(lines[..4], delta) == [d1, d2] by {
      assert lines[..4][..3] == lines[..3];
    }
    assert lines[..4] == lines[..|lines| - 1];
  }

  /** The sentinel line is recognised as it stands. */
  lemma SentinelTrimmed()
    ensures Trim(Sentinel) == Sentinel
  {
    assert IsTrimmed(Sentinel) by {
      assert Sentinel[0] == 'd' && Sentinel[|Sentinel| - 1] == ']';
    }
    TrimTrimmed(Sentinel);
  }

  /** A keep-alive comment line is handed to the parser as it stands. */
  lemma KeepAliveLine(extract: Extractor)
    requires extract(": keep-alive") == None
    ensures Deltas(extract)(": keep-alive") == None
  {
    var line := ": keep-alive";
    TrimTrimmed(line);
    assert !(DataField <= line) by {
      assert line[0] != DataField[0];
    }
    assert line != Sentinel by {
      assert line[0] != Sentinel[0];
    }
    assert Classify(line) == Payload(line);
  }
}
