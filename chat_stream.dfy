/** What the chat widget reads out of the response body: the body arrives as a list of
    text chunks; each chunk is split on '\n' on its own (no partial line is carried over
    to the next chunk); a line counts only if it starts with "data: "; a payload that
    trims to "[DONE]" ends the current chunk only; every other payload goes through the
    JSON parser, and each payload that parses contributes its delta text. */
module ChatStream {
  import opened Wrappers
  import opened Strings

  const DataPrefix: string := "data: "
  const DoneSentinel: string := "[DONE]"

  /** The part of a parsed frame the widget reads: `choices[0]?.delta?.content`. */
  datatype Delta = Delta(content: Option<string>)

  /** `data.choices[0]?.delta?.content || ''`: a missing or empty content reads as ''. */
  function DeltaText(d: Delta): string {
    match d.content
    case Some(text) => text
    case None => ""
  }

  /** The JSON parser as the widget uses it: None when `JSON.parse` throws or `choices` is
      missing (both land in the same catch), otherwise the delta record. */
  type Parser = string -> Option<Delta>

  predicate IsDataLine(line: string) {
    StartsWith(line, DataPrefix)
  }

  /** `line.substring(6)`. */
  function Payload(line: string): (p: string)
    requires IsDataLine(line)
    ensures line == DataPrefix + p
  {
    line[|DataPrefix|..]
  }

  /** A data line whose payload trims to the sentinel. */
  predicate IsDoneLine(line: string) {
    IsDataLine(line) && Trim(Payload(line)) == DoneSentinel
  }

  /** What one line of a chunk is to the reader. */
  datatype LineKind =
    | Ignored              // no "data: " prefix, or a payload the parser rejects
    | Done                 // a payload that trims to the sentinel
    | Frame(text: string)  // a parsed frame and its delta text

  /** How the reader treats one line: only "data: " lines are considered, their payload is
      the line without its first six characters, the sentinel is recognised after trimming,
      and any other payload goes through the parser. */
  function Classify(line: string, parse: Parser): (k: LineKind)
    ensures !IsDataLine(line) ==> k == Ignored
    ensures k == Done <==> IsDoneLine(line)
    ensures k.Frame? <==> IsDataLine(line) && !IsDoneLine(line) && parse(Payload(line)).Some?
    ensures k.Frame? ==> k.text == DeltaText(parse(Payload(line)).value)
  {
    if !IsDataLine(line) then Ignored
    else if IsDoneLine(line) then Done
    else match parse(Payload(line))
      case Some(d) => Frame(DeltaText(d))
      case None => Ignored
  }

  /** `Classify` on each line, in order. */
  function ClassifyAll(lines: seq<string>, parse: Parser): (kinds: seq<LineKind>)
    ensures |kinds| == |lines|
  {
    if lines == [] then [] else [Classify(lines[0], parse)] + ClassifyAll(lines[1..], parse)
  }

  /** The kind of the i-th line is the classification of that line. */
  lemma {:induction false} ClassifyAllAt(lines: seq<string>, parse: Parser, i: nat)
    requires i < |lines|
    ensures ClassifyAll(lines, parse)[i] == Classify(lines[i], parse)
  {
    if i > 0 {
      ClassifyAllAt(lines[1..], parse, i - 1);
    }
  }

  /** The delta texts of the lines of one chunk, up to the first sentinel. */
  function KindDeltas(kinds: seq<LineKind>): (r: seq<string>)
    ensures |r| <= |kinds|
  {
    if kinds == [] || kinds[0] == Done then []
    else (if kinds[0].Frame? then [kinds[0].text] else []) + KindDeltas(kinds[1..])
  }

  /** The delta texts of one chunk, split on '\n' by itself. */
  function ChunkDeltas(chunk: string, parse: Parser): (r: seq<string>)
    ensures |r| <= Count(chunk, '\n') + 1
  {
    KindDeltas(ClassifyAll(Split(chunk, '\n'), parse))
  }

  /** The delta texts of a whole body, chunk after chunk. */
  function StreamDeltas(chunks: seq<string>, parse: Parser): seq<string> {
    if chunks == [] then []
    else StreamDeltas(chunks[..|chunks| - 1], parse) + ChunkDeltas(chunks[|chunks| - 1], parse)
  }

  /** The accumulator after a list of deltas: their concatenation, in order, no separator. */
  function Concat(ds: seq<string>): string {
    if ds == [] then [] else Concat(ds[..|ds| - 1]) + ds[|ds| - 1]
  }

  /** The contents written into the placeholder, one after each parsed frame. */
  function Snapshots(ds: seq<string>): (r: seq<string>)
    ensures |r| == |ds|
    ensures ds != [] ==> r[|r| - 1] == Concat(ds)
  {
    if ds == [] then [] else Snapshots(ds[..|ds| - 1]) + [Concat(ds)]
  }

  /** `data: <payload>` followed by the blank separator line, for each payload in turn. */
  function EncodeFrames(payloads: seq<string>): string {
    if payloads == [] then []
    else DataPrefix + payloads[0] + "\n\n" + EncodeFrames(payloads[1..])
  }

  /** The accumulator stays empty exactly when every delta is empty. */
  lemma {:induction false} ConcatEmptyIff(ds: seq<string>)
    ensures Concat(ds) == [] <==> forall i :: 0 <= i < |ds| ==> ds[i] == []
  {
    if ds != [] {
      var init := ds[..|ds| - 1];
      ConcatEmptyIff(init);
      assert forall i :: 0 <= i < |init| ==> init[i] == ds[i];
    }
  }

  lemma {:induction false} ConcatAppend(a: seq<string>, b: seq<string>)
    ensures Concat(a + b) == Concat(a) + Concat(b)
  {
    if b == [] {
      assert a + b == a;
    } else {
      var init, last := b[..|b| - 1], b[|b| - 1];
      var ab := a + b;
      assert ab[..|ab| - 1] == a + init && ab[|ab| - 1] == last;
      ConcatAppend(a, init);
      ConcatLast(ab);
      ConcatLast(b);
    }
  }

  /** Unfolds `Concat` at its last delta (a hint for the solver). */
  lemma ConcatLast(ds: seq<string>)
    requires ds != []
    ensures Concat(ds) == Concat(ds[..|ds| - 1]) + ds[|ds| - 1]
  {
  }

  /** Reading a body in two parts gives the deltas of the first part, then those of the
      second: a sentinel in one chunk does not stop the chunks after it. */
  lemma {:induction false} StreamDeltasAppend(a: seq<string>, b: seq<string>, parse: Parser)
    ensures StreamDeltas(a + b, parse) == StreamDeltas(a, parse) + StreamDeltas(b, parse)
  {
    if b == [] {
      assert a + b == a;
    } else {
      var init, last := b[..|b| - 1], b[|b| - 1];
      var ab := a + b;
      assert ab[..|ab| - 1] == a + init && ab[|ab| - 1] == last;
      StreamDeltasAppend(a, init, parse);
      StreamDeltasLast(ab, parse);
      StreamDeltasLast(b, parse);
      AppendAssoc(StreamDeltas(a, parse), StreamDeltas(init, parse), ChunkDeltas(last, parse));
    }
  }

  /** The last chunk of a body is read after all the others: an unfolding of
      `StreamDeltas`, kept apart as a hint for the solver. */
  lemma StreamDeltasLast(chunks: seq<string>, parse: Parser)
    requires chunks != []
    ensures StreamDeltas(chunks, parse)
         == StreamDeltas(chunks[..|chunks| - 1], parse) + ChunkDeltas(chunks[|chunks| - 1], parse)
  {
  }

  /** The lines of a chunk read in two parts: the second part is reached only when the
      first holds no sentinel. */
  lemma {:induction false} KindDeltasAppend(a: seq<LineKind>, b: seq<LineKind>)
    ensures KindDeltas(a + b) == if Done in a then KindDeltas(a) else KindDeltas(a) + KindDeltas(b)
  {
    if a == [] {
      assert a + b == b;
    } else {
      var head, tail := a[0], a[1..];
      var ab := a + b;
      assert ab[0] == head && ab[1..] == tail + b;
      assert a == [head] + tail;
      KindDeltasAppend(tail, b);
      if head != Done {
        var piece := if head.Frame? then [head.text] else [];
        assert KindDeltas(ab) == piece + KindDeltas(tail + b);
        assert KindDeltas(a) == piece + KindDeltas(tail);
        AppendAssoc(piece, KindDeltas(tail), KindDeltas(b));
      }
    }
  }

  /** The sentinel contributes nothing and the lines after it in the same chunk are
      skipped. */
  lemma DoneEndsChunk(kinds: seq<LineKind>, j: nat)
    requires j < |kinds| && kinds[j] == Done
    ensures KindDeltas(kinds) == KindDeltas(kinds[..j])
  {
    KindDeltasAppend(kinds[..j], kinds[j..]);
    assert kinds[..j] + kinds[j..] == kinds;
    assert kinds[j..][0] == Done;
  }

  /** A line the reader ignores (a malformed payload, a blank line, a comment) leaves the
      result as if it were absent: the accumulator is unchanged and reading goes on. */
  lemma IgnoredLineSkipped(pre: seq<LineKind>, post: seq<LineKind>)
    ensures KindDeltas(pre + [Ignored] + post) == KindDeltas(pre + post)
  {
    KindDeltasAppend(pre, [Ignored] + post);
    KindDeltasAppend(pre, post);
    assert pre + [Ignored] + post == pre + ([Ignored] + post);
    assert ([Ignored] + post)[1..] == post;
  }

  /** One step of the reader: the deltas of the first j + 1 lines of a chunk with no
      sentinel among its first j lines. */
  lemma KindDeltasStep(kinds: seq<LineKind>, j: nat)
    requires j < |kinds| && forall i :: 0 <= i < j ==> kinds[i] != Done
    ensures kinds[j] != Done ==>
      KindDeltas(kinds[..j + 1]) == KindDeltas(kinds[..j]) + (if kinds[j].Frame? then [kinds[j].text] else [])
    ensures kinds[j] != Done ==> forall i :: 0 <= i < j + 1 ==> kinds[i] != Done
  {
    assert Done !in kinds[..j];
    assert kinds[..j + 1] == kinds[..j] + [kinds[j]];
    KindDeltasAppend(kinds[..j], [kinds[j]]);
  }

  /** A "data: " line whose payload is not the sentinel is read through the parser. */
  lemma ClassifyDataLine(payload: string, parse: Parser)
    requires Trim(payload) != DoneSentinel
    ensures Classify(DataPrefix + payload, parse)
         == match parse(payload) case Some(d) => Frame(DeltaText(d)) case None => Ignored
  {
    var line := DataPrefix + payload;
    assert line[..|DataPrefix|] == DataPrefix && Payload(line) == payload;
  }

  /** A line that ends with '\n' and holds no other newline splits into the line and an
      empty remainder, before whatever follows. */
  lemma SplitLine(line: string, rest: string)
    requires '\n' !in line
    ensures Split(line + "\n" + rest, '\n') == [line] + Split(rest, '\n')
  {
    assert line + "\n" + rest == line + ['\n'] + rest;
    SplitAppend(line, rest, '\n');
    SplitWithoutSeparator(line, '\n');
  }

  /** A payload without newlines gives a frame line without newlines. */
  lemma DataLineHasNoNewline(payload: string)
    requires '\n' !in payload
    ensures '\n' !in DataPrefix + payload
  {
    assert forall k :: 0 <= k < |DataPrefix + payload| ==>
      (DataPrefix + payload)[k] == if k < |DataPrefix| then DataPrefix[k] else payload[k - |DataPrefix|];
  }

  /** One encoded frame at the front of a chunk contributes its delta, then the rest of
      the chunk is read. */
  lemma EncodedFrameStep(payload: string, rest: string, parse: Parser)
    requires '\n' !in payload && Trim(payload) != DoneSentinel && parse(payload).Some?
    ensures ChunkDeltas(DataPrefix + payload + "\n\n" + rest, parse)
         == [DeltaText(parse(payload).value)] + ChunkDeltas(rest, parse)
  {
    var line := DataPrefix + payload;
    DataLineHasNoNewline(payload);
    SplitLine(line, "\n" + rest);
    SplitLine([], rest);
    assert DataPrefix + payload + "\n\n" + rest == line + "\n" + ("\n" + rest);
    assert "\n" + rest == [] + "\n" + rest;
    var restLines := Split(rest, '\n');
    var lines := [line] + ([[]] + restLines);
    assert Split(DataPrefix + payload + "\n\n" + rest, '\n') == lines;
    ClassifyDataLine(payload, parse);
    assert lines[1..] == [[]] + restLines && ([[]] + restLines)[1..] == restLines;
    var tailKinds := [Ignored] + ClassifyAll(restLines, parse);
    assert ClassifyAll([[]] + restLines, parse) == tailKinds;
    var kinds := ClassifyAll(lines, parse);
    assert kinds == [Frame(DeltaText(parse(payload).value))] + tailKinds;
    assert kinds[1..] == tailKinds && tailKinds[1..] == ClassifyAll(restLines, parse);
    assert KindDeltas(tailKinds) == KindDeltas(ClassifyAll(restLines, parse));
    assert KindDeltas(kinds) == [DeltaText(parse(payload).value)] + KindDeltas(tailKinds);
  }

  /** Frames encoded one after the other in one chunk yield exactly their delta texts,
      so the final content is their concatenation in order. */
  lemma {:induction false} EncodedFramesYieldDeltas(payloads: seq<string>, texts: seq<string>, parse: Parser)
    requires |payloads| == |texts|
    requires forall i :: 0 <= i < |payloads| ==> '\n' !in payloads[i] && Trim(payloads[i]) != DoneSentinel
    requires forall i :: 0 <= i < |payloads| ==> parse(payloads[i]).Some? && DeltaText(parse(payloads[i]).value) == texts[i]
    ensures ChunkDeltas(EncodeFrames(payloads), parse) == texts
    ensures Concat(ChunkDeltas(EncodeFrames(payloads), parse)) == Concat(texts)
  {
    if payloads == [] {
      assert EncodeFrames(payloads) == [] && texts == [];
      assert Split([], '\n') == [[]];
      assert ClassifyAll([[]], parse) == [Ignored];
      assert KindDeltas([Ignored]) == [];
    } else {
      EncodedFrameStep(payloads[0], EncodeFrames(payloads[1..]), parse);
      EncodedFramesYieldDeltas(payloads[1..], texts[1..], parse);
      assert texts == [texts[0]] + texts[1..];
    }
  }

  /** A chunk holding one line, with or without its newline, is read as that line. */
  lemma OneLineChunk(line: string, parse: Parser)
    requires '\n' !in line
    ensures ChunkDeltas(line, parse) == KindDeltas([Classify(line, parse)])
    ensures ChunkDeltas(line + "\n", parse) == KindDeltas([Classify(line, parse)])
  {
    SplitWithoutSeparator(line, '\n');
    SplitLine(line, []);
    assert line + "\n" == line + "\n" + [];
    assert Split([], '\n') == [[]];
    var k := Classify(line, parse);
    assert ClassifyAll([line], parse) == [k];
    assert Split(line + "\n", '\n') == [line, []];
    assert ClassifyAll([line, []], parse) == [k, Ignored];
    assert KindDeltas([k, Ignored]) == KindDeltas([k]) by {
      KindDeltasAppend([k], [Ignored]);
      assert KindDeltas([Ignored]) == [];
    }
  }

  /** A whole frame line in a chunk of its own contributes its delta. */
  lemma WholeFrameRead(payload: string, parse: Parser)
    requires '\n' !in payload && Trim(payload) != DoneSentinel && parse(payload).Some?
    ensures StreamDeltas([DataPrefix + payload + "\n"], parse) == [DeltaText(parse(payload).value)]
  {
    DataLineHasNoNewline(payload);
    ClassifyDataLine(payload, parse);
    OneLineChunk(DataPrefix + payload, parse);
    SingleChunk(DataPrefix + payload + "\n", parse);
  }

  /** The two halves of a frame cut by a chunk boundary contribute nothing. */
  lemma CutFrameIgnored(first: string, second: string, parse: Parser)
    requires '\n' !in first && '\n' !in second
    requires Trim(first) != DoneSentinel && parse(first) == None
    requires !StartsWith(second, DataPrefix)
    ensures StreamDeltas([DataPrefix + first, second + "\n"], parse) == []
  {
    var a := DataPrefix + first;
    DataLineHasNoNewline(first);
    ClassifyDataLine(first, parse);
    OneLineChunk(a, parse);
    OneLineChunk(second, parse);
    assert ChunkDeltas(a, parse) == [] && ChunkDeltas(second + "\n", parse) == [];
    StreamDeltasAppend([a], [second + "\n"], parse);
    SingleChunk(a, parse);
    SingleChunk(second + "\n", parse);
  }

  /** A frame cut in two by a chunk boundary is lost: the first half fails to parse and the
      second half does not start with the prefix, whereas the whole frame in one chunk
      would have contributed its delta. */
  lemma SplitFrameLost(first: string, second: string, parse: Parser)
    requires '\n' !in first && '\n' !in second
    requires Trim(first) != DoneSentinel && parse(first) == None
    requires !StartsWith(second, DataPrefix)
    requires Trim(first + second) != DoneSentinel && parse(first + second).Some?
    ensures StreamDeltas([DataPrefix + first, second + "\n"], parse) == []
    ensures StreamDeltas([DataPrefix + first + second + "\n"], parse) == [DeltaText(parse(first + second).value)]
  {
    assert '\n' !in first + second by {
      assert forall k :: 0 <= k < |first + second| ==>
        (first + second)[k] == if k < |first| then first[k] else second[k - |first|];
    }
    CutFrameIgnored(first, second, parse);
    WholeFrameRead(first + second, parse);
    assert DataPrefix + first + second + "\n" == DataPrefix + (first + second) + "\n";
  }

  lemma SingleChunk(chunk: string, parse: Parser)
    ensures StreamDeltas([chunk], parse) == ChunkDeltas(chunk, parse)
  {
    assert [chunk][..0] == [];
  }

  /** Associativity of `+`, stated for the solver at the points where it needs it. */
  lemma AppendAssoc(a: seq<string>, b: seq<string>, c: seq<string>)
    ensures (a + b) + c == a + (b + c)
  {
  }

  /** One more parsed frame extends the accumulator by its text and records the new
      accumulator as the next placeholder content. */
  lemma AppendDelta(ds: seq<string>, d: string)
    ensures Concat(ds + [d]) == Concat(ds) + d
    ensures Snapshots(ds + [d]) == Snapshots(ds) + [Concat(ds) + d]
  {
    assert (ds + [d])[..|ds|] == ds;
  }

  /** The placeholder gets one content per parsed frame: the i-th is the accumulator after
      the first i + 1 frames. */
  lemma {:induction false} SnapshotsAt(ds: seq<string>)
    ensures |Snapshots(ds)| == |ds|
    ensures forall i :: 0 <= i < |ds| ==> Snapshots(ds)[i] == Concat(ds[..i + 1])
  {
    if ds != [] {
      var init := ds[..|ds| - 1];
      SnapshotsAt(init);
      var snaps := Snapshots(ds);
      assert snaps == Snapshots(init) + [Concat(ds)];
      forall i | 0 <= i < |ds| ensures snaps[i] == Concat(ds[..i + 1]) {
        if i < |init| {
          assert init[..i + 1] == ds[..i + 1];
        } else {
          assert ds[..i + 1] == ds;
        }
      }
    }
  }

  /** The placeholder only grows: one content per parsed frame, each one extending the one
      before, the last one being the final accumulator. */
  lemma SnapshotsGrow(ds: seq<string>)
    ensures |Snapshots(ds)| == |ds|
    ensures forall i :: 0 <= i < |ds| ==> Snapshots(ds)[i] == Concat(ds[..i + 1])
    ensures forall i, j :: 0 <= i <= j < |ds| ==> Snapshots(ds)[i] <= Snapshots(ds)[j]
  {
    SnapshotsAt(ds);
    forall i, j | 0 <= i <= j < |ds| ensures Snapshots(ds)[i] <= Snapshots(ds)[j] {
      assert ds[..j + 1] == ds[..i + 1] + ds[i + 1..j + 1];
      ConcatAppend(ds[..i + 1], ds[i + 1..j + 1]);
    }
  }
}
