/** The chat widget: its conversation, its input box and its loading flag, and the submit
    handler that posts the query, reads the streamed reply chunk by chunk and writes the
    growing reply into the placeholder message. */
module Chatbot {
  import opened Wrappers
  import opened Strings
  import opened Conversation
  import opened ChatStream

  /** The POST body the widget sends: `{query, history}`. */
  datatype ChatRequest = ChatRequest(query: string, history: seq<Message>)

  /** How the response body ends: the reader reports `done`, or a read throws. */
  datatype BodyEnd = Ended | ReadFailed

  /** What `fetch` yields: a thrown network error, or a response with its `ok` flag and its
      body as the text chunks `reader.read()` hands out, followed by how the body ends. */
  datatype HttpOutcome =
    | NetworkError
    | HttpResponse(ok: bool, chunks: seq<string>, end: BodyEnd)

  /** The exchange completes without reaching the catch block. */
  predicate Succeeds(outcome: HttpOutcome) {
    outcome.HttpResponse? && outcome.ok && outcome.end == Ended
  }

  /** The contents written into the last message, in order: one per parsed frame, then the
      apology if the exchange failed. A non-ok status fails before any chunk is read. */
  function Shown(outcome: HttpOutcome, parse: Parser): seq<string> {
    match outcome
    case NetworkError => [Apology]
    case HttpResponse(ok, chunks, end) =>
      if !ok then [Apology]
      else Snapshots(StreamDeltas(chunks, parse)) + (if end == ReadFailed then [Apology] else [])
  }

  /** The content the placeholder is left with. */
  function FinalContent(outcome: HttpOutcome, parse: Parser): string {
    if Succeeds(outcome) then Concat(StreamDeltas(outcome.chunks, parse)) else Apology
  }

  /** The last content written into the placeholder is the content it is left with; when
      nothing was written it keeps its initial empty content, which is then also the final
      content. */
  lemma LastShownIsFinal(outcome: HttpOutcome, parse: Parser)
    ensures Shown(outcome, parse) == [] ==> FinalContent(outcome, parse) == ""
    ensures Shown(outcome, parse) != [] ==>
      Shown(outcome, parse)[|Shown(outcome, parse)| - 1] == FinalContent(outcome, parse)
  {
    if outcome.HttpResponse? && outcome.ok {
      var ds := StreamDeltas(outcome.chunks, parse);
      SnapshotsGrow(ds);
      if ds != [] {
        assert ds[..|ds|] == ds;
      }
    }
  }

  /** A chunk without parsed frames leaves the conversation as it was: `ReadChunk` writes
      the accumulator into the last message, and when the chunk adds no delta that is the
      content the message already holds. */
  lemma NoDeltasKeepMessages(ms: seq<Message>, ds: seq<string>, chunk: string, parse: Parser)
    requires ms != [] && ms[|ms| - 1].content == Concat(ds)
    requires ChunkDeltas(chunk, parse) == []
    ensures WithLastContent(ms, Concat(ds + ChunkDeltas(chunk, parse))) == ms
    ensures Snapshots(ds + ChunkDeltas(chunk, parse)) == Snapshots(ds)
  {
    assert ds + ChunkDeltas(chunk, parse) == ds;
    WithLastContentSame(ms);
  }

  class ChatState {
    var messages: seq<Message>
    var currentMessage: string
    var loading: bool

    constructor(initial: seq<Message>)
      ensures messages == initial && currentMessage == "" && !loading
    {
      messages := initial;
      currentMessage := "";
      loading := false;
    }

    /** The synchronous part of the handler: the input guard, the user message and the empty
        placeholder, the cleared input, the loading flag, and the request it posts, whose
        history is the conversation as it was before the submit, without the greeting. */
    method Send() returns (request: Option<ChatRequest>)
      modifies this
      ensures Trim(old(currentMessage)) == [] || old(loading) ==>
        && request == None
        && messages == old(messages) && currentMessage == old(currentMessage) && loading == old(loading)
      ensures !(Trim(old(currentMessage)) == [] || old(loading)) ==>
        && request == Some(ChatRequest(old(currentMessage), OutgoingHistory(old(messages))))
        && messages == old(messages) + [Message(User, old(currentMessage)), Message(Assistant, "")]
        && currentMessage == "" && loading
    {
      if Trim(currentMessage) == [] || loading {
        return None;
      }
      var query := currentMessage;
      request := Some(ChatRequest(query, OutgoingHistory(messages)));
      messages := messages + [Message(User, query), Message(Assistant, "")];
      currentMessage := "";
      loading := true;
    }

    /** One line of a chunk: a "data: " line either is the sentinel, which ends the chunk,
        or goes through the parser; after a parsed frame the accumulated text is written
        into the last message. Any other line changes nothing. */
    method ReadLine(line: string, parse: Parser, ghost kind: LineKind,
                    ghost ds: seq<string>, acc: string, shown: seq<string>)
      returns (done: bool, ghost ds': seq<string>, acc': string, shown': seq<string>)
      requires kind == Classify(line, parse)
      requires messages != [] && acc == Concat(ds) && shown == Snapshots(ds)
      modifies this`messages
      ensures done <==> kind == Done
      ensures kind.Frame? ==> ds' == ds + [kind.text] && messages == WithLastContent(old(messages), acc')
      ensures !kind.Frame? ==> ds' == ds && messages == old(messages)
      ensures acc' == Concat(ds') && shown' == Snapshots(ds')
    {
      done, ds', acc', shown' := false, ds, acc, shown;
      if StartsWith(line, DataPrefix) {
        var dataStr := line[6..];
        assert dataStr == Payload(line);
        if Trim(dataStr) == DoneSentinel {
          return true, ds', acc', shown';
        }
        match parse(dataStr)
        case Some(d) =>
          AppendDelta(ds, DeltaText(d));
          acc' := acc + DeltaText(d);
          ds' := ds + [DeltaText(d)];
          messages := messages[|messages| - 1 := messages[|messages| - 1].(content := acc')];
          shown' := shown + [acc'];
        case None =>
      }
    }

    /** One chunk of the body: split on '\n' by itself, its lines read in order until the
        sentinel. */
    method ReadChunk(chunk: string, parse: Parser, ghost ds: seq<string>, acc: string, shown: seq<string>)
      returns (ghost ds': seq<string>, acc': string, shown': seq<string>)
      requires messages != [] && acc == Concat(ds) && shown == Snapshots(ds)
      requires messages[|messages| - 1].content == acc
      modifies this`messages
      ensures ds' == ds + ChunkDeltas(chunk, parse)
      ensures acc' == Concat(ds') && shown' == Snapshots(ds')
      ensures messages == WithLastContent(old(messages), acc')
    {
      var lines := Split(chunk, '\n');
      ghost var kinds := ClassifyAll(lines, parse);
      ds', acc', shown' := ds, acc, shown;
      WithLastContentSame(messages);
      var j := 0;
      while j < |lines|
        invariant 0 <= j <= |lines|
        invariant forall i :: 0 <= i < j ==> kinds[i] != Done
        invariant ds' == ds + KindDeltas(kinds[..j])
        invariant acc' == Concat(ds') && shown' == Snapshots(ds')
        invariant messages == WithLastContent(old(messages), acc')
      {
        ghost var dsBefore, accBefore := ds', acc';
        ClassifyAllAt(lines, parse, j);
        var done;
        done, ds', acc', shown' := ReadLine(lines[j], parse, kinds[j], ds', acc', shown');
        if kinds[j].Frame? {
          WithLastContentTwice(old(messages), accBefore, acc');
        }
        KindDeltasStep(kinds, j);
        if done {
          DoneEndsChunk(kinds, j);
          break;
        }
        ghost var piece := if kinds[j].Frame? then [kinds[j].text] else [];
        assert ds' == ds + KindDeltas(kinds[..j + 1]) by {
          AppendAssoc(ds, KindDeltas(kinds[..j]), piece);
        }
        j := j + 1;
      }
      assert ds' == ds + KindDeltas(kinds) by {
        if j == |lines| {
          assert kinds[..j] == kinds;
        }
      }
    }

    /** The `while (true)` loop over `reader.read()`: every chunk in turn, the accumulator
        carried from one chunk to the next. The placeholder ends holding the concatenated
        deltas of the whole body, and one content is written per parsed frame. */
    method ReadBody(chunks: seq<string>, parse: Parser) returns (acc: string, shown: seq<string>)
      requires messages != [] && messages[|messages| - 1].content == ""
      modifies this`messages
      ensures acc == Concat(StreamDeltas(chunks, parse)) && shown == Snapshots(StreamDeltas(chunks, parse))
      ensures messages == WithLastContent(old(messages), acc)
    {
      acc, shown := "", [];
      ghost var ds: seq<string> := [];
      WithLastContentSame(messages);
      var i := 0;
      while i < |chunks|
        invariant 0 <= i <= |chunks|
        invariant ds == StreamDeltas(chunks[..i], parse)
        invariant acc == Concat(ds) && shown == Snapshots(ds)
        invariant messages == WithLastContent(old(messages), acc)
      {
        ds, acc, shown := ReadChunk(chunks[i], parse, ds, acc, shown);
        assert chunks[..i + 1][..i] == chunks[..i];
        i := i + 1;
      }
      assert chunks[..|chunks|] == chunks;
    }

    /** The asynchronous part: read the body chunk by chunk and after every parsed frame
        overwrite the placeholder with the accumulated text; on a thrown error overwrite it
        with the apology instead. On success the callback, when there is one, receives the
        query and the reply. */
    method Receive(query: string, outcome: HttpOutcome, parse: Parser, hasCallback: bool)
      returns (shown: seq<string>, notified: Option<string>)
      requires messages != [] && messages[|messages| - 1] == Message(Assistant, "")
      modifies this
      ensures messages == WithLastContent(old(messages), FinalContent(outcome, parse))
      ensures shown == Shown(outcome, parse)
      ensures notified == if hasCallback && Succeeds(outcome)
                          then Some(query + " " + FinalContent(outcome, parse)) else None
      ensures !loading && currentMessage == old(currentMessage)
    {
      shown, notified := [], None;
      var failed := true;
      var acc := "";
      if outcome.HttpResponse? && outcome.ok {
        acc, shown := ReadBody(outcome.chunks, parse);
        failed := outcome.end == ReadFailed;
      }
      if failed {
        messages := WithLastContent(messages, Apology);
        if outcome.HttpResponse? && outcome.ok {
          WithLastContentTwice(old(messages), acc, Apology);
        }
        shown := shown + [Apology];
      } else if hasCallback {
        notified := Some(query + " " + acc);
      }
      loading := false;
    }

    /** `handleSubmit`: the guard, then the whole exchange. A rejected submit changes
        nothing; an accepted one appends exactly the user message and the assistant
        message, whose content is the streamed reply or the apology. */
    method HandleSubmit(outcome: HttpOutcome, parse: Parser, hasCallback: bool)
      returns (request: Option<ChatRequest>, shown: seq<string>, notified: Option<string>)
      modifies this
      ensures request == None <==> Trim(old(currentMessage)) == [] || old(loading)
      ensures request == None ==>
        && messages == old(messages) && currentMessage == old(currentMessage) && loading == old(loading)
        && shown == [] && notified == None
      ensures request.Some? ==>
        && request.value == ChatRequest(old(currentMessage), OutgoingHistory(old(messages)))
        && messages == old(messages) + [Message(User, old(currentMessage)),
                                        Message(Assistant, FinalContent(outcome, parse))]
        && currentMessage == "" && !loading
        && shown == Shown(outcome, parse)
        && notified == if hasCallback && Succeeds(outcome)
                       then Some(old(currentMessage) + " " + FinalContent(outcome, parse)) else None
    {
      ghost var query := currentMessage;
      request := Send();
      shown, notified := [], None;
      if request.Some? {
        shown, notified := Receive(request.value.query, outcome, parse, hasCallback);
      }
    }
  }
}
