/**
 * The chat view's exchange state machine. A session holds the ordered
 * message list, the draft in the text area and the "assistant is typing"
 * flag. A send clears the draft, appends the user's message and an empty
 * assistant placeholder, raises the flag, and then fills the placeholder:
 * with the streamed reply as it arrives, with a fixed configuration error,
 * or with a fixed apology when the request or the stream fails. The flag
 * is lowered on every path.
 */
module Chat {
  import opened Wrappers
  import opened JsText

  /** Message ids `user-<time>` and `ai-<time>`, built from the clock reading at send time. */
  datatype Id = UserId(stamp: int) | AiId(stamp: int)

  datatype Message = Message(id: Id, content: string, isUser: bool)

  /** The placeholder's content when the backend address is not configured. */
  const ConfigErrorText: string := "Configuration error: API URL or Path not set."

  /** The placeholder's content when the request or the stream fails. */
  const ApologyText: string := "Sorry, I encountered an error. Please try again."

  /** How reading the body ends after its last chunk: the reader reports done, or a read throws. */
  datatype StreamEnd = Done | Throws

  /**
   * What the backend does with the request: `fetch` rejects, the status is
   * not OK, the body is null, or the body yields decoded chunks in order and
   * then ends.
   */
  datatype Response = FetchRejected | NotOk(status: int) | NullBody | Body(chunks: seq<string>, end: StreamEnd)

  /** The POST that is sent: the URL `<base URL><path>` and the `messages` field of its JSON body. */
  datatype Request = Request(url: string, messages: seq<Message>)

  /** `!v` for an environment value: missing or empty. */
  predicate Falsy(v: Option<string>) {
    v == None || v == Some("")
  }

  // ---------------------------------------------------------------------
  // Input handling

  /**
   * The submit guard, `!(!inputText.trim() || isAiTyping)`; the send button
   * is disabled exactly when it is false. It holds when the draft has a
   * non-whitespace character and no reply is in progress.
   */
  predicate SubmitAccepted(draft: string, typing: bool)
    ensures SubmitAccepted(draft, typing) ==> !typing && draft != []
  {
    !IsBlank(draft) && !typing
  }

  /** A send goes ahead exactly when no reply is in progress and the draft has a non-whitespace character. */
  lemma SubmitAcceptedIff(draft: string, typing: bool)
    ensures SubmitAccepted(draft, typing)
            <==> !typing && exists i :: 0 <= i < |draft| && !IsJsWhitespace(draft[i])
  {
    TrimSpec(draft);
  }

  /** `e.key === 'Enter' && !e.shiftKey`: the keys that submit instead of inserting a newline. */
  predicate SubmitsOnKey(key: string, shift: bool)
    ensures shift ==> !SubmitsOnKey(key, shift)
  {
    key == "Enter" && !shift
  }

  /** Enter alone submits; Enter with Shift, and every other key, does not. */
  lemma KeyDownCases(key: string, shift: bool)
    ensures SubmitsOnKey("Enter", false)
    ensures !SubmitsOnKey("Enter", true)
    ensures key != "Enter" ==> !SubmitsOnKey(key, shift)
  {
  }

  // ---------------------------------------------------------------------
  // The streamed reply

  /** The accumulator after the given chunks: their concatenation in order. */
  function Concat(chunks: seq<string>): (r: string)
    ensures chunks != [] ==> chunks[0] <= r
  {
    if chunks == [] then "" else chunks[0] + Concat(chunks[1..])
  }

  /** Appending one more chunk to the accumulator extends its text by exactly that chunk. */
  lemma {:induction false} ConcatAppend(chunks: seq<string>, chunk: string)
    ensures Concat(chunks + [chunk]) == Concat(chunks) + chunk
  {
    if chunks != [] {
      assert (chunks + [chunk])[1..] == chunks[1..] + [chunk];
      ConcatAppend(chunks[1..], chunk);
    }
  }

  /** While the stream runs the shown text only grows: each earlier state is a prefix of each later one. */
  lemma {:induction false} ConcatGrows(chunks: seq<string>, k: nat, j: nat)
    requires k <= j <= |chunks|
    ensures Concat(chunks[..k]) <= Concat(chunks[..j])
  {
    if k < j {
      ConcatGrows(chunks, k, j - 1);
      assert chunks[..j] == chunks[..j - 1] + [chunks[j - 1]];
      ConcatAppend(chunks[..j - 1], chunks[j - 1]);
    }
  }

  /** The chunks `"He"` and `"llo"` show `"Hello"`. */
  lemma ConcatExample()
    ensures Concat(["He", "llo"]) == "Hello"
  {
    assert ["He", "llo"][1..] == ["llo"];
  }

  // ---------------------------------------------------------------------
  // Replacing a message's content by id

  /** `prev.map(msg => msg.id === id ? { ...msg, content } : msg)`. */
  function WithContent(msgs: seq<Message>, id: Id, content: string): (r: seq<Message>)
    ensures |r| == |msgs|
  {
    if msgs == [] then []
    else [if msgs[0].id == id then msgs[0].(content := content) else msgs[0]] + WithContent(msgs[1..], id, content)
  }

  /**
   * Replacing by id works message by message: every message keeps its place,
   * id and role, and exactly those with the given id get the new content.
   */
  lemma {:induction false} WithContentAt(msgs: seq<Message>, id: Id, content: string, i: nat)
    requires i < |msgs|
    ensures WithContent(msgs, id, content)[i].id == msgs[i].id
    ensures WithContent(msgs, id, content)[i].isUser == msgs[i].isUser
    ensures WithContent(msgs, id, content)[i].content == if msgs[i].id == id then content else msgs[i].content
  {
    if i > 0 {
      WithContentAt(msgs[1..], id, content, i - 1);
    }
  }

  /** No two messages share an id. */
  ghost predicate DistinctIds(msgs: seq<Message>) {
    forall i, j :: 0 <= i < j < |msgs| ==> msgs[i].id != msgs[j].id
  }

  /** When ids are distinct, replacing by the last message's id changes the last message and nothing else. */
  lemma WithContentAtLast(msgs: seq<Message>, content: string)
    requires |msgs| > 0 && DistinctIds(msgs)
    ensures WithContent(msgs, msgs[|msgs| - 1].id, content)
            == msgs[..|msgs| - 1] + [msgs[|msgs| - 1].(content := content)]
  {
    var n := |msgs|;
    var r := WithContent(msgs, msgs[n - 1].id, content);
    var s := msgs[..n - 1] + [msgs[n - 1].(content := content)];
    forall i | 0 <= i < n
      ensures r[i] == s[i]
    {
      WithContentAt(msgs, msgs[n - 1].id, content, i);
      if i < n - 1 {
        assert msgs[i].id != msgs[n - 1].id;
      }
    }
  }

  // ---------------------------------------------------------------------
  // Whole exchanges, as values

  /** The messages are a run of exchanges: user, assistant, user, assistant, … */
  ghost predicate Paired(msgs: seq<Message>)
    decreases |msgs|
  {
    msgs == []
    || (|msgs| >= 2 && msgs[|msgs| - 2].isUser && !msgs[|msgs| - 1].isUser && Paired(msgs[..|msgs| - 2]))
  }

  /** Every id was made from a clock reading earlier than `now`. */
  ghost predicate StampsBefore(msgs: seq<Message>, now: int) {
    forall i :: 0 <= i < |msgs| ==> msgs[i].id.stamp < now
  }

  /** Changing the content of the last message keeps roles alternating and ids distinct. */
  lemma SetLastKeepsShape(msgs: seq<Message>, content: string)
    requires |msgs| > 0 && Paired(msgs) && DistinctIds(msgs)
    ensures var r := msgs[..|msgs| - 1] + [msgs[|msgs| - 1].(content := content)];
            Paired(r) && DistinctIds(r)
  {
    var r := msgs[..|msgs| - 1] + [msgs[|msgs| - 1].(content := content)];
    assert forall i :: 0 <= i < |r| ==> r[i].id == msgs[i].id && r[i].isUser == msgs[i].isUser;
    assert r[..|r| - 2] == msgs[..|msgs| - 2];
  }

  /**
   * The content the placeholder is left with: the configuration error when
   * either environment value is falsy, the whole stream when it was read to
   * its end, and the apology on every other outcome.
   */
  function FinalReply(baseUrl: Option<string>, path: Option<string>, response: Response): (reply: string)
    ensures reply == ConfigErrorText || reply == ApologyText || (response.Body? && reply == Concat(response.chunks))
    ensures Falsy(baseUrl) || Falsy(path) ==> reply == ConfigErrorText
  {
    if Falsy(baseUrl) || Falsy(path) then ConfigErrorText
    else match response
      case Body(chunks, Done) => Concat(chunks)
      case _ => ApologyText
  }

  /** The message list after one send of `draft` at time `now`. */
  function ExchangeMessages(history: seq<Message>, draft: string, now: int,
                            baseUrl: Option<string>, path: Option<string>, response: Response): (r: seq<Message>)
    ensures IsBlank(draft) <==> |r| == |history|
    ensures |r| <= |history| + 2
  {
    if IsBlank(draft) then history
    else history + [Message(UserId(now), draft, true)] + [Message(AiId(now), FinalReply(baseUrl, path, response), false)]
  }

  /** The request one send of `draft` issues, if any. */
  function ExchangeRequest(history: seq<Message>, draft: string, now: int,
                           baseUrl: Option<string>, path: Option<string>): (r: Option<Request>)
    ensures r.Some? ==> !IsBlank(draft) && |r.value.messages| == |history| + 1
  {
    if IsBlank(draft) || Falsy(baseUrl) || Falsy(path) then None
    else Some(Request(baseUrl.value + path.value, history + [Message(UserId(now), draft, true)]))
  }

  /**
   * A send of a blank draft changes nothing; any other send keeps the
   * earlier messages in order and appends exactly two: the user's draft,
   * untrimmed, then the assistant's reply.
   */
  lemma ExchangeAppendsPair(history: seq<Message>, draft: string, now: int,
                            baseUrl: Option<string>, path: Option<string>, response: Response)
    ensures IsBlank(draft) ==> ExchangeMessages(history, draft, now, baseUrl, path, response) == history
    ensures !IsBlank(draft) ==>
      var r := ExchangeMessages(history, draft, now, baseUrl, path, response);
      |r| == |history| + 2 && r[..|history|] == history
      && r[|history|] == Message(UserId(now), draft, true)
      && !r[|history| + 1].isUser && r[|history| + 1].id == AiId(now)
      && r[|history| + 1].content == FinalReply(baseUrl, path, response)
  {
  }

  /**
   * The request, when there is one, carries every earlier message and the
   * new user message, but not the placeholder: it is the new message list
   * without its last entry. There is none when the configuration is missing.
   */
  lemma RequestExcludesPlaceholder(history: seq<Message>, draft: string, now: int,
                                   baseUrl: Option<string>, path: Option<string>, response: Response)
    ensures ExchangeRequest(history, draft, now, baseUrl, path).Some?
            <==> !IsBlank(draft) && !Falsy(baseUrl) && !Falsy(path)
    ensures ExchangeRequest(history, draft, now, baseUrl, path).Some? ==>
      var r := ExchangeMessages(history, draft, now, baseUrl, path, response);
      ExchangeRequest(history, draft, now, baseUrl, path).value.messages == r[..|r| - 1]
  {
  }

  /**
   * Appending a user message and an assistant message stamped `now` keeps
   * the session's shape: alternating roles and distinct ids, given a clock
   * that has moved past every earlier stamp.
   */
  lemma AppendPairKeepsShape(history: seq<Message>, draft: string, reply: string, now: int)
    requires Paired(history) && DistinctIds(history) && StampsBefore(history, now)
    ensures var r := history + [Message(UserId(now), draft, true)] + [Message(AiId(now), reply, false)];
            Paired(r) && DistinctIds(r) && StampsBefore(r, now + 1)
  {
    var r := history + [Message(UserId(now), draft, true)] + [Message(AiId(now), reply, false)];
    var n := |history|;
    assert r[..n] == history;
    forall i, j | 0 <= i < j < |r|
      ensures r[i].id != r[j].id
    {
      if j >= n && i < n {
        assert r[i].id.stamp < now;
      }
    }
  }

  /** Every exchange keeps the session's shape, whatever its outcome. */
  lemma ExchangeKeepsShape(history: seq<Message>, draft: string, now: int,
                           baseUrl: Option<string>, path: Option<string>, response: Response)
    requires Paired(history) && DistinctIds(history) && StampsBefore(history, now)
    ensures var r := ExchangeMessages(history, draft, now, baseUrl, path, response);
            Paired(r) && DistinctIds(r) && StampsBefore(r, now + 1)
  {
    if !IsBlank(draft) {
      AppendPairKeepsShape(history, draft, FinalReply(baseUrl, path, response), now);
    }
  }

  // ---------------------------------------------------------------------
  // The session

  /** Where the current exchange is: no exchange, streaming, failed, or stopped by missing configuration. */
  datatype Phase = Idle | Streaming | Failed | ConfigFailed

  class ChatSession {
    var messages: seq<Message>
    var inputText: string
    var isAiTyping: bool

    // The exchange's own variables: `aiMessageId` and the accumulator `streamedContent`.
    var aiMessageId: Id
    var streamedContent: string
    ghost var received: seq<string>
    ghost var phase: Phase

    ghost predicate Valid()
      reads this
    {
      Paired(messages) && DistinctIds(messages)
      && (isAiTyping <==> phase == Streaming || phase == Failed)
      && (phase != Idle ==> |messages| >= 2 && messages[|messages| - 1].id == aiMessageId)
      && (phase == Streaming ==>
            streamedContent == Concat(received) && messages[|messages| - 1].content == streamedContent)
      && (phase == Failed ==> messages[|messages| - 1].content == ApologyText)
      && (phase == ConfigFailed ==> messages[|messages| - 1].content == ConfigErrorText)
    }

    /** A fresh chat page: no messages, an empty draft, nobody typing. */
    constructor ()
      ensures Valid() && phase == Idle
      ensures messages == [] && inputText == "" && !isAiTyping
    {
      messages := [];
      inputText := "";
      isAiTyping := false;
      aiMessageId := AiId(0);
      streamedContent := "";
      received := [];
      phase := Idle;
    }

    /** The send button's `disabled`: the submit guard refuses. */
    predicate SendDisabled()
      reads this
      ensures inputText == [] ==> SendDisabled()
    {
      !SubmitAccepted(inputText, isAiTyping)
    }

    /** The text area's `disabled`: a reply is in progress. */
    predicate InputDisabled()
      reads this
      ensures InputDisabled() ==> SendDisabled()
    {
      isAiTyping
    }

    /**
     * The text area is disabled exactly while a reply is in progress, and
     * the send button is disabled then too.
     */
    lemma DisabledWhileReplying()
      requires Valid()
      ensures InputDisabled() <==> phase == Streaming || phase == Failed
      ensures InputDisabled() ==> SendDisabled()
    {
    }

    /** The text area's `onChange`: the draft becomes what was typed. */
    method Edit(text: string)
      requires Valid()
      modifies this
      ensures Valid() && inputText == text
      ensures messages == old(messages) && isAiTyping == old(isAiTyping) && phase == old(phase)
      ensures aiMessageId == old(aiMessageId) && streamedContent == old(streamedContent) && received == old(received)
    {
      inputText := text;
    }

    /**
     * The synchronous start of a send. A blank draft or a reply in progress
     * leaves everything as it was and sends nothing. Otherwise the draft is
     * cleared, the untrimmed draft is appended as a user message and an empty
     * placeholder after it, the flag is raised, and the payload is every
     * earlier message plus the new user message.
     */
    method Submit(now: int) returns (payload: Option<seq<Message>>)
      requires Valid() && phase != ConfigFailed && StampsBefore(messages, now)
      modifies this
      ensures Valid()
      ensures payload.Some? <==> !old(SendDisabled())
      ensures payload.None? ==>
        messages == old(messages) && inputText == old(inputText) && isAiTyping == old(isAiTyping)
        && phase == old(phase) && aiMessageId == old(aiMessageId)
        && streamedContent == old(streamedContent) && received == old(received)
      ensures payload.Some? ==>
        inputText == "" && isAiTyping && phase == Streaming && received == [] && aiMessageId == AiId(now)
        && payload.value == old(messages) + [Message(UserId(now), old(inputText), true)]
        && messages == payload.value + [Message(AiId(now), "", false)]
    {
      if !SubmitAccepted(inputText, isAiTyping) {
        return None;
      }
      var currentInputText := inputText;
      inputText := "";
      var userMessage := Message(UserId(now), currentInputText, true);
      var messagesToSend := messages + [userMessage];
      AppendPairKeepsShape(messages, currentInputText, "", now);
      aiMessageId := AiId(now);
      messages := messagesToSend + [Message(aiMessageId, "", false)];
      isAiTyping := true;
      streamedContent := "";
      received := [];
      phase := Streaming;
      payload := Some(messagesToSend);
    }

    /** Missing configuration: the placeholder shows the configuration error and the flag is lowered at once. */
    method ConfigMissing()
      requires Valid() && phase == Streaming && received == []
      modifies this
      ensures Valid() && phase == ConfigFailed && !isAiTyping
      ensures messages == old(messages)[..|old(messages)| - 1]
                          + [old(messages)[|old(messages)| - 1].(content := ConfigErrorText)]
      ensures inputText == old(inputText) && aiMessageId == old(aiMessageId)
    {
      WithContentAtLast(messages, ConfigErrorText);
      SetLastKeepsShape(messages, ConfigErrorText);
      messages := WithContent(messages, aiMessageId, ConfigErrorText);
      isAiTyping := false;
      phase := ConfigFailed;
    }

    /**
     * One decoded chunk arrives: it is appended to the accumulator and the
     * placeholder's content becomes the whole accumulator, so it equals the
     * concatenation of every chunk so far. No other message changes.
     */
    method ReceiveChunk(chunk: string)
      requires Valid() && phase == Streaming
      modifies this
      ensures Valid() && phase == Streaming && isAiTyping
      ensures received == old(received) + [chunk]
      ensures streamedContent == Concat(received) == old(streamedContent) + chunk
      ensures messages == old(messages)[..|old(messages)| - 1]
                          + [old(messages)[|old(messages)| - 1].(content := Concat(received))]
      ensures inputText == old(inputText) && aiMessageId == old(aiMessageId)
    {
      ConcatAppend(received, chunk);
      received := received + [chunk];
      streamedContent := streamedContent + chunk;
      assert streamedContent == Concat(received);
      WithContentAtLast(messages, streamedContent);
      SetLastKeepsShape(messages, streamedContent);
      messages := WithContent(messages, aiMessageId, streamedContent);
      assert messages[|messages| - 1].content == streamedContent;
    }

    /** The `catch` block: the placeholder shows the apology, and whatever was streamed so far is dropped. */
    method Fail()
      requires Valid() && phase == Streaming
      modifies this
      ensures Valid() && phase == Failed && isAiTyping
      ensures messages == old(messages)[..|old(messages)| - 1]
                          + [old(messages)[|old(messages)| - 1].(content := ApologyText)]
      ensures inputText == old(inputText) && aiMessageId == old(aiMessageId)
    {
      WithContentAtLast(messages, ApologyText);
      SetLastKeepsShape(messages, ApologyText);
      messages := WithContent(messages, aiMessageId, ApologyText);
      phase := Failed;
    }

    /** The `finally` block: the flag is lowered and the exchange is over; no message changes. */
    method Finish()
      requires Valid() && phase != Idle
      modifies this
      ensures Valid() && phase == Idle && !isAiTyping
      ensures messages == old(messages) && inputText == old(inputText)
    {
      isAiTyping := false;
      phase := Idle;
    }

    /**
     * The read loop over an OK body: every chunk read before the end goes
     * through `ReceiveChunk`. When the reader reports done the placeholder
     * holds the whole stream; when a read throws, `failed` is set and the
     * `catch` block takes over.
     */
    method ReadBody(chunks: seq<string>, end: StreamEnd) returns (failed: bool)
      requires Valid() && phase == Streaming && received == []
      modifies this
      ensures Valid() && phase == Streaming && received == chunks
      ensures failed <==> end == Throws
      ensures messages == old(messages)[..|old(messages)| - 1]
                          + [old(messages)[|old(messages)| - 1].(content := Concat(chunks))]
      ensures inputText == old(inputText) && aiMessageId == old(aiMessageId)
    {
      ghost var before := messages[..|messages| - 1];
      ghost var placeholder := messages[|messages| - 1];
      var done := false;
      var k := 0;
      failed := false;
      while !done && !failed
        invariant 0 <= k <= |chunks|
        invariant done ==> k == |chunks| && end == Done
        invariant failed ==> k == |chunks| && end == Throws
        invariant Valid() && phase == Streaming && received == chunks[..k]
        invariant inputText == old(inputText) && aiMessageId == old(aiMessageId)
        invariant messages == before + [placeholder.(content := Concat(chunks[..k]))]
        decreases |chunks| - k, if done || failed then 0 else 1
      {
        if k < |chunks| {
          // `reader.read()` yields a value and `done: false`
          assert chunks[..k + 1] == chunks[..k] + [chunks[k]];
          ReceiveChunk(chunks[k]);
          k := k + 1;
        } else if end == Done {
          // `reader.read()` yields `done: true`
          done := true;
        } else {
          // `reader.read()` throws
          failed := true;
        }
      }
      assert chunks[..k] == chunks;
    }

    /**
     * The `try`/`catch`/`finally` of a send, once the placeholder is in
     * place: the placeholder ends with `FinalReply`, the flag is down, and
     * a request for the messages before the placeholder is sent unless the
     * configuration is missing.
     */
    method Respond(baseUrl: Option<string>, path: Option<string>, response: Response)
      returns (request: Option<Request>)
      requires Valid() && phase == Streaming && received == []
      modifies this
      ensures Valid() && phase == Idle && !isAiTyping
      ensures messages == old(messages)[..|old(messages)| - 1]
                          + [old(messages)[|old(messages)| - 1].(content := FinalReply(baseUrl, path, response))]
      ensures request == if Falsy(baseUrl) || Falsy(path) then None
                         else Some(Request(baseUrl.value + path.value, old(messages)[..|old(messages)| - 1]))
      ensures inputText == old(inputText)
    {
      if Falsy(baseUrl) || Falsy(path) {
        ConfigMissing();
        Finish();
        return None;
      }
      request := Some(Request(baseUrl.value + path.value, messages[..|messages| - 1]));
      var failed := true;
      match response {
        case FetchRejected =>
        case NotOk(_) =>
        case NullBody =>
        case Body(chunks, end) =>
          failed := ReadBody(chunks, end);
      }
      if failed {
        Fail();
      }
      Finish();
    }

    /**
     * `handleSendMessage`, run to the end of its exchange: the message list
     * and the request are those of `ExchangeMessages` and `ExchangeRequest`,
     * the draft is cleared unless it was blank, and the flag is down.
     */
    method SendMessage(now: int, baseUrl: Option<string>, path: Option<string>, response: Response)
      returns (request: Option<Request>)
      requires Valid() && phase == Idle && StampsBefore(messages, now)
      modifies this
      ensures Valid() && phase == Idle && !isAiTyping
      ensures messages == ExchangeMessages(old(messages), old(inputText), now, baseUrl, path, response)
      ensures request == ExchangeRequest(old(messages), old(inputText), now, baseUrl, path)
      ensures inputText == if IsBlank(old(inputText)) then old(inputText) else ""
    {
      var payload := Submit(now);
      if payload.None? {
        assert IsBlank(old(inputText));
        return None;
      }
      assert !IsBlank(old(inputText));
      assert messages[..|messages| - 1] == payload.value;
      request := Respond(baseUrl, path, response);
    }

    /**
     * `handleKeyDown`: Enter without Shift runs a whole send; any other key
     * leaves the session as it was (the text area then inserts the newline
     * through `Edit`).
     */
    method KeyDown(key: string, shift: bool, now: int, baseUrl: Option<string>, path: Option<string>, response: Response)
      returns (request: Option<Request>)
      requires Valid() && phase == Idle && StampsBefore(messages, now)
      modifies this
      ensures Valid() && phase == Idle && !isAiTyping
      ensures SubmitsOnKey(key, shift) ==>
        messages == ExchangeMessages(old(messages), old(inputText), now, baseUrl, path, response)
        && request == ExchangeRequest(old(messages), old(inputText), now, baseUrl, path)
        && inputText == (if IsBlank(old(inputText)) then old(inputText) else "")
      ensures !SubmitsOnKey(key, shift) ==>
        messages == old(messages) && inputText == old(inputText) && request == None
    {
      if SubmitsOnKey(key, shift) {
        request := SendMessage(now, baseUrl, path, response);
      } else {
        request := None;
      }
    }
  }
}
