/** `chat_with_memories`: one retrieval-augmented generation turn. The two
    external capabilities are inputs: `memories` is what `memory.search`
    returned (the `memory` field of each result, in rank order) and
    `generated` is `response.text` of the Gemini call. The calls the
    function makes are returned as records of their arguments. */
module Chat {
  import opened Wrappers
  import opened Py
  import opened History
  import opened Prompt

  /** The default of the `user_id` parameter, used by the driver */
  const DefaultUserId := "default_user"
  /** Number of memories asked from the search */
  const SearchLimit: nat := 5
  const GenerationModel := "gemini-1.5-flash"

  datatype SearchCall = SearchCall(query: string, userId: string, limit: nat)
  datatype GenerateCall = GenerateCall(model: string, contents: seq<Turn>, systemInstruction: string)
  datatype AddCall = AddCall(messages: seq<Message>, userId: string)

  /** What one returning call of chat_with_memories did: the search it
      issued, the generation request, the history it returned and the
      write-back it issued. */
  datatype ChatTurn = ChatTurn(search: SearchCall, generate: GenerateCall, history: seq<Turn>, add: AddCall)

  /** An exception escaping chat_with_memories, together with the caller's
      list as the exception leaves it (the model entry is appended in place
      before the write-back conversion can raise) and the search and
      generation calls already issued when it was raised (none when the
      query itself could not be read). */
  datatype Crash = Crash(raised: Raised, history: seq<Turn>, search: Option<SearchCall>, generate: Option<GenerateCall>)

  function ChatWithMemories(history: seq<Turn>, userId: string, memories: seq<string>, generated: string)
    : (r: Result<ChatTurn, Crash>)
    // it returns exactly when the history is non-empty and every entry has a part
    ensures r.Success? <==> |history| > 0 && WellFormed(history)
    // retrieval: the last entry's text, the caller's user, five results
    ensures r.Success? ==> r.value.search == SearchCall(FirstText(history[|history| - 1]), userId, SearchLimit)
    // generation: the whole history before this turn, under the augmented instruction
    ensures r.Success? ==> r.value.generate == GenerateCall(GenerationModel, history, SystemInstruction(memories))
    // the history grows by one model entry, all earlier entries unchanged
    ensures r.Success? ==> r.value.history == history + [ModelTurn(generated)]
    // write-back: the same user, the whole updated history in mem0 form
    ensures r.Success? ==> r.value.add.userId == userId
    ensures r.Success? ==> ToMem0Messages(r.value.history) == Some(r.value.add.messages)
    ensures r.Success? ==> |r.value.add.messages| == |history| + 1
    ensures r.Success? ==> ToMem0Messages(history) == Some(r.value.add.messages[..|history|])
    ensures r.Success? ==> r.value.add.messages[|history|] == Message(AssistantRole, generated)
    // every failure is an IndexError from `[-1]` or `[0]`
    ensures r.Failure? ==> r.error.raised == ListIndexOutOfRange
    // reading the query raises before any call is made
    ensures r.Failure? && (|history| == 0 || |history[|history| - 1].parts| == 0) ==>
      r.error.history == history && r.error.search == None && r.error.generate == None
    // otherwise the conversion for write-back raises, after search, generation and the append
    ensures r.Failure? && |history| > 0 && |history[|history| - 1].parts| > 0 ==>
      && r.error.history == history + [ModelTurn(generated)]
      && r.error.search == Some(SearchCall(FirstText(history[|history| - 1]), userId, SearchLimit))
      && r.error.generate == Some(GenerateCall(GenerationModel, history, SystemInstruction(memories)))
  {
    if |history| == 0 || |history[|history| - 1].parts| == 0 then
      Failure(Crash(ListIndexOutOfRange, history, None, None))
    else
      var query := FirstText(history[|history| - 1]);
      var search := SearchCall(query, userId, SearchLimit);
      var generate := GenerateCall(GenerationModel, history, SystemInstruction(memories));
      var updated := history + [ModelTurn(generated)];
      match ToMem0Messages(updated)
      case None => Failure(Crash(ListIndexOutOfRange, updated, Some(search), Some(generate)))
      case Some(messages) =>
        AppendModelTurn(history, generated);
        Success(ChatTurn(search, generate, updated, AddCall(messages, userId)))
  }

  /** Converting a history with one more model entry: the old conversion
      followed by one assistant message, and defined exactly when the old
      one is. */
  lemma AppendModelTurn(history: seq<Turn>, generated: string)
    ensures WellFormed(history + [ModelTurn(generated)]) <==> WellFormed(history)
    ensures WellFormed(history) ==>
      ToMem0Messages(history + [ModelTurn(generated)]).value
        == ToMem0Messages(history).value + [Message(AssistantRole, generated)]
  {
    WellFormedAppend(history, ModelTurn(generated));
    if WellFormed(history) {
      ToMem0Append(history, [ModelTurn(generated)]);
    }
  }
}
