/** The interactive loop of membot.py's `main`: read a line, strip it,
    stop on "exit" in any letter case, otherwise append a user entry and run
    one chat turn. Standard input and the two external capabilities are
    supplied as one `Input` per iteration. */
module Driver {
  import opened Wrappers
  import opened Py
  import opened History
  import opened Prompt
  import opened Chat

  const ExitCommand := "exit"
  const ReplyLabel := "Gemini:"

  /** One iteration's worth of the outside world: the line `input()`
      returns, what the memory search returns, and the generated text. */
  datatype Input = Input(line: string, memories: seq<string>, generated: string)

  /** `user_input.lower() == "exit"` on the stripped line */
  predicate IsExit(line: string) {
    Lower(Strip(line)) == ExitCommand
  }

  /** The exit rule spelled out: after stripping, exactly the four letters
      of "exit", each in either case. */
  lemma ExitSpellings(line: string)
    ensures IsExit(line) <==>
      var s := Strip(line);
      && |s| == 4
      && (s[0] == 'e' || s[0] == 'E')
      && (s[1] == 'x' || s[1] == 'X')
      && (s[2] == 'i' || s[2] == 'I')
      && (s[3] == 't' || s[3] == 'T')
  {
    var s := Strip(line);
    if IsExit(line) {
      assert Lower(s)[0] == 'e' && Lower(s)[1] == 'x' && Lower(s)[2] == 'i' && Lower(s)[3] == 't';
    }
    if && |s| == 4
       && (s[0] == 'e' || s[0] == 'E') && (s[1] == 'x' || s[1] == 'X')
       && (s[2] == 'i' || s[2] == 'I') && (s[3] == 't' || s[3] == 'T') {
      assert Lower(s) == ExitCommand;
    }
  }

  /** Surrounding whitespace never matters to the exit rule. */
  lemma ExitIgnoresPadding(line: string)
    ensures IsExit(line) <==> IsExit(Strip(line))
  {
    StripIdempotent(line);
  }

  datatype StepOutcome =
    | Quit
    | Continue(turn: ChatTurn, reply: string)
    | Crashed(crash: Crash)

  /** One iteration of the `while True` loop, on the history so far. */
  function Step(history: seq<Turn>, input: Input): (o: StepOutcome)
    ensures o.Quit? <==> IsExit(input.line)
    // a non-exit line always reaches the chat turn; it returns on a well-formed history
    ensures !IsExit(input.line) ==> (o.Continue? <==> WellFormed(history))
    // two entries per iteration: the stripped line (even when empty), then the reply
    ensures o.Continue? ==>
      o.turn.history == history + [UserTurn(Strip(input.line)), ModelTurn(input.generated)]
    ensures o.Continue? ==>
      o.turn.search == SearchCall(Strip(input.line), DefaultUserId, SearchLimit)
    ensures o.Continue? ==>
      o.turn.generate == GenerateCall(GenerationModel, history + [UserTurn(Strip(input.line))], SystemInstruction(input.memories))
    ensures o.Continue? ==> o.turn.add.userId == DefaultUserId
    ensures o.Continue? ==> ToMem0Messages(o.turn.history) == Some(o.turn.add.messages)
    ensures o.Continue? ==> o.reply == ReplyLabel + " " + input.generated
    // a crash comes from the write-back conversion, after the search and generation were issued
    ensures o.Crashed? ==> o.crash.search == Some(SearchCall(Strip(input.line), DefaultUserId, SearchLimit))
  {
    var text := Strip(input.line);
    if Lower(text) == ExitCommand then Quit
    else
      var asked := history + [UserTurn(text)];
      WellFormedAppend(history, UserTurn(text));
      match ChatWithMemories(asked, DefaultUserId, input.memories, input.generated)
      case Failure(c) => Crashed(c)
      case Success(t) =>
        assert asked + [ModelTurn(input.generated)] == history + [UserTurn(text), ModelTurn(input.generated)];
        Continue(t, ReplyLabel + " " + FirstText(t.history[|t.history| - 1]))
  }

  /** Why a session ended: the user typed exit, or the supplied lines ran
      out (where `input()` would raise EOFError). */
  datatype Ending = SaidExit | InputExhausted

  /** What one completed iteration did: its search, its generation request,
      its write-back and the reply line it showed. */
  datatype TurnRecord = TurnRecord(search: SearchCall, request: GenerateCall, add: AddCall, reply: string)

  /** Everything a session did: the final history, one record per completed
      iteration, and why it ended. */
  datatype Session = Session(history: seq<Turn>, turns: seq<TurnRecord>, ending: Ending)

  /** The history the driver has built after the given non-exit
      iterations: each stripped line followed by its generated reply. */
  function Transcript(inputs: seq<Input>): (h: seq<Turn>)
    ensures |h| == 2 * |inputs|
  {
    if |inputs| == 0 then []
    else
      var last := inputs[|inputs| - 1];
      Transcript(inputs[..|inputs| - 1]) + [UserTurn(Strip(last.line)), ModelTurn(last.generated)]
  }

  /** The transcript alternates: the k-th stripped line at 2k, the k-th
      generated text at 2k+1. */
  lemma {:induction false} TranscriptEntries(inputs: seq<Input>)
    ensures forall k :: 0 <= k < |inputs| ==>
      Transcript(inputs)[2 * k] == UserTurn(Strip(inputs[k].line))
      && Transcript(inputs)[2 * k + 1] == ModelTurn(inputs[k].generated)
  {
    if |inputs| > 0 {
      var init := inputs[..|inputs| - 1];
      TranscriptEntries(init);
      var last := inputs[|inputs| - 1];
      var h := Transcript(inputs);
      var h0 := Transcript(init);
      assert h == h0 + [UserTurn(Strip(last.line)), ModelTurn(last.generated)];
      forall k | 0 <= k < |inputs|
        ensures h[2 * k] == UserTurn(Strip(inputs[k].line))
        ensures h[2 * k + 1] == ModelTurn(inputs[k].generated)
      {
        if k < |init| {
          assert inputs[k] == init[k];
          assert h[2 * k] == h0[2 * k];
          assert h[2 * k + 1] == h0[2 * k + 1];
        } else {
          assert k == |init| && inputs[k] == last;
          assert h[2 * k] == UserTurn(Strip(last.line));
        }
      }
    }
  }

  /** Every entry of a transcript has its one part. */
  lemma TranscriptWellFormed(inputs: seq<Input>)
    ensures WellFormed(Transcript(inputs))
  {
    TranscriptEntries(inputs);
    var h := Transcript(inputs);
    forall i | 0 <= i < |h| ensures |h[i].parts| > 0 {
      var k := i / 2;
      if i == 2 * k {
        assert h[2 * k] == UserTurn(Strip(inputs[k].line));
      } else {
        assert h[2 * k + 1] == ModelTurn(inputs[k].generated);
      }
    }
  }

  /** The record iteration k must leave: a search with the k-th stripped
      line for the default user and limit 5; a generation request on the
      history up to and including that line, under the instruction built
      from the k-th memories; a write-back of the whole history up to and
      including the k-th reply (always defined, by TranscriptWellFormed);
      and the reply line. */
  function ExpectedRecord(inputs: seq<Input>, k: nat): TurnRecord
    requires k < |inputs|
  {
    var line := Strip(inputs[k].line);
    TurnRecord(
      SearchCall(line, DefaultUserId, SearchLimit),
      GenerateCall(GenerationModel, Transcript(inputs[..k]) + [UserTurn(line)], SystemInstruction(inputs[k].memories)),
      AddCall(ToMem0Messages(Transcript(inputs[..k + 1])).GetOr([]), DefaultUserId),
      ReplyLabel + " " + inputs[k].generated)
  }

  /** Write-back k is the mem0 form of the whole history so far: 2k+2
      messages, ending in the k-th line as a user message and the k-th
      generated text as an assistant message. */
  lemma ExpectedWriteBack(inputs: seq<Input>, k: nat)
    requires k < |inputs|
    ensures ToMem0Messages(Transcript(inputs[..k + 1])) == Some(ExpectedRecord(inputs, k).add.messages)
    ensures var msgs := ExpectedRecord(inputs, k).add.messages;
      && |msgs| == 2 * k + 2
      && msgs[2 * k] == Message(UserRole, Strip(inputs[k].line))
      && msgs[2 * k + 1] == Message(AssistantRole, inputs[k].generated)
  {
    var prefix := inputs[..k + 1];
    TranscriptWellFormed(prefix);
    TranscriptEntries(prefix);
    assert prefix[k] == inputs[k];
  }

  /** What the driver has done after k non-exit iterations. */
  ghost predicate SessionSoFar(inputs: seq<Input>, k: nat, history: seq<Turn>, turns: seq<TurnRecord>)
  {
    && k <= |inputs|
    && history == Transcript(inputs[..k])
    && |turns| == k
    && (forall j :: 0 <= j < k ==> !IsExit(inputs[j].line))
    && (forall j :: 0 <= j < k ==> turns[j] == ExpectedRecord(inputs, j))
  }

  /** A non-exit line on a driver-built history always completes a turn. */
  lemma StepContinues(inputs: seq<Input>, k: nat)
    requires k < |inputs| && !IsExit(inputs[k].line)
    ensures Step(Transcript(inputs[..k]), inputs[k]).Continue?
  {
    TranscriptWellFormed(inputs[..k]);
  }

  /** One completed iteration on the k-th line leaves exactly the expected
      record and the transcript of the first k+1 lines. */
  lemma StepExtends(inputs: seq<Input>, k: nat)
    requires k < |inputs| && !IsExit(inputs[k].line)
    ensures Step(Transcript(inputs[..k]), inputs[k]).Continue?
    ensures var o := Step(Transcript(inputs[..k]), inputs[k]);
      && o.turn.history == Transcript(inputs[..k + 1])
      && TurnRecord(o.turn.search, o.turn.generate, o.turn.add, o.reply) == ExpectedRecord(inputs, k)
  {
    StepContinues(inputs, k);
    var h := Transcript(inputs[..k]);
    var line := Strip(inputs[k].line);
    var o := Step(h, inputs[k]);
    var next := inputs[..k + 1];
    assert next[..k] == inputs[..k] && next[k] == inputs[k];
    assert Transcript(next) == h + [UserTurn(line), ModelTurn(inputs[k].generated)];
    assert o.turn.history == Transcript(next);
    var e := ExpectedRecord(inputs, k);
    assert o.turn.search == e.search;
    assert o.turn.generate == e.request;
    assert o.turn.add == e.add;
  }

  /** The record so far, extended by one more iteration. */
  lemma SessionGrows(inputs: seq<Input>, k: nat, turns: seq<TurnRecord>, r: TurnRecord)
    requires k < |inputs| && !IsExit(inputs[k].line) && r == ExpectedRecord(inputs, k)
    requires SessionSoFar(inputs, k, Transcript(inputs[..k]), turns)
    ensures SessionSoFar(inputs, k + 1, Transcript(inputs[..k + 1]), turns + [r])
  {
    var turns' := turns + [r];
    forall j | 0 <= j < k + 1 ensures !IsExit(inputs[j].line) {
    }
    forall j | 0 <= j < k + 1 ensures turns'[j] == ExpectedRecord(inputs, j) {
      if j < k {
        assert turns'[j] == turns[j];
      }
    }
  }

  /** `main`, run over the supplied lines starting from an empty history. */
  method Converse(inputs: seq<Input>) returns (s: Session)
    ensures |s.turns| <= |inputs|
    // it stops at the first exit line, or when the lines run out
    ensures s.ending == InputExhausted <==> |s.turns| == |inputs|
    ensures s.ending == SaidExit ==> IsExit(inputs[|s.turns|].line)
    ensures forall k :: 0 <= k < |s.turns| ==> !IsExit(inputs[k].line)
    // the history holds the stripped lines and the generated texts, two entries per iteration
    ensures s.history == Transcript(inputs[..|s.turns|])
    // every iteration searched, generated, wrote back and replied as expected
    ensures forall k :: 0 <= k < |s.turns| ==> s.turns[k] == ExpectedRecord(inputs, k)
  {
    var history: seq<Turn> := [];
    var turns: seq<TurnRecord> := [];
    var k := 0;
    while k < |inputs|
      invariant SessionSoFar(inputs, k, history, turns)
    {
      var o := Step(history, inputs[k]);
      if o.Quit? {
        return Session(history, turns, SaidExit);
      }
      StepExtends(inputs, k);
      SessionGrows(inputs, k, turns, TurnRecord(o.turn.search, o.turn.generate, o.turn.add, o.reply));
      turns := turns + [TurnRecord(o.turn.search, o.turn.generate, o.turn.add, o.reply)];
      history := o.turn.history;
      k := k + 1;
    }
    s := Session(history, turns, InputExhausted);
  }
}
