/** The two message shapes of membot.py: the Gemini-style history entry
    `{"role": r, "parts": [{"text": t}, ...]}` and the mem0 message
    `{"role": "user"|"assistant", "content": t}`, and the adapter
    `to_mem0_messages` between them. */
module History {
  import opened Wrappers

  datatype Part = Part(text: string)

  /** One Gemini-style history entry. The role is free text: the driver
      writes "user" and "model". */
  datatype Turn = Turn(role: string, parts: seq<Part>)

  /** One mem0 message */
  datatype Message = Message(role: string, content: string)

  const UserRole := "user"
  const ModelRole := "model"
  const AssistantRole := "assistant"

  function UserTurn(text: string): Turn {
    Turn(UserRole, [Part(text)])
  }

  function ModelTurn(text: string): Turn {
    Turn(ModelRole, [Part(text)])
  }

  /** The text of an entry's first part, `item["parts"][0]["text"]` */
  function FirstText(t: Turn): string
    requires |t.parts| > 0
  {
    t.parts[0].text
  }

  /** Every entry has a first part, so `item["parts"][0]` never raises. */
  predicate WellFormed(history: seq<Turn>) {
    forall i :: 0 <= i < |history| ==> |history[i].parts| > 0
  }

  /** Role mapping: "user" stays "user", any other role becomes "assistant". */
  function MemoryRole(role: string): (r: string)
    ensures r == UserRole || r == AssistantRole
    ensures r == UserRole <==> role == UserRole
  {
    if role == UserRole then UserRole else AssistantRole
  }

  /** `to_mem0_messages(history)`. None stands for the IndexError raised by
      `item["parts"][0]` on an entry without parts. */
  function ToMem0Messages(history: seq<Turn>): (r: Option<seq<Message>>)
    ensures r.Some? <==> WellFormed(history)
    ensures r.Some? ==> |r.value| == |history|
    ensures r.Some? ==> forall i :: 0 <= i < |history| ==>
      r.value[i] == Message(MemoryRole(history[i].role), history[i].parts[0].text)
  {
    if |history| == 0 then Some([])
    else if |history[0].parts| == 0 then None
    else match ToMem0Messages(history[1..])
      case None => None
      case Some(rest) =>
        Some([Message(MemoryRole(history[0].role), FirstText(history[0]))] + rest)
  }

  /** Appending keeps a history well formed exactly when the new entry has a part. */
  lemma WellFormedAppend(history: seq<Turn>, t: Turn)
    ensures WellFormed(history + [t]) <==> WellFormed(history) && |t.parts| > 0
  {
    var h := history + [t];
    assert h[|history|] == t;
    if WellFormed(h) {
      forall i | 0 <= i < |history| ensures |history[i].parts| > 0 {
        assert h[i] == history[i];
      }
    }
  }

  /** The adapter distributes over appending: converting a longer history
      converts the old prefix the same way as before. */
  lemma {:induction false} ToMem0Append(history: seq<Turn>, more: seq<Turn>)
    requires WellFormed(history) && WellFormed(more)
    ensures WellFormed(history + more)
    ensures ToMem0Messages(history + more).value
         == ToMem0Messages(history).value + ToMem0Messages(more).value
  {
    var h := history + more;
    assert WellFormed(h) by {
      forall i | 0 <= i < |h| ensures |h[i].parts| > 0 {
        if i >= |history| {
          assert h[i] == more[i - |history|];
        }
      }
    }
    var l := ToMem0Messages(history).value + ToMem0Messages(more).value;
    assert ToMem0Messages(h).value == l by {
      forall i | 0 <= i < |h| ensures ToMem0Messages(h).value[i] == l[i] {
        if i >= |history| {
          assert h[i] == more[i - |history|];
        }
      }
    }
  }

  /** History entries whose shape survives the trip through mem0: a role
      the driver writes and exactly one part. */
  predicate IsDriverTurn(t: Turn) {
    (t.role == UserRole || t.role == ModelRole) && |t.parts| == 1
  }

  /** The inverse direction: a mem0 message back to a history entry. */
  function FromMessage(m: Message): (t: Turn)
    ensures |t.parts| == 1 && t.parts[0].text == m.content
    ensures t.role == UserRole <==> m.role == UserRole
  {
    if m.role == UserRole then UserTurn(m.content) else ModelTurn(m.content)
  }

  function FromMem0Messages(msgs: seq<Message>): (h: seq<Turn>)
    ensures |h| == |msgs|
    ensures forall i :: 0 <= i < |msgs| ==> h[i] == FromMessage(msgs[i])
  {
    seq(|msgs|, i requires 0 <= i < |msgs| => FromMessage(msgs[i]))
  }

  lemma TurnRoundTrip(t: Turn)
    requires IsDriverTurn(t)
    ensures FromMessage(Message(MemoryRole(t.role), FirstText(t))) == t
  {
    assert t.parts == [Part(FirstText(t))];
  }

  /** History -> mem0 -> history is the identity on histories built by the
      driver: nothing but the first part's text and the user/model
      distinction is ever carried, and nothing else is lost. */
  lemma HistoryRoundTrip(history: seq<Turn>)
    requires forall i :: 0 <= i < |history| ==> IsDriverTurn(history[i])
    ensures ToMem0Messages(history).Some?
    ensures FromMem0Messages(ToMem0Messages(history).value) == history
  {
    var msgs := ToMem0Messages(history).value;
    var back := FromMem0Messages(msgs);
    forall i | 0 <= i < |history| ensures back[i] == history[i] {
      TurnRoundTrip(history[i]);
    }
  }

  /** mem0 -> history -> mem0 is the identity on messages whose role is
      "user" or "assistant". */
  lemma MessagesRoundTrip(msgs: seq<Message>)
    requires forall i :: 0 <= i < |msgs| ==> msgs[i].role == UserRole || msgs[i].role == AssistantRole
    ensures ToMem0Messages(FromMem0Messages(msgs)) == Some(msgs)
  {
    var h := FromMem0Messages(msgs);
    assert WellFormed(h);
    var again := ToMem0Messages(h).value;
    forall i | 0 <= i < |msgs| ensures again[i] == msgs[i] {
      assert h[i] == FromMessage(msgs[i]);
    }
    assert again == msgs;
  }
}
