/** Assembly of the system instruction in `chat_with_memories`: the fixed
    persona, a "User Memories" header, and one "- " bullet line per
    retrieved memory. */
module Prompt {
  import opened Wrappers
  import opened Py

  const SystemPrompt := "You are a helpful AI. Answer based on the query and stored memories."
  const MemoriesHeader := "\n\nUser Memories:\n"

  /** What every system instruction starts with */
  const Preamble := SystemPrompt + MemoriesHeader

  function Bullet(memory: string): string {
    "- " + memory
  }

  function Bullets(memories: seq<string>): (r: seq<string>)
    ensures |r| == |memories|
    ensures forall i :: 0 <= i < |memories| ==> r[i] == Bullet(memories[i])
  {
    seq(|memories|, i requires 0 <= i < |memories| => Bullet(memories[i]))
  }

  /** `"\n".join(f"- {m}" for m in results)` */
  function MemoriesBlock(memories: seq<string>): string {
    Join("\n", Bullets(memories))
  }

  /** No memory spans several lines. */
  predicate SingleLines(memories: seq<string>) {
    forall i :: 0 <= i < |memories| ==> '\n' !in memories[i]
  }

  /** The system instruction handed to the generator: persona, header, then
      one "- " line per memory, in rank order (possibly none). */
  function SystemInstruction(memories: seq<string>): (r: string)
    ensures |Preamble| <= |r| && r[..|Preamble|] == Preamble
    ensures |memories| == 0 <==> r == Preamble
    ensures |memories| > 0 && SingleLines(memories) ==> Split(r[|Preamble|..], '\n') == Bullets(memories)
  {
    JoinStartsWithFirst("\n", Bullets(memories));
    BulletLines(memories);
    Preamble + MemoriesBlock(memories)
  }

  /** The instruction for every list of memories, multi-line ones included:
      one memory gives the preamble and its bullet, and each further memory
      adds a line break and its bullet. */
  lemma InstructionGrows(memories: seq<string>, m: string)
    ensures SystemInstruction([m]) == Preamble + "- " + m
    ensures |memories| > 0 ==> SystemInstruction(memories + [m]) == SystemInstruction(memories) + "\n- " + m
  {
    assert Bullets([m]) == ["- " + m];
    if |memories| > 0 {
      assert Bullets(memories + [m]) == Bullets(memories) + [Bullet(m)];
      JoinSnoc("\n", Bullets(memories), Bullet(m));
    }
  }

  lemma JoinStartsWithFirst(sep: string, xs: seq<string>)
    ensures |xs| > 0 ==> |Join(sep, xs)| >= |xs[0]|
  {
  }

  /** The lines of the memories block are exactly the bullets. */
  lemma BulletLines(memories: seq<string>)
    ensures |memories| > 0 && SingleLines(memories) ==> Split(MemoriesBlock(memories), '\n') == Bullets(memories)
  {
    if |memories| > 0 && SingleLines(memories) {
      var bs := Bullets(memories);
      forall i | 0 <= i < |bs| ensures '\n' !in bs[i] {
        assert bs[i] == "- " + memories[i];
      }
      SplitJoin(bs, '\n');
      assert "\n" == ['\n'];
    }
  }

  /** Reading an instruction back: check the preamble, split the rest into
      lines and require and drop each line's "- ". */
  predicate IsBullet(line: string) {
    |line| >= 2 && line[..2] == "- "
  }

  function ParseMemoriesBlock(block: string): (r: Option<seq<string>>)
    ensures r.Some? && block != "" ==> |r.value| == |Split(block, '\n')|
  {
    if block == "" then Some([])
    else
      var lines := Split(block, '\n');
      if forall i :: 0 <= i < |lines| ==> IsBullet(lines[i]) then
        Some(seq(|lines|, i requires 0 <= i < |lines| && IsBullet(lines[i]) => lines[i][2..]))
      else None
  }

  function ParseInstruction(s: string): Option<seq<string>> {
    if |Preamble| <= |s| && s[..|Preamble|] == Preamble then ParseMemoriesBlock(s[|Preamble|..])
    else None
  }

  /** A line without its bullet is not a memory line. */
  lemma UnbulletedLineRejected(s: string)
    requires s != "" && '\n' !in s && !IsBullet(s)
    ensures ParseInstruction(Preamble + s) == None
  {
    assert (Preamble + s)[..|Preamble|] == Preamble;
    assert (Preamble + s)[|Preamble|..] == s;
    var lines := Split(s, '\n');
    assert lines == [s] && !IsBullet(lines[0]);
    assert ParseMemoriesBlock(s) == None;
  }

  /** The instruction carries the retrieved memories exactly, in order and
      without loss, as long as no memory spans several lines. */
  lemma InstructionRoundTrip(memories: seq<string>)
    requires SingleLines(memories)
    ensures ParseInstruction(SystemInstruction(memories)) == Some(memories)
  {
    var s := SystemInstruction(memories);
    assert s[|Preamble|..] == MemoriesBlock(memories);
    if |memories| > 0 {
      var bs := Bullets(memories);
      BulletLines(memories);
      JoinStartsWithFirst("\n", bs);
      assert MemoriesBlock(memories) != "";
      forall i | 0 <= i < |bs| ensures IsBullet(bs[i]) && bs[i][2..] == memories[i] {
        assert bs[i] == "- " + memories[i];
      }
      var parsed := ParseMemoriesBlock(MemoriesBlock(memories));
      assert parsed.Some?;
      assert parsed.value == memories;
      assert ParseInstruction(s) == parsed;
    }
  }
}
