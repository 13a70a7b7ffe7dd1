/** Chat messages, as shared by compaction, the agent loop and token accounting. */
module Messages {
  import opened Options

  datatype Role = System | User | Assistant | Tool

  /** `input` is the JSON text of the tool input. */
  datatype ContentBlock =
    | Text(text: string)
    | ToolUse(callId: string, toolName: string, input: string)
    | ToolResult(callId: string, toolName: string, output: string, isError: bool)
    | Image(description: string)
    | Document(description: string)

  /** The text of a block. */
  function BlockText(block: ContentBlock): string {
    match block
    case Text(text) => text
    case ToolUse(_, _, input) => input
    case ToolResult(_, _, output, _) => output
    case Image(description) => description
    case Document(description) => description
  }

  datatype ChatMessage = ChatMessage(
    role: Role,
    blocks: seq<ContentBlock>,
    messageId: Option<string>,
    timestampMs: nat,
    apiUsageTokens: Option<nat>,
    reasoning: Option<string>,
    estimatedTokens: Option<nat>)

  type History = seq<ChatMessage>

  function NewMessage(role: Role, blocks: seq<ContentBlock>, messageId: Option<string>, timestampMs: nat): ChatMessage {
    ChatMessage(role, blocks, messageId, timestampMs, None, None, None)
  }

  function TextMessage(role: Role, text: string, timestampMs: nat): ChatMessage {
    NewMessage(role, [Text(text)], None, timestampMs)
  }

  /** Call ids of the tool uses (tool results) of a message, in block order. */
  function UseIds(blocks: seq<ContentBlock>): seq<string> {
    if blocks == [] then []
    else if blocks[0].ToolUse? then [blocks[0].callId] + UseIds(blocks[1..])
    else UseIds(blocks[1..])
  }

  function ResultIds(blocks: seq<ContentBlock>): seq<string> {
    if blocks == [] then []
    else if blocks[0].ToolResult? then [blocks[0].callId] + ResultIds(blocks[1..])
    else ResultIds(blocks[1..])
  }

  function Uses(m: ChatMessage): seq<string> { UseIds(m.blocks) }

  function Results(m: ChatMessage): seq<string> { ResultIds(m.blocks) }

  /** Only assistants use tools, only tool messages report results. */
  predicate RoleDiscipline(h: History) {
    forall i :: 0 <= i < |h| ==>
      (h[i].role != Assistant ==> Uses(h[i]) == []) && (h[i].role != Tool ==> Results(h[i]) == [])
  }

  /** Every tool result has its tool use in an earlier message. */
  ghost predicate ResultsFollowUses(h: History) {
    forall i, id :: 0 <= i < |h| && id in Results(h[i]) ==> UsedBefore(h, i, id)
  }

  ghost predicate UsedBefore(h: History, i: nat, id: string) {
    exists j :: 0 <= j < i && j < |h| && id in Uses(h[j])
  }

  predicate NoTools(h: History) {
    forall i :: 0 <= i < |h| ==> Uses(h[i]) == [] && Results(h[i]) == []
  }

  lemma TextHasNoTools(text: string)
    ensures UseIds([Text(text)]) == [] && ResultIds([Text(text)]) == []
  {
    assert [Text(text)][1..] == [];
  }

  /** From position `at` on, one tool message per call of `ids`, in call order. */
  predicate Answers(h: History, at: nat, ids: seq<string>) {
    && at + |ids| <= |h|
    && forall i :: at <= i < at + |ids| ==> h[i].role == Tool && Uses(h[i]) == [] && Results(h[i]) == [ids[i - at]]
  }

  /**
   The provider protocol: every message with tool uses is followed at once by exactly its
   results, in call order, and no result stands anywhere else.
   */
  predicate WellPaired(h: History)
    decreases |h|
  {
    h == [] || (Results(h[0]) == [] && Answers(h, 1, Uses(h[0])) && WellPaired(h[1 + |Uses(h[0])|..]))
  }

  lemma AnswersAppend(h: History, more: History, at: nat, ids: seq<string>)
    requires Answers(h, at, ids)
    ensures Answers(h + more, at, ids)
  {
    assert forall i :: 0 <= i < |h| ==> (h + more)[i] == h[i];
  }

  lemma {:induction false} WellPairedFirst(h: History, rest: History)
    requires h != [] && Results(h[0]) == [] && Answers(h, 1, Uses(h[0]))
    requires h[1 + |Uses(h[0])|..] == rest && WellPaired(rest)
    ensures WellPaired(h)
  {
  }

  lemma DropAppend(h: History, more: History, n: nat)
    requires 0 < n <= |h|
    ensures (h + more)[n..] == h[n..] + more && (h + more)[0] == h[0]
  {
  }

  lemma {:induction false} WellPairedAppend(h: History, more: History)
    requires WellPaired(h) && WellPaired(more)
    ensures WellPaired(h + more)
    decreases |h|
  {
    if h == [] {
      assert h + more == more;
    } else {
      var n := 1 + |Uses(h[0])|;
      WellPairedAppend(h[n..], more);
      AnswersAppend(h, more, 1, Uses(h[0]));
      DropAppend(h, more, n);
      WellPairedFirst(h + more, h[n..] + more);
    }
  }

  lemma {:induction false} NoToolsWellPaired(h: History)
    requires NoTools(h)
    ensures WellPaired(h)
    decreases |h|
  {
    if h != [] {
      NoToolsWellPaired(h[1..]);
    }
  }

  /** What follows a well-paired part of a well-paired history is well paired. */
  lemma {:induction false} WellPairedRest(h: History, more: History)
    requires WellPaired(h) && WellPaired(h + more)
    ensures WellPaired(more)
    decreases |h|
  {
    if h == [] {
      assert h + more == more;
    } else {
      var n := 1 + |Uses(h[0])|;
      assert (h + more)[0] == h[0];
      assert (h + more)[n..] == h[n..] + more;
      WellPairedRest(h[n..], more);
    }
  }
}
