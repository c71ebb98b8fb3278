/**
 * The conversion as the source runs it: nested loops that push into growing arrays and update the
 * sets of pending and answered ids. Each method is proved against the fold in BedrockConversion.
 */
module BedrockConversionCode {
  import opened Options
  import opened BedrockMessages
  import opened BedrockSanitizer
  import opened BedrockSanitizerCode
  import opened BedrockConversion
  import Strings

  method CollectAnsweredToolUseIds(ms: seq<Request>) returns (answered: set<string>)
    ensures answered == AnsweredIds(ms)
  {
    answered := {};
    for i := 0 to |ms|
      invariant answered == AnsweredIds(ms[..i])
    {
      assert ms[..i + 1][..i] == ms[..i];
      var m := ms[i];
      if m.Request? {
        if m.role == "tool" && m.toolCallId.key.Some? {
          answered := answered + {m.toolCallId.key.value};
        }
        var inParts := CollectFromParts(PartsOf(m.content));
        answered := answered + inParts;
      }
    }
    assert ms[..|ms|] == ms;
  }

  method CollectFromParts(parts: seq<Part>) returns (answered: set<string>)
    ensures answered == AnswersInParts(parts)
  {
    answered := {};
    for k := 0 to |parts|
      invariant answered == AnswersInParts(parts[..k])
    {
      assert parts[..k + 1][..k] == parts[..k];
      var p := parts[k];
      if p.ToolResultPart? && p.resultId.key.Some? {
        answered := answered + {p.resultId.key.value};
      }
    }
    assert parts[..|parts|] == parts;
  }

  lemma PartsTake(parts: seq<Part>, k: nat, skip: set<string>, answered: set<string>,
                  supply: Supply, drawn: nat)
    requires k < |parts|
    ensures PartsBlocks(parts[..k + 1], skip, answered, supply, drawn)
            == PartsBlocks(parts[..k], skip, answered, supply, drawn)
               + PartBlocks(parts[k], skip, answered, supply, drawn + DrawsOf(parts[..k]))
    ensures DrawsOf(parts[..k + 1]) == DrawsOf(parts[..k]) + Draws(parts[k])
  {
    assert parts[..k + 1][..k] == parts[..k];
  }

  method TextBlocksFromParts(parts: seq<Part>, skip: set<string>, answered: set<string>,
                             supply: Supply, drawn: nat)
    returns (blocks: seq<Block>, used: nat)
    ensures blocks == PartsBlocks(parts, skip, answered, supply, drawn)
    ensures used == drawn + DrawsOf(parts)
  {
    blocks, used := [], drawn;
    for k := 0 to |parts|
      invariant blocks == PartsBlocks(parts[..k], skip, answered, supply, drawn)
      invariant used == drawn + DrawsOf(parts[..k])
    {
      PartsTake(parts, k, skip, answered, supply, drawn);
      blocks := blocks + PartBlocks(parts[k], skip, answered, supply, used);
      used := used + Draws(parts[k]);
    }
    assert parts[..|parts|] == parts;
  }

  method TextBlocksFromContent(content: Content, skip: set<string>, answered: set<string>,
                               supply: Supply, drawn: nat)
    returns (blocks: seq<Block>, used: nat)
    ensures blocks == ContentBlocks(content, skip, answered, supply, drawn)
    ensures used == drawn + DrawsOf(PartsOf(content))
  {
    blocks, used := [], drawn;
    match content
    case StringContent(text) =>
      if !Strings.IsBlank(text) {
        blocks := [Text(text)];
      }
    case PartsContent(parts) =>
      blocks, used := TextBlocksFromParts(parts, skip, answered, supply, drawn);
    case OtherContent =>
  }

  /** The loop over `tool_calls`: a pending or unanswered id is skipped, every other becomes a block. */
  method PushToolCalls(s: CallState, calls: seq<ToolCall>, answered: set<string>, supply: Supply)
    returns (t: CallState)
    ensures t == AddCalls(s, calls, answered, supply)
  {
    var content, pendingToolUseIds, drawn := s.blocks, s.pending, s.drawn;
    for k := 0 to |calls|
      invariant CallState(content, pendingToolUseIds, drawn) == AddCalls(s, calls[..k], answered, supply)
    {
      assert calls[..k + 1][..k] == calls[..k];
      var call := calls[k];
      var toolUseId;
      if call.id.key.Some? {
        toolUseId := call.id.key.value;
      } else {
        toolUseId := supply(drawn);
        drawn := drawn + 1;
      }
      if toolUseId !in pendingToolUseIds && toolUseId in answered {
        pendingToolUseIds := pendingToolUseIds + {toolUseId};
        var name := if call.name == "" then "unknown_tool" else call.name;
        content := content + [ToolUse(Trimmed(toolUseId), name, call.input)];
      }
    }
    assert calls[..|calls|] == calls;
    t := CallState(content, pendingToolUseIds, drawn);
  }

  /** One round of the main loop: the message that is pushed, if any, and the updated sets. */
  method ConvertOne(st: State, m: Request, supply: Supply) returns (pushed: seq<Msg>, next: State)
    ensures next == Step(st, m, supply) && next.out == st.out + pushed && |pushed| <= 1
  {
    pushed, next := [], st;
    if Converts(m) {
      if m.role == "tool" {
        next := ToolMessage(st, m, supply);
        pushed := [next.out[|st.out|]];
      } else {
        var toolCallIds := CallIds(m.toolCalls);
        var blocks, used := TextBlocksFromContent(m.content, toolCallIds, st.answered, supply, st.drawn);
        var s := PushToolCalls(CallState(blocks, st.pending, used), m.toolCalls, st.answered, supply);
        pushed := [Msg(RoleOf(m.role), NonEmpty(s.blocks))];
        next := State(st.out + pushed, s.pending, st.answered, s.drawn);
      }
    }
  }

  ghost predicate FreshMessages(ms: seq<Message>, views: seq<Msg>)
    reads ms
  {
    AllDistinct(ms) && Shows(ms, views)
  }

  method PushAll(converted: seq<Message>, ghost views: seq<Msg>, pushed: seq<Msg>) returns (r: seq<Message>)
    requires FreshMessages(converted, views) && |pushed| <= 1
    ensures FreshMessages(r, views + pushed)
    ensures forall k :: 0 <= k < |r| ==> r[k] in converted || fresh(r[k])
  {
    r := converted;
    if pushed != [] {
      var message := new Message(pushed[0].role, pushed[0].content);
      assert pushed == [message.View()];
      r := converted + [message];
    }
  }

  method ConvertMessages(ms: seq<Request>, supply: Supply) returns (converted: seq<Message>)
    ensures FreshMessages(converted, Convert(ms, supply))
    ensures forall k :: 0 <= k < |converted| ==> fresh(converted[k])
  {
    converted := [];
    var answered := CollectAnsweredToolUseIds(ms);
    var st := State([], {}, answered, 0);
    for i := 0 to |ms|
      invariant st == Run(Start(ms), ms[..i], supply)
      invariant FreshMessages(converted, st.out)
      invariant forall k :: 0 <= k < |converted| ==> fresh(converted[k])
    {
      assert ms[..i + 1][..i] == ms[..i];
      var pushed, next := ConvertOne(st, ms[i], supply);
      converted := PushAll(converted, st.out, pushed);
      st := next;
    }
    assert ms[..|ms|] == ms;
    if converted == [] {
      converted := PushAll([], [], [Msg(User, [PLACEHOLDER])]);
      assert [] + [Msg(User, [PLACEHOLDER])] == [Msg(User, [PLACEHOLDER])];
    }
  }

  /** The whole translation: convert, then sanitise the converted objects in place. */
  method MessagesFromOpenAI(ms: seq<Request>, supply: Supply) returns (out: seq<Message>)
    ensures Shows(out, BedrockConversion.MessagesFromOpenAI(ms, supply))
    ensures forall k :: 0 <= k < |out| ==> fresh(out[k])
  {
    var converted := ConvertMessages(ms, supply);
    assert Views(converted) == Convert(ms, supply);
    out := SanitizeBedrockToolPairs(converted);
  }
}
