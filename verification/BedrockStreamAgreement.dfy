/** The streamed and the non-streamed translation of one answer agree. */
module BedrockStreamAgreement {
  import opened Integers
  import opened Options
  import opened BedrockStream

  // ---------------------------------------------------------------- the client's side

  function AddChunk(r: Reading, c: Chunk): Reading {
    match c
    case ContentChunk(text) => r.(text := r.text + text)
    case ReasoningChunk(reasoning) => r.(reasoning := r.reasoning + reasoning)
    case ToolChunk(index, id, name) =>
      if index == |r.toolCalls| then r.(toolCalls := r.toolCalls + [ToolCall(id, name, "")])
      else if index < |r.toolCalls| then r.(toolCalls := r.toolCalls[index := ToolCall(id, name, "")])
      else r
    case ArgumentsChunk(index, arguments) =>
      if index < |r.toolCalls| then r.(toolCalls := Extend(r.toolCalls, index, arguments)) else r
    case _ => r
  }

  function Extend(calls: seq<ToolCall>, index: nat, arguments: string): seq<ToolCall>
    requires index < |calls|
  {
    calls[index := calls[index].(arguments := calls[index].arguments + arguments)]
  }

  /** What a client has read after the given chunks. */
  function Accumulate(chunks: seq<Chunk>): Reading {
    if chunks == [] then Reading("", "", [])
    else AddChunk(Accumulate(chunks[..|chunks| - 1]), chunks[|chunks| - 1])
  }

  lemma AccumulateLast(chunks: seq<Chunk>, c: Chunk)
    ensures Accumulate(chunks + [c]) == AddChunk(Accumulate(chunks), c)
  {
    assert (chunks + [c])[..|chunks|] == chunks;
  }

  // ---------------------------------------------------------------- the blocks that events denote

  /** The text of block `b`, if it has any. */
  function TextOf(events: seq<Event>, b: int): Option<string> {
    if events == [] then None
    else
      var before, e := TextOf(events[..|events| - 1], b), events[|events| - 1];
      if e.BlockDelta? && e.index == b && e.delta.text.Some?
      then Some(before.GetOr("") + e.delta.text.value) else before
  }

  function ReasoningOf(events: seq<Event>, b: int): Option<string> {
    if events == [] then None
    else
      var before, e := ReasoningOf(events[..|events| - 1], b), events[|events| - 1];
      if e.BlockDelta? && e.index == b && e.delta.reasoning.Some?
      then Some(before.GetOr("") + e.delta.reasoning.value) else before
  }

  /** The tool call that block `b` starts, with all of its argument text. */
  function ToolOf(events: seq<Event>, b: int): Option<ToolCall> {
    if events == [] then None
    else
      var before, e := ToolOf(events[..|events| - 1], b), events[|events| - 1];
      if e.ToolStart? && e.index == b then Some(ToolCall(e.id, e.name, ""))
      else if e.BlockDelta? && e.index == b && e.delta.toolInput.Some? && before.Some?
      then Some(before.value.(arguments := before.value.arguments + e.delta.toolInput.value))
      else before
  }

  /** The content blocks 0, …, n - 1 of the finished answer. */
  function Blocks(events: seq<Event>, n: nat): seq<ConverseBlock> {
    if n == 0 then []
    else Blocks(events, n - 1)
         + [ConverseBlock(TextOf(events, n - 1), ReasoningOf(events, n - 1), ToolOf(events, n - 1))]
  }

  /** The part of the stream that is looked at. */
  function Consumed(events: seq<Event>): seq<Event> {
    if events == [] then []
    else
      var before := Consumed(events[..|events| - 1]);
      if |before| < |events| - 1 || events[|events| - 1].Exception? then before else events
  }

  function LastStop(events: seq<Event>): string {
    if events == [] then ""
    else
      var e := events[|events| - 1];
      if e.MessageStop? && e.reason != "" then e.reason else LastStop(events[..|events| - 1])
  }

  /** The last usage report. */
  function LastUsage(events: seq<Event>): Option<Event> {
    if events == [] then None
    else if events[|events| - 1].Metadata? then Some(events[|events| - 1])
    else LastUsage(events[..|events| - 1])
  }

  // ---------------------------------------------------------------- well-formed streams

  /** The highest block index of a tool start so far, or -1. */
  function TopStart(events: seq<Event>): (top: int)
    ensures top >= -1
  {
    if events == [] then -1
    else
      var top, e := TopStart(events[..|events| - 1]), events[|events| - 1];
      if e.ToolStart? then Max(top, e.index) else top
  }

  function TopText(events: seq<Event>): int {
    if events == [] then -1
    else
      var top, e := TopText(events[..|events| - 1]), events[|events| - 1];
      if e.BlockDelta? && e.delta.text.Some? then Max(top, e.index) else top
  }

  function TopReasoning(events: seq<Event>): int {
    if events == [] then -1
    else
      var top, e := TopReasoning(events[..|events| - 1]), events[|events| - 1];
      if e.BlockDelta? && e.delta.reasoning.Some? then Max(top, e.index) else top
  }

  /**
   * `e` may follow `events`: tool blocks start in index order, and text and reasoning come in block
   * order. All indices are below `n`. Deltas of different tool blocks may interleave.
   */
  predicate MayFollow(events: seq<Event>, e: Event, n: nat) {
    match e
    case Exception(_, _) => false
    case ToolStart(index, _, _) => TopStart(events) < index < n
    case BlockDelta(index, delta) =>
      && 0 <= index < n
      && (delta.text.Some? ==> TopText(events) <= index)
      && (delta.reasoning.Some? ==> TopReasoning(events) <= index)
    case _ => true
  }

  predicate InOrder(events: seq<Event>, n: nat) {
    events == []
    || (InOrder(events[..|events| - 1], n)
        && MayFollow(events[..|events| - 1], events[|events| - 1], n))
  }

  /** `e` carries tool input for a block that has not started. */
  predicate IsOrphan(events: seq<Event>, e: Event) {
    e.BlockDelta? && e.delta.toolInput.Some? && ToolOf(events, e.index).None?
  }

  /** Every tool input belongs to a block that has started. */
  predicate StartsFirst(events: seq<Event>) {
    events == []
    || (StartsFirst(events[..|events| - 1]) && !IsOrphan(events[..|events| - 1], events[|events| - 1]))
  }

  predicate WellFormed(events: seq<Event>, n: nat) {
    InOrder(events, n) && StartsFirst(events)
  }

  /** After some tool start there is a non-empty input for a block that has not started. */
  predicate Stray(events: seq<Event>) {
    events != []
    && (var rest, e := events[..|events| - 1], events[|events| - 1];
        Stray(rest) || (TopStart(rest) >= 0 && IsOrphan(rest, e) && e.delta.toolInput.value != ""))
  }

  lemma {:induction false} StartsFirstHasNoStray(events: seq<Event>)
    requires StartsFirst(events)
    ensures !Stray(events)
  {
    if events != [] {
      StartsFirstHasNoStray(events[..|events| - 1]);
    }
  }

  // ---------------------------------------------------------------- one field at a time

  lemma {:induction false} NoTextAbove(events: seq<Event>, b: int)
    requires TopText(events) < b
    ensures TextOf(events, b) == None
  {
    if events != [] {
      NoTextAbove(events[..|events| - 1], b);
    }
  }

  lemma {:induction false} NoReasoningAbove(events: seq<Event>, b: int)
    requires TopReasoning(events) < b
    ensures ReasoningOf(events, b) == None
  {
    if events != [] {
      NoReasoningAbove(events[..|events| - 1], b);
    }
  }

  lemma {:induction false} NoToolAbove(events: seq<Event>, b: int)
    requires TopStart(events) < b
    ensures ToolOf(events, b) == None
  {
    if events != [] {
      NoToolAbove(events[..|events| - 1], b);
    }
  }

  /** How `e` changes the fields of block `b`. */
  lemma FieldsLast(events: seq<Event>, e: Event, b: int)
    ensures TextOf(events + [e], b)
            == if e.BlockDelta? && e.index == b && e.delta.text.Some?
               then Some(TextOf(events, b).GetOr("") + e.delta.text.value) else TextOf(events, b)
    ensures ReasoningOf(events + [e], b)
            == if e.BlockDelta? && e.index == b && e.delta.reasoning.Some?
               then Some(ReasoningOf(events, b).GetOr("") + e.delta.reasoning.value)
               else ReasoningOf(events, b)
  {
    assert (events + [e])[..|events|] == events;
  }

  lemma ToolLast(events: seq<Event>, e: Event, b: int)
    ensures ToolOf(events + [e], b)
            == if e.ToolStart? && e.index == b then Some(ToolCall(e.id, e.name, ""))
               else if e.BlockDelta? && e.index == b && e.delta.toolInput.Some? && ToolOf(events, b).Some?
               then Some(ToolOf(events, b).value.(
                           arguments := ToolOf(events, b).value.arguments + e.delta.toolInput.value))
               else ToolOf(events, b)
  {
    assert (events + [e])[..|events|] == events;
  }

  /** The joined fields of the blocks below `n`, without building the blocks. */
  function TextBelow(events: seq<Event>, n: nat): string {
    if n == 0 then "" else TextBelow(events, n - 1) + TextOf(events, n - 1).GetOr("")
  }

  function ReasoningBelow(events: seq<Event>, n: nat): string {
    if n == 0 then "" else ReasoningBelow(events, n - 1) + ReasoningOf(events, n - 1).GetOr("")
  }

  function ToolsBelow(events: seq<Event>, n: nat): seq<ToolCall> {
    if n == 0 then []
    else ToolsBelow(events, n - 1)
         + if ToolOf(events, n - 1).Some? then [ToolOf(events, n - 1).value] else []
  }

  lemma {:induction false} BlocksJoin(events: seq<Event>, n: nat)
    ensures JoinText(Blocks(events, n)) == TextBelow(events, n)
    ensures JoinReasoning(Blocks(events, n)) == ReasoningBelow(events, n)
    ensures ToolCalls(Blocks(events, n)) == ToolsBelow(events, n)
  {
    if n > 0 {
      var blocks := Blocks(events, n);
      assert blocks[..|blocks| - 1] == Blocks(events, n - 1);
      BlocksJoin(events, n - 1);
    }
  }

  lemma Associate(a: string, b: string, c: string)
    ensures a + b + c == a + (b + c)
    ensures a + "" == a
  {
  }

  /** The text that `e` adds, if it is a text delta: it goes to the end of the joined text. */
  lemma {:induction false} TextGrows(events: seq<Event>, e: Event, n: nat, m: nat)
    requires MayFollow(events, e, m)
    ensures TextBelow(events + [e], n)
            == TextBelow(events, n) + if e.BlockDelta? && e.index < n then e.delta.text.GetOr("") else ""
  {
    if n > 0 {
      var added := if e.BlockDelta? then e.delta.text.GetOr("") else "";
      TextGrows(events, e, n - 1, m);
      FieldsLast(events, e, n - 1);
      Associate(TextBelow(events, n - 1), TextOf(events, n - 1).GetOr(""), added);
      if e.BlockDelta? && e.index < n - 1 && e.delta.text.Some? {
        NoTextAbove(events, n - 1);
      }
    }
  }

  lemma {:induction false} ReasoningGrows(events: seq<Event>, e: Event, n: nat, m: nat)
    requires MayFollow(events, e, m)
    ensures ReasoningBelow(events + [e], n)
            == ReasoningBelow(events, n)
               + if e.BlockDelta? && e.index < n then e.delta.reasoning.GetOr("") else ""
  {
    if n > 0 {
      var added := if e.BlockDelta? then e.delta.reasoning.GetOr("") else "";
      ReasoningGrows(events, e, n - 1, m);
      FieldsLast(events, e, n - 1);
      Associate(ReasoningBelow(events, n - 1), ReasoningOf(events, n - 1).GetOr(""), added);
      if e.BlockDelta? && e.index < n - 1 && e.delta.reasoning.Some? {
        NoReasoningAbove(events, n - 1);
      }
    }
  }

  /** The place of block `b` among the tool calls: the tool blocks before it. */
  function Rank(events: seq<Event>, b: nat): nat {
    |ToolsBelow(events, b)|
  }

  lemma {:induction false} ToolsAfterStart(events: seq<Event>, e: Event, n: nat)
    requires e.ToolStart? && TopStart(events) < e.index
    ensures ToolsBelow(events + [e], n)
            == ToolsBelow(events, n) + if e.index < n then [ToolCall(e.id, e.name, "")] else []
  {
    if n > 0 {
      ToolsAfterStart(events, e, n - 1);
      ToolLast(events, e, n - 1);
      if e.index <= n - 1 {
        NoToolAbove(events, n - 1);
        assert ToolsBelow(events, n) == ToolsBelow(events, n - 1);
      }
    }
  }

  lemma {:induction false} ToolsAfterInput(events: seq<Event>, e: Event, n: nat)
    requires e.BlockDelta? && 0 <= e.index && e.delta.toolInput.Some? && ToolOf(events, e.index).Some?
    ensures e.index < n ==> Rank(events, e.index) < |ToolsBelow(events, n)|
    ensures ToolsBelow(events + [e], n)
            == if e.index < n
               then Extend(ToolsBelow(events, n), Rank(events, e.index), e.delta.toolInput.value)
               else ToolsBelow(events, n)
  {
    if n > 0 {
      ToolsAfterInput(events, e, n - 1);
      ToolLast(events, e, n - 1);
      var here := if ToolOf(events, n - 1).Some? then [ToolOf(events, n - 1).value] else [];
      if e.index < n - 1 {
        ExtendPrefix(ToolsBelow(events, n - 1), here, Rank(events, e.index), e.delta.toolInput.value);
      } else if e.index == n - 1 {
        ExtendLast(ToolsBelow(events, n - 1), here[0], e.delta.toolInput.value);
      }
    }
  }

  lemma ExtendPrefix(calls: seq<ToolCall>, more: seq<ToolCall>, index: nat, arguments: string)
    requires index < |calls|
    ensures Extend(calls + more, index, arguments) == Extend(calls, index, arguments) + more
  {
  }

  lemma ExtendLast(calls: seq<ToolCall>, last: ToolCall, arguments: string)
    ensures Extend(calls + [last], |calls|, arguments)
            == calls + [last.(arguments := last.arguments + arguments)]
  {
  }

  /** Events that neither start a tool block nor add input to a started one leave the calls alone. */
  lemma {:induction false} ToolsUnchanged(events: seq<Event>, e: Event, n: nat)
    requires !e.ToolStart?
    requires e.BlockDelta? && e.delta.toolInput.Some? ==> ToolOf(events, e.index).None?
    ensures ToolsBelow(events + [e], n) == ToolsBelow(events, n)
  {
    if n > 0 {
      ToolsUnchanged(events, e, n - 1);
      ToolLast(events, e, n - 1);
    }
  }

  // ---------------------------------------------------------------- agreement

  /** Every started tool block is known under its rank. */
  ghost predicate Indexed(s: State, events: seq<Event>, n: nat) {
    forall b: nat :: b < n && ToolOf(events, b).Some? ==>
      b in s.indexes && s.indexes[b] == Rank(events, b)
  }

  /**
   * The streamed calls against those the blocks denote: the same, until a stray input makes the arguments
   * of the first one too long for good.
   */
  predicate Ahead(streamed: seq<ToolCall>, denoted: seq<ToolCall>, stray: bool) {
    && |streamed| == |denoted|
    && (!stray ==> streamed == denoted)
    && (stray ==> streamed != [] && |streamed[0].arguments| > |denoted[0].arguments|)
  }

  /** What holds after each event. */
  ghost predicate Agrees(events: seq<Event>, n: nat) {
    var s, calls := Run(events), ToolsBelow(events, n);
    && !s.stopped
    && Accumulate(s.chunks).text == TextBelow(events, n)
    && Accumulate(s.chunks).reasoning == ReasoningBelow(events, n)
    && Ahead(Accumulate(s.chunks).toolCalls, calls, Stray(events))
    && s.next == Rank(events, n)
    && (TopStart(events) >= 0 <==> calls != [])
    && Indexed(s, events, n)
  }

  lemma AheadAfterStart(streamed: seq<ToolCall>, denoted: seq<ToolCall>, stray: bool, call: ToolCall)
    requires Ahead(streamed, denoted, stray)
    ensures Ahead(streamed + [call], denoted + [call], stray)
  {
  }

  /** Input for a started block reaches both sides. */
  lemma AheadAfterInput(streamed: seq<ToolCall>, denoted: seq<ToolCall>, stray: bool, index: nat, input: string)
    requires Ahead(streamed, denoted, stray) && index < |denoted|
    ensures Ahead(Extend(streamed, index, input), Extend(denoted, index, input), stray)
  {
  }

  /** Input for no started block reaches the first streamed call, if there is one. */
  lemma AheadAfterOrphan(streamed: seq<ToolCall>, denoted: seq<ToolCall>, stray: bool, input: string)
    requires Ahead(streamed, denoted, stray)
    ensures Ahead(ExtendBy(streamed, 0, Some(input)), denoted, stray || (denoted != [] && input != ""))
  {
    if streamed != [] && input == "" {
      assert streamed[0].arguments + "" == streamed[0].arguments;
    }
  }

  lemma {:induction false} NothingDenoted(n: nat)
    ensures TextBelow([], n) == "" && ReasoningBelow([], n) == "" && ToolsBelow([], n) == []
  {
    if n > 0 {
      NothingDenoted(n - 1);
    }
  }

  lemma AgreesAtStart(n: nat)
    ensures Agrees([], n)
  {
    NothingDenoted(n);
    AccumulateLast([], RoleChunk);
    assert [] + [RoleChunk] == [RoleChunk];
  }

  lemma EventLast(events: seq<Event>, e: Event)
    ensures Stray(events + [e])
            <==> Stray(events) || (TopStart(events) >= 0 && IsOrphan(events, e) && e.delta.toolInput.value != "")
    ensures TopStart(events + [e]) == if e.ToolStart? then Max(TopStart(events), e.index) else TopStart(events)
  {
    assert (events + [e])[..|events|] == events;
  }

  lemma RunLast(events: seq<Event>, e: Event)
    ensures Run(events + [e]) == Step(Run(events), e)
  {
    assert (events + [e])[..|events|] == events;
  }

  lemma IndexedAfterStart(events: seq<Event>, e: Event, n: nat)
    requires Agrees(events, n) && e.ToolStart? && MayFollow(events, e, n)
    ensures Indexed(Step(Run(events), e), events + [e], n)
  {
    var t := Step(Run(events), e);
    forall b: nat | b < n && ToolOf(events + [e], b).Some?
      ensures b in t.indexes && t.indexes[b] == Rank(events + [e], b)
    {
      ToolsAfterStart(events, e, b);
      ToolLast(events, e, b);
      if b == e.index {
        StartRank(events, b, n);
      } else if e.index < b {
        NoToolAbove(events, b);
      }
    }
  }

  /** A tool start adds the same call on both sides. */
  lemma CallsAfterStart(events: seq<Event>, e: Event, n: nat)
    requires Agrees(events, n) && e.ToolStart? && MayFollow(events, e, n)
    ensures var s := Run(events);
            Ahead(Accumulate(s.chunks + [ToolChunk(s.next, e.id, e.name)]).toolCalls, ToolsBelow(events + [e], n),
                  Stray(events + [e]))
    ensures ToolsBelow(events + [e], n) == ToolsBelow(events, n) + [ToolCall(e.id, e.name, "")]
  {
    var s := Run(events);
    EventLast(events, e);
    AccumulateLast(s.chunks, ToolChunk(s.next, e.id, e.name));
    ToolsAfterStart(events, e, n);
    AheadAfterStart(Accumulate(s.chunks).toolCalls, ToolsBelow(events, n), Stray(events), ToolCall(e.id, e.name, ""));
  }

  /** Text and reasoning after an event that carries none. */
  lemma TextsUnchanged(events: seq<Event>, e: Event, n: nat)
    requires MayFollow(events, e, n) && !e.BlockDelta?
    ensures TextBelow(events + [e], n) == TextBelow(events, n)
    ensures ReasoningBelow(events + [e], n) == ReasoningBelow(events, n)
  {
    TextGrows(events, e, n, n);
    ReasoningGrows(events, e, n, n);
    Associate(TextBelow(events, n), "", "");
    Associate(ReasoningBelow(events, n), "", "");
  }

  lemma StartReading(s: State, e: Event)
    requires e.ToolStart? && !s.stopped
    ensures var r, t := Accumulate(s.chunks), Step(s, e);
            && !t.stopped && t.next == s.next + 1 && t.chunks == s.chunks + [ToolChunk(s.next, e.id, e.name)]
            && Accumulate(t.chunks).text == r.text && Accumulate(t.chunks).reasoning == r.reasoning
  {
    AccumulateLast(s.chunks, ToolChunk(s.next, e.id, e.name));
  }

  lemma {:induction false} ReadingAfterStart(events: seq<Event>, e: Event, n: nat)
    requires Agrees(events, n) && e.ToolStart? && MayFollow(events, e, n)
    ensures var t := Run(events + [e]);
            && !t.stopped && t.next == Rank(events + [e], n)
            && Accumulate(t.chunks).text == TextBelow(events + [e], n)
            && Accumulate(t.chunks).reasoning == ReasoningBelow(events + [e], n)
            && Ahead(Accumulate(t.chunks).toolCalls, ToolsBelow(events + [e], n), Stray(events + [e]))
  {
    RunLast(events, e);
    StartReading(Run(events), e);
    TextsUnchanged(events, e, n);
    CallsAfterStart(events, e, n);
  }

  lemma AgreesAfterStart(events: seq<Event>, e: Event, n: nat)
    requires Agrees(events, n) && e.ToolStart? && MayFollow(events, e, n)
    ensures Agrees(events + [e], n)
  {
    ReadingAfterStart(events, e, n);
    ToolsAfterStart(events, e, n);
    RunLast(events, e);
    IndexedAfterStart(events, e, n);
    EventLast(events, e);
  }

  /** A block above all starts comes last among the tool calls. */
  lemma {:induction false} StartRank(events: seq<Event>, b: nat, n: nat)
    requires TopStart(events) < b <= n
    ensures ToolsBelow(events, n) == ToolsBelow(events, b)
    decreases n
  {
    if b < n {
      StartRank(events, b, n - 1);
      NoToolAbove(events, n - 1);
    }
  }

  lemma AccumulateOption(chunks: seq<Chunk>, c: seq<Chunk>)
    requires |c| <= 1
    ensures Accumulate(chunks + c) == if c == [] then Accumulate(chunks) else AddChunk(Accumulate(chunks), c[0])
  {
    if c == [] {
      assert chunks + c == chunks;
    } else {
      assert c == [c[0]];
      AccumulateLast(chunks, c[0]);
    }
  }

  function ExtendBy(calls: seq<ToolCall>, index: int, input: Option<string>): seq<ToolCall> {
    if input.Some? && 0 <= index < |calls| then Extend(calls, index, input.value) else calls
  }

  /** The chunks of one delta add its three fields to the reading. */
  lemma DeltaReading(s: State, index: int, d: Delta)
    ensures var r := Accumulate(s.chunks);
            Accumulate(s.chunks + TextChunks(d) + ReasoningChunks(d) + InputChunks(s, index, d))
            == Reading(r.text + d.text.GetOr(""), r.reasoning + d.reasoning.GetOr(""),
                       ExtendBy(r.toolCalls, if index in s.indexes then s.indexes[index] else 0, d.toolInput))
  {
    TextChunkReading(s.chunks, d);
    ReasoningChunkReading(s.chunks + TextChunks(d), d);
    InputChunkReading(s.chunks + TextChunks(d) + ReasoningChunks(d), s, index, d);
  }

  lemma ArgumentsReading(chunks: seq<Chunk>, index: nat, input: string)
    ensures var r := Accumulate(chunks);
            Accumulate(chunks + [ArgumentsChunk(index, input)])
            == Reading(r.text, r.reasoning, ExtendBy(r.toolCalls, index, Some(input)))
  {
    AccumulateLast(chunks, ArgumentsChunk(index, input));
  }

  lemma {:induction false} InputChunkReading(chunks: seq<Chunk>, s: State, index: int, d: Delta)
    ensures var r := Accumulate(chunks);
            Accumulate(chunks + InputChunks(s, index, d))
            == Reading(r.text, r.reasoning,
                       ExtendBy(r.toolCalls, if index in s.indexes then s.indexes[index] else 0, d.toolInput))
  {
    if d.toolInput.Some? {
      ArgumentsReading(chunks, if index in s.indexes then s.indexes[index] else 0, d.toolInput.value);
    } else {
      assert chunks + InputChunks(s, index, d) == chunks;
    }
  }

  lemma {:induction false} TextChunkReading(chunks: seq<Chunk>, d: Delta)
    ensures var r := Accumulate(chunks);
            Accumulate(chunks + TextChunks(d)) == Reading(r.text + d.text.GetOr(""), r.reasoning, r.toolCalls)
  {
    AccumulateOption(chunks, TextChunks(d));
    assert Accumulate(chunks).text + "" == Accumulate(chunks).text;
  }

  lemma {:induction false} ReasoningChunkReading(chunks: seq<Chunk>, d: Delta)
    ensures var r := Accumulate(chunks);
            Accumulate(chunks + ReasoningChunks(d))
            == Reading(r.text, r.reasoning + d.reasoning.GetOr(""), r.toolCalls)
  {
    AccumulateOption(chunks, ReasoningChunks(d));
    assert Accumulate(chunks).reasoning + "" == Accumulate(chunks).reasoning;
  }

  /** A delta extends the call of its block, if that has started. */
  lemma InputGrowsTools(events: seq<Event>, e: Event, n: nat)
    requires e.BlockDelta? && e.index >= 0
    ensures ToolsBelow(events + [e], n)
            == if e.index < n && !IsOrphan(events, e)
               then ExtendBy(ToolsBelow(events, n), Rank(events, e.index), e.delta.toolInput)
               else ToolsBelow(events, n)
    ensures e.index < n && ToolOf(events, e.index).Some? && e.delta.toolInput.Some?
            ==> Rank(events, e.index) < Rank(events, n)
  {
    if e.delta.toolInput.Some? && !IsOrphan(events, e) {
      ToolsAfterInput(events, e, n);
    } else {
      ToolsUnchanged(events, e, n);
    }
  }

  lemma IndexedAfterOther(events: seq<Event>, e: Event, n: nat)
    requires Indexed(Run(events), events, n) && !e.ToolStart? && MayFollow(events, e, n)
    ensures Indexed(Run(events), events + [e], n)
  {
    forall b: nat | b < n && ToolOf(events + [e], b).Some?
      ensures b in Run(events).indexes && Run(events).indexes[b] == Rank(events + [e], b)
    {
      ToolLast(events, e, b);
      if e.BlockDelta? {
        InputGrowsTools(events, e, b);
      } else {
        ToolsUnchanged(events, e, b);
      }
    }
  }

  /** The calls after a delta: of its own block if that has started, of the first block otherwise. */
  lemma {:induction false} CallsAfterDelta(events: seq<Event>, e: Event, n: nat)
    requires Agrees(events, n) && e.BlockDelta? && MayFollow(events, e, n)
    ensures var s := Run(events);
            var index := if e.index in s.indexes then s.indexes[e.index] else 0;
            Ahead(ExtendBy(Accumulate(s.chunks).toolCalls, index, e.delta.toolInput), ToolsBelow(events + [e], n),
                  Stray(events + [e]))
  {
    var s := Run(events);
    var streamed, denoted := Accumulate(s.chunks).toolCalls, ToolsBelow(events, n);
    EventLast(events, e);
    InputGrowsTools(events, e, n);
    if e.delta.toolInput.Some? {
      if IsOrphan(events, e) {
        if e.index in s.indexes {
          OnlyStartedIndexed(events, e.index);
        }
        AheadAfterOrphan(streamed, denoted, Stray(events), e.delta.toolInput.value);
      } else {
        AheadAfterInput(streamed, denoted, Stray(events), Rank(events, e.index), e.delta.toolInput.value);
      }
    }
  }

  lemma AgreesAfterDelta(events: seq<Event>, e: Event, n: nat)
    requires Agrees(events, n) && e.BlockDelta? && MayFollow(events, e, n)
    ensures Agrees(events + [e], n)
  {
    var s := Run(events);
    RunLast(events, e);
    EventLast(events, e);
    TextGrows(events, e, n, n);
    ReasoningGrows(events, e, n, n);
    InputGrowsTools(events, e, n);
    CallsAfterDelta(events, e, n);
    DeltaReading(s, e.index, e.delta);
    IndexedAfterOther(events, e, n);
  }

  lemma AgreesAfterOther(events: seq<Event>, e: Event, n: nat)
    requires Agrees(events, n) && MayFollow(events, e, n) && !e.ToolStart? && !e.BlockDelta?
    ensures Agrees(events + [e], n)
  {
    RunLast(events, e);
    EventLast(events, e);
    TextsUnchanged(events, e, n);
    ToolsUnchanged(events, e, n);
    IndexedAfterOther(events, e, n);
  }

  lemma {:induction false} InOrderAgrees(events: seq<Event>, n: nat)
    requires InOrder(events, n)
    ensures Agrees(events, n)
  {
    if events == [] {
      AgreesAtStart(n);
    } else {
      var rest, e := events[..|events| - 1], events[|events| - 1];
      assert events == rest + [e];
      InOrderAgrees(rest, n);
      if e.ToolStart? {
        AgreesAfterStart(rest, e, n);
      } else if e.BlockDelta? {
        AgreesAfterDelta(rest, e, n);
      } else {
        AgreesAfterOther(rest, e, n);
      }
    }
  }

  lemma {:induction false} OnlyStartedIndexed(events: seq<Event>, b: int)
    requires b in Run(events).indexes
    ensures ToolOf(events, b).Some?
  {
    if events != [] {
      var rest := events[..|events| - 1];
      if b in Run(rest).indexes {
        OnlyStartedIndexed(rest, b);
      }
    }
  }

  lemma {:induction false} ConsumedPrefix(events: seq<Event>)
    ensures Consumed(events) <= events
    ensures Consumed(events) == events || events[|Consumed(events)|].Exception?
    ensures !Run(Consumed(events)).stopped
  {
    if events != [] {
      ConsumedPrefix(events[..|events| - 1]);
    }
  }

  /** The finish reason of a stop reason. */
  ghost predicate Finishes(reason: string, finish: string) {
    && (finish == "tool_calls" <==> reason == "tool_use")
    && (finish == "length" <==> reason == "max_tokens")
    && (finish == "stop" <==> reason != "tool_use" && reason != "max_tokens")
  }

  /** The usage of a report: its own total, or the sum when it gives none. */
  ghost predicate Reports(last: Option<Event>, usage: Option<Usage>) {
    if last.None? then usage == None
    else && usage.Some? && last.value.Metadata?
         && usage.value.prompt == last.value.input && usage.value.completion == last.value.output
         && usage.value.total
            == if last.value.total == 0 then last.value.input + last.value.output else last.value.total
  }

  lemma {:induction false} FinishIsLastStop(events: seq<Event>)
    requires !Run(events).stopped
    ensures Finishes(LastStop(events), Run(events).finish)
    ensures Reports(LastUsage(events), Run(events).usage)
  {
    if events != [] {
      FinishIsLastStop(events[..|events| - 1]);
    }
  }

  lemma ExceptionReading(read: seq<Event>, e: Event)
    requires e.Exception? && !Run(read).stopped
    ensures var t := Run(read + [e]);
            && t.finish == Run(read).finish && t.usage == Run(read).usage && t.stopped
            && t.chunks == Run(read).chunks + [ErrorChunk(e.message, e.status)]
            && Accumulate(t.chunks) == Accumulate(Run(read).chunks)
  {
    RunLast(read, e);
    AccumulateLast(Run(read).chunks, ErrorChunk(e.message, e.status));
  }

  /** An exception event adds its error chunk and stops the reading there. */
  lemma {:induction false} ChunksOfConsumed(events: seq<Event>)
    ensures var read := Consumed(events);
            && (read == events || (|read| < |events| && events[|read|].Exception?))
            && Run(events).finish == Run(read).finish && Run(events).usage == Run(read).usage
            && Accumulate(Run(events).chunks) == Accumulate(Run(read).chunks)
            && (Run(events).stopped <==> read != events)
            && Run(events).chunks
               == Run(read).chunks
                  + if read == events then []
                    else [ErrorChunk(events[|read|].message, events[|read|].status)]
  {
    var read := Consumed(events);
    ConsumedPrefix(events);
    if read != events {
      var e := events[|read|];
      assert events[..|read| + 1] == read + [e];
      ExceptionReading(read, e);
      StoppedStays(events, |read| + 1);
    }
  }

  lemma FrameReading(body: seq<Chunk>, last: Chunk)
    requires last.FinishChunk? || last.ErrorChunk?
    ensures Accumulate(body + [last, DoneMark]) == Accumulate(body)
  {
    assert body + [last, DoneMark] == body + [last] + [DoneMark];
    AccumulateLast(body, last);
    AccumulateLast(body + [last], DoneMark);
  }

  /** What a client has read at the end, whatever the ending. */
  lemma {:induction false} TranscriptReading(events: seq<Event>, ending: Ending)
    ensures Accumulate(Transcript(events, ending)) == Accumulate(Run(Consumed(events)).chunks)
  {
    var s := Run(events);
    ChunksOfConsumed(events);
    FrameReading(s.chunks, FinishChunk(s.finish, s.usage));
    if ending.Threw? {
      FrameReading(s.chunks, ErrorChunk(ending.message, ending.status));
    }
  }

  /**
   * The exact condition. For every stream whose consumed part is in order, accumulating the chunks gives
   * the text, the reasoning and the ordered tool calls of the non-streaming conversion of the blocks that
   * the consumed events denote, if and only if no non-empty tool input for a block that has not started
   * comes after a tool start.
   */
  lemma AgreementIffNoStray(events: seq<Event>, ending: Ending, n: nat)
    requires InOrder(Consumed(events), n)
    ensures var blocks := Blocks(Consumed(events), n);
            Accumulate(Transcript(events, ending))
            == Reading(JoinText(blocks), JoinReasoning(blocks), ToolCalls(blocks))
            <==> !Stray(Consumed(events))
  {
    InOrderAgrees(Consumed(events), n);
    TranscriptReading(events, ending);
    BlocksJoin(Consumed(events), n);
  }

  /** In particular the two translations agree on every well-formed stream. */
  lemma {:induction false} StreamAgreesWithMessage(events: seq<Event>, ending: Ending, n: nat)
    requires WellFormed(Consumed(events), n)
    ensures var blocks := Blocks(Consumed(events), n);
            Accumulate(Transcript(events, ending))
            == Reading(JoinText(blocks), JoinReasoning(blocks), ToolCalls(blocks))
  {
    StartsFirstHasNoStray(Consumed(events));
    AgreementIffNoStray(events, ending, n);
  }

  /**
   * Unless reading threw, the last chunk but one is the finish chunk: "tool_calls" exactly when the last stop
   * event consumed says "tool_use", "length" exactly when it says "max_tokens", and "stop" otherwise; with the
   * usage of the last report consumed, if there is one.
   */
  lemma {:induction false} StreamFinish(events: seq<Event>)
    ensures var chunks, read := Transcript(events, Normal), Consumed(events);
            && |chunks| >= 2 && chunks[|chunks| - 2].FinishChunk?
            && Finishes(LastStop(read), chunks[|chunks| - 2].reason)
            && Reports(LastUsage(read), chunks[|chunks| - 2].usage)
  {
    ChunksOfConsumed(events);
    ConsumedPrefix(events);
    FinishIsLastStop(Consumed(events));
  }

  // ---------------------------------------------------------------- shape of the transcript

  /** A chunk of the answer itself, and not an empty one. */
  predicate IsBody(c: Chunk) {
    match c
    case ContentChunk(text) => text != ""
    case ReasoningChunk(reasoning) => reasoning != ""
    case ToolChunk(_, _, _) => true
    case ArgumentsChunk(_, _) => true
    case _ => false
  }

  lemma {:induction false} RunShape(events: seq<Event>)
    requires !Run(events).stopped
    ensures var chunks := Run(events).chunks;
            && |chunks| >= 1 && chunks[0] == RoleChunk
            && forall k :: 1 <= k < |chunks| ==> IsBody(chunks[k])
  {
    if events != [] {
      RunShape(events[..|events| - 1]);
    }
  }

  /**
   * Whatever arrives, there is one role chunk, first, and one end mark, last. Between them stand the chunks of
   * the answer; then, when an exception event was consumed, its error and the finish chunk; when reading threw
   * before any exception event, the error of that; and otherwise the finish chunk.
   */
  lemma TranscriptShape(events: seq<Event>, ending: Ending)
    ensures var chunks, read := Transcript(events, ending), Consumed(events);
            var n := |chunks| - if read == events then 2 else 3;
            && 1 <= n && chunks[0] == RoleChunk && chunks[|chunks| - 1] == DoneMark
            && (forall k :: 1 <= k < n ==> IsBody(chunks[k]))
            && (if read == events
                then if ending.Threw? then chunks[n] == ErrorChunk(ending.message, ending.status)
                     else chunks[n].FinishChunk?
                else && |read| < |events| && events[|read|].Exception?
                     && chunks[n] == ErrorChunk(events[|read|].message, events[|read|].status)
                     && chunks[n + 1].FinishChunk?)
  {
    ChunksOfConsumed(events);
    ConsumedPrefix(events);
    RunShape(Consumed(events));
  }

  /** Chunks are sent as events come: later events only add to them. */
  lemma {:induction false} ChunksGrow(events: seq<Event>, later: seq<Event>)
    ensures Run(events).chunks <= Run(events + later).chunks
  {
    if later == [] {
      assert events + later == events;
    } else {
      ChunksGrow(events, later[..|later| - 1]);
      assert events + later == (events + later[..|later| - 1]) + [later[|later| - 1]];
      RunLast(events + later[..|later| - 1], later[|later| - 1]);
    }
  }

  /** Text comes before reasoning, and reasoning before tool input. */
  function PlaceInDelta(c: Chunk): nat {
    match c
    case ContentChunk(_) => 0
    case ReasoningChunk(_) => 1
    case _ => 2
  }

  /** What one delta adds: a chunk for each of its fields at most, text first, tool input last. */
  lemma DeltaInOrder(events: seq<Event>, e: Event)
    requires e.BlockDelta?
    ensures var n, chunks := |Run(events).chunks|, Run(events + [e]).chunks;
            forall i, j :: n <= i < j < |chunks| ==> PlaceInDelta(chunks[i]) < PlaceInDelta(chunks[j])
  {
    RunLast(events, e);
  }

  /**
   * A stray input is credited to the first call: after any stream in order with a tool call, it makes the
   * streamed arguments of that call longer than those of its block, whatever came before.
   */
  lemma OrphanInputDisagrees(events: seq<Event>, b: int, input: string, n: nat)
    requires InOrder(events, n) && ToolsBelow(events, n) != []
    requires ToolOf(events, b).None? && input != ""
    ensures var longer := events + [BlockDelta(b, Delta(None, None, Some(input)))];
            var streamed, denoted := Accumulate(Run(longer).chunks).toolCalls, ToolCalls(Blocks(longer, n));
            && denoted == ToolsBelow(events, n)
            && streamed == ExtendBy(Accumulate(Run(events).chunks).toolCalls, 0, Some(input))
            && streamed != [] && |streamed[0].arguments| > |denoted[0].arguments|
  {
    var e := BlockDelta(b, Delta(None, None, Some(input)));
    var s := Run(events);
    InOrderAgrees(events, n);
    RunLast(events, e);
    if b in s.indexes {
      OnlyStartedIndexed(events, b);
    }
    DeltaReading(s, b, e.delta);
    AheadAfterOrphan(Accumulate(s.chunks).toolCalls, ToolsBelow(events, n), Stray(events), input);
    ToolsUnchanged(events, e, n);
    BlocksJoin(events + [e], n);
  }
}
