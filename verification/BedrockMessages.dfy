/** The Converse conversation that `bedrock.ts` builds, and the counts its pairing laws speak about. */
module BedrockMessages {
  import opened Options
  import Strings

  datatype Role = User | Assistant

  /**
   * A tool id as written in a block, with the key it is compared by: the trimmed spelling, or None
   * for a blank id. The laws about blocks hold whatever the key is; `ToolIdOf` is the source's.
   */
  datatype ToolId = ToolId(raw: string, key: Option<string>)

  function NormalizeToolUseId(raw: string): Option<string> {
    if Strings.Trim(raw) != "" then Some(Strings.Trim(raw)) else None
  }

  function ToolIdOf(raw: string): ToolId {
    ToolId(raw, NormalizeToolUseId(raw))
  }

  /** An id that is already trimmed and not blank. */
  function Trimmed(id: string): ToolId {
    ToolId(id, Some(id))
  }

  /** The trimmed spelling of an id, written into a block, is found there again as the same key. */
  lemma TrimmedIsNormal(raw: string)
    requires ToolIdOf(raw).key.Some?
    ensures ToolIdOf(ToolIdOf(raw).key.value) == Trimmed(ToolIdOf(raw).key.value)
  {
    Strings.TrimIdempotent(raw);
  }

  /** Exactly the ids with some visible character have a key, and the key has no blank at its ends. */
  lemma KeyIffNotBlank(raw: string)
    ensures NormalizeToolUseId(raw).Some? <==> !Strings.IsBlank(raw)
    ensures NormalizeToolUseId(raw).Some? ==>
              var key := NormalizeToolUseId(raw).value;
              key != "" && !Strings.IsSpace(key[0]) && !Strings.IsSpace(key[|key| - 1])
  {
    Strings.TrimEmptyIffBlank(raw);
    if Strings.Trim(raw) != "" {
      Strings.TrimmedEnds(raw);
    }
  }

  /** Tool inputs, tool outputs and image bytes are opaque strings. */
  datatype Block =
    | Text(text: string)
    | Image(format: string, data: string)
    | ToolUse(useId: ToolId, name: string, input: string)
    | ToolResult(resultId: ToolId, output: string, status: string)

  datatype Msg = Msg(role: Role, content: seq<Block>)

  const PLACEHOLDER := Text(" ")

  /** A message object: its `content` is reassigned in place. */
  class Message {
    const role: Role
    var content: seq<Block>

    constructor (role: Role, content: seq<Block>)
      ensures this.role == role && this.content == content
    {
      this.role := role;
      this.content := content;
    }

    function View(): Msg
      reads this
    {
      Msg(role, content)
    }
  }

  function Views(ms: seq<Message>): (vs: seq<Msg>)
    reads ms
    ensures |vs| == |ms|
    ensures forall i :: 0 <= i < |ms| ==> vs[i] == ms[i].View()
  {
    if ms == [] then [] else Views(ms[..|ms| - 1]) + [ms[|ms| - 1].View()]
  }

  function UseIdOf(b: Block): Option<string> {
    if b.ToolUse? then b.useId.key else None
  }

  function ResultIdOf(b: Block): Option<string> {
    if b.ToolResult? then b.resultId.key else None
  }

  function UseIds(content: seq<Block>): set<string> {
    set b | b in content && UseIdOf(b).Some? :: UseIdOf(b).value
  }

  function ResultIds(content: seq<Block>): set<string> {
    set b | b in content && ResultIdOf(b).Some? :: ResultIdOf(b).value
  }

  /** How many blocks of `content` answer tool id `x`. */
  function ResultCount(content: seq<Block>, x: string): nat {
    if content == [] then 0
    else ResultCount(content[..|content| - 1], x)
         + if ResultIdOf(content[|content| - 1]) == Some(x) then 1 else 0
  }

  /** Assistant message `m` holds a call of tool id `x`. */
  predicate Holds(m: Msg, x: string) {
    m.role.Assistant? && x in UseIds(m.content)
  }

  /** The number of answers to `x` in the user messages among the first `n`. */
  function Results(ms: seq<Msg>, x: string, n: nat): nat
    requires n <= |ms|
  {
    if n == 0 then 0
    else Results(ms, x, n - 1)
         + if ms[n - 1].role.User? then ResultCount(ms[n - 1].content, x) else 0
  }

  /** The number of assistant messages among the first `n` that hold a call of `x`. */
  function Holders(ms: seq<Msg>, x: string, n: nat): nat
    requires n <= |ms|
  {
    if n == 0 then 0
    else Holders(ms, x, n - 1) + if Holds(ms[n - 1], x) then 1 else 0
  }

  /** Text and image blocks, without the single-space placeholder. */
  predicate IsPlain(b: Block) {
    b.Image? || (b.Text? && b != PLACEHOLDER)
  }

  function PlainOf(content: seq<Block>): seq<Block> {
    if content == [] then []
    else PlainOf(content[..|content| - 1])
         + if IsPlain(content[|content| - 1]) then [content[|content| - 1]] else []
  }

  function Tag(role: Role, blocks: seq<Block>): seq<(Role, Block)> {
    if blocks == [] then [] else Tag(role, blocks[..|blocks| - 1]) + [(role, blocks[|blocks| - 1])]
  }

  /** All text and image blocks of a conversation, in order, each with the role it is spoken in. */
  function Plain(ms: seq<Msg>): seq<(Role, Block)> {
    if ms == [] then [] else Plain(ms[..|ms| - 1]) + Tag(ms[|ms| - 1].role, PlainOf(ms[|ms| - 1].content))
  }

  lemma {:induction false} TagConcat(role: Role, a: seq<Block>, b: seq<Block>)
    ensures Tag(role, a + b) == Tag(role, a) + Tag(role, b)
  {
    if b == [] {
      assert a + b == a;
    } else {
      assert (a + b)[..|a + b| - 1] == a + b[..|b| - 1];
      TagConcat(role, a, b[..|b| - 1]);
    }
  }

  lemma ConcatThree<T>(a: seq<T>, b: seq<T>, c: seq<T>)
    ensures (a + b) + c == a + (b + c)
  {
  }

  lemma {:induction false} ResultCountConcat(a: seq<Block>, b: seq<Block>, x: string)
    ensures ResultCount(a + b, x) == ResultCount(a, x) + ResultCount(b, x)
  {
    if b == [] {
      assert a + b == a;
    } else {
      assert (a + b)[..|a + b| - 1] == a + b[..|b| - 1];
      ResultCountConcat(a, b[..|b| - 1], x);
    }
  }

  lemma ResultCountLast(a: seq<Block>, b: Block, x: string)
    ensures ResultCount(a + [b], x) == ResultCount(a, x) + if ResultIdOf(b) == Some(x) then 1 else 0
  {
    assert (a + [b])[..|a|] == a;
  }

  lemma {:induction false} ResultCountPositive(content: seq<Block>, x: string)
    ensures ResultCount(content, x) > 0 <==> x in ResultIds(content)
  {
    if content != [] {
      var b := content[|content| - 1];
      var rest := content[..|content| - 1];
      ResultCountPositive(rest, x);
      assert content == rest + [b];
      assert x in ResultIds(content) <==> x in ResultIds(rest) || ResultIdOf(b) == Some(x);
    }
  }

  lemma {:induction false} PlainOfConcat(a: seq<Block>, b: seq<Block>)
    ensures PlainOf(a + b) == PlainOf(a) + PlainOf(b)
  {
    if b == [] {
      assert a + b == a;
    } else {
      assert (a + b)[..|a + b| - 1] == a + b[..|b| - 1];
      PlainOfConcat(a, b[..|b| - 1]);
    }
  }

  lemma PlainOfLast(a: seq<Block>, b: Block)
    ensures PlainOf(a + [b]) == PlainOf(a) + if IsPlain(b) then [b] else []
  {
    assert (a + [b])[..|a|] == a;
  }

  /** Counts over the first messages do not see what is appended later. */
  lemma {:induction false} CountsOfPrefix(ms: seq<Msg>, more: seq<Msg>, x: string, n: nat)
    requires n <= |ms|
    ensures Results(ms + more, x, n) == Results(ms, x, n)
    ensures Holders(ms + more, x, n) == Holders(ms, x, n)
  {
    if n > 0 {
      CountsOfPrefix(ms, more, x, n - 1);
      assert (ms + more)[n - 1] == ms[n - 1];
    }
  }

  lemma {:induction false} CountsMonotone(ms: seq<Msg>, x: string, i: nat, j: nat)
    requires i <= j <= |ms|
    ensures Results(ms, x, i) <= Results(ms, x, j)
    ensures Holders(ms, x, i) <= Holders(ms, x, j)
    decreases j
  {
    if i < j {
      CountsMonotone(ms, x, i, j - 1);
    }
  }
}
