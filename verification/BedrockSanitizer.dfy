/**
 * `mergeConsecutiveToolResultMessages` and `sanitizeBedrockToolPairs`: every message list is turned
 * into one whose tool calls and tool results match.
 *
 * The specification `Sanitize` is positional and keeps no state: a call survives when the very next
 * message answers it, and the n-th answer to an id survives when n surviving assistant messages
 * call that id. The methods in BedrockSanitizerCode work in place with a running budget, as the source does.
 */
module BedrockSanitizer {
  import opened Options
  import opened BedrockMessages

  // ---------------------------------------------------------------- merging

  predicate IsToolResultOnly(m: Msg) {
    m.role.User? && m.content != [] && forall b | b in m.content :: ResultIdOf(b).Some?
  }

  /** Append `m`, joining it to the last message when both hold nothing but tool results. */
  function Append(merged: seq<Msg>, m: Msg): seq<Msg> {
    if merged != [] && IsToolResultOnly(merged[|merged| - 1]) && IsToolResultOnly(m)
    then merged[..|merged| - 1] + [Msg(User, merged[|merged| - 1].content + m.content)]
    else merged + [m]
  }

  function Merge(ms: seq<Msg>): seq<Msg> {
    if ms == [] then [] else Append(Merge(ms[..|ms| - 1]), ms[|ms| - 1])
  }

  // ---------------------------------------------------------------- sanitising

  function NextResultIds(ms: seq<Msg>, i: nat): set<string>
    requires i < |ms|
  {
    if i + 1 < |ms| && ms[i + 1].role.User? then ResultIds(ms[i + 1].content) else {}
  }

  function AllowedIds(ms: seq<Msg>, i: nat): set<string>
    requires i < |ms|
  {
    UseIds(ms[i].content) * NextResultIds(ms, i)
  }

  /** Assistant message `i` calls `x` and the very next message answers it. */
  predicate Answered(ms: seq<Msg>, x: string, i: nat)
    requires i < |ms|
  {
    ms[i].role.Assistant? && x in AllowedIds(ms, i)
  }

  /** The permits for `x` that the first `n` messages give out. */
  function Permits(ms: seq<Msg>, x: string, n: nat): nat
    requires n <= |ms|
  {
    if n == 0 then 0 else Permits(ms, x, n - 1) + if Answered(ms, x, n - 1) then 1 else 0
  }

  function FilterUses(content: seq<Block>, allowed: set<string>): seq<Block> {
    if content == [] then []
    else
      var b := content[|content| - 1];
      FilterUses(content[..|content| - 1], allowed)
      + if UseIdOf(b).None? || UseIdOf(b).value in allowed then [b] else []
  }

  /** Keep, for each id, its first results, as many as `spare` allows; keep all other blocks. */
  function KeepFirst(content: seq<Block>, spare: string -> int): seq<Block> {
    if content == [] then []
    else
      var rest, b := content[..|content| - 1], content[|content| - 1];
      KeepFirst(rest, spare) + if Affordable(rest, b, spare) then [b] else []
  }

  /** `b` is no result, or the results before it leave a permit for it. */
  predicate Affordable(before: seq<Block>, b: Block, spare: string -> int) {
    ResultIdOf(b).None? || ResultCount(before, ResultIdOf(b).value) < spare(ResultIdOf(b).value)
  }

  /** The permits for each id that the messages before message `j` leave over. */
  function Spare(ms: seq<Msg>, j: nat): string -> int
    requires j <= |ms|
  {
    x => Permits(ms, x, |ms|) - Results(ms, x, j)
  }

  function NonEmpty(content: seq<Block>): seq<Block> {
    if content == [] then [PLACEHOLDER] else content
  }

  function SanitizedUses(ms: seq<Msg>, i: nat): seq<Block>
    requires i < |ms|
  {
    if UseIds(ms[i].content) == {} then ms[i].content
    else NonEmpty(FilterUses(ms[i].content, AllowedIds(ms, i)))
  }

  function SanitizedMsg(ms: seq<Msg>, i: nat): Msg
    requires i < |ms|
  {
    match ms[i].role
    case Assistant => Msg(Assistant, SanitizedUses(ms, i))
    case User => Msg(User, NonEmpty(KeepFirst(ms[i].content, Spare(ms, i))))
  }

  function SanitizeMerged(ms: seq<Msg>): seq<Msg> {
    seq(|ms|, i requires 0 <= i < |ms| => SanitizedMsg(ms, i))
  }

  function Sanitize(ms: seq<Msg>): seq<Msg> {
    SanitizeMerged(Merge(ms))
  }

  // ---------------------------------------------------------------- what is promised

  /**
   * Positional pairing for `x`: each call of it is answered exactly once, in the very next message,
   * and each answer to it follows a message that calls it.
   */
  ghost predicate Paired(ms: seq<Msg>, x: string) {
    && (forall i :: 0 <= i < |ms| && Holds(ms[i], x) ==>
          i + 1 < |ms| && ms[i + 1].role.User? && ResultCount(ms[i + 1].content, x) == 1)
    && (forall j :: 0 <= j < |ms| && ms[j].role.User? && ResultCount(ms[j].content, x) > 0 ==>
          j > 0 && Holds(ms[j - 1], x))
  }

  /**
   * At each answered call of `x`, as many answers to `x` as answered calls of `x` have gone before.
   * This is a fact about the input alone.
   */
  ghost predicate Alternating(ms: seq<Msg>, x: string) {
    forall i :: 0 <= i < |ms| && Answered(ms, x, i) ==> Results(ms, x, i) == Permits(ms, x, i)
  }

  /** `x` is called by one assistant message at most, and never answered before that message. */
  ghost predicate Fresh(ms: seq<Msg>, x: string) {
    && Holders(ms, x, |ms|) <= 1
    && forall i :: 0 <= i < |ms| && Holds(ms[i], x) ==> Results(ms, x, i) == 0
  }
}
