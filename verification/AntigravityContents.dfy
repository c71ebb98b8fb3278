/**
 * How `transformRequest` of `antigravity.ts` normalises a conversation: parts are filtered, turns
 * that are left empty are dropped, neighbours with the same role are joined, and for Claude models
 * trailing model turns are stripped.
 */
module AntigravityContents {
  import opened Options

  const SENTINEL := "skip_thought_signature_validator"

  /**
   * A part, as far as the filter looks at it. `functionCall` holds the call's name, "" when it has
   * none; `thoughtSignature` is None when absent or falsy; `payload` is everything else.
   */
  datatype Part = Part(text: Option<string>, functionCall: Option<string>, functionResponse: bool,
                       thought: bool, thoughtSignature: Option<string>, payload: string)

  /** A turn as the caller gives it; `extra` stands for its other fields. */
  datatype Raw = Raw(role: Option<string>, parts: Option<seq<Part>>, extra: string)

  datatype Turn = Turn(role: string, parts: seq<Part>, extra: string)

  // ---------------------------------------------------------------- filtering one turn

  predicate HasFunctionCall(parts: seq<Part>) {
    exists k :: 0 <= k < |parts| && parts[k].functionCall.Some?
  }

  predicate HasFunctionResponse(parts: seq<Part>) {
    exists k :: 0 <= k < |parts| && parts[k].functionResponse
  }

  predicate Survives(p: Part, calls: bool) {
    && p.text != Some("")
    && p.functionCall != Some("")
    && !p.thought
    && (calls || p.thoughtSignature.None? || p.thoughtSignature == Some(SENTINEL))
  }

  function Surviving(parts: seq<Part>, calls: bool): seq<Part> {
    if parts == [] then []
    else Surviving(parts[..|parts| - 1], calls)
         + if Survives(parts[|parts| - 1], calls) then [parts[|parts| - 1]] else []
  }

  function NormalizeTurn(raw: Raw): Turn {
    var given := raw.parts.GetOr([]);
    Turn(if HasFunctionResponse(given) then "user" else raw.role.GetOr("user"),
         Surviving(given, HasFunctionCall(given)), raw.extra)
  }

  // ---------------------------------------------------------------- joining turns

  /** Append a turn: an empty one is dropped, one with the last turn's role is joined to it. */
  function Append(turns: seq<Turn>, t: Turn): seq<Turn> {
    if t.parts == [] then turns
    else if turns != [] && turns[|turns| - 1].role == t.role
    then turns[|turns| - 1 := turns[|turns| - 1].(parts := turns[|turns| - 1].parts + t.parts)]
    else turns + [t]
  }

  function Normalize(raws: seq<Raw>): seq<Turn> {
    if raws == [] then []
    else Append(Normalize(raws[..|raws| - 1]), NormalizeTurn(raws[|raws| - 1]))
  }

  /** No turn is empty, and neighbours have different roles. */
  ghost predicate Compact(turns: seq<Turn>) {
    && (forall i :: 0 <= i < |turns| ==> turns[i].parts != [])
    && (forall i :: 0 < i < |turns| ==> turns[i - 1].role != turns[i].role)
  }

  /** The parts in order, each with the role it is spoken in. */
  function Tag(role: string, parts: seq<Part>): seq<(string, Part)> {
    if parts == [] then [] else Tag(role, parts[..|parts| - 1]) + [(role, parts[|parts| - 1])]
  }

  function Tagged(turns: seq<Turn>): seq<(string, Part)> {
    if turns == [] then []
    else Tagged(turns[..|turns| - 1]) + Tag(turns[|turns| - 1].role, turns[|turns| - 1].parts)
  }

  /**
   * Part `k` of a turn is kept: no empty text, no call without a name, no thought; and a signature other than the
   * sentinel only in a turn that calls a function.
   */
  ghost predicate IsKept(parts: seq<Part>, k: nat)
    requires k < |parts|
  {
    var p := parts[k];
    && (p.text.Some? ==> p.text.value != "") && (p.functionCall.Some? ==> p.functionCall.value != "") && !p.thought
    && (p.thoughtSignature.Some? && p.thoughtSignature.value != "skip_thought_signature_validator"
        ==> exists i :: 0 <= i < |parts| && parts[i].functionCall.Some?)
  }

  ghost function KeptOf(parts: seq<Part>, n: nat): seq<Part>
    requires n <= |parts|
  {
    if n == 0 then [] else KeptOf(parts, n - 1) + if IsKept(parts, n - 1) then [parts[n - 1]] else []
  }

  /** A turn with a function response is the user's; any other has the role it says, or else the user's. */
  ghost predicate SpokenAs(raw: Raw, role: string) {
    if raw.parts.Some? && exists i :: 0 <= i < |raw.parts.value| && raw.parts.value[i].functionResponse
    then role == "user"
    else if raw.role.Some? then role == raw.role.value else role == "user"
  }

  ghost function RoleOf(raw: Raw): (role: string)
    ensures SpokenAs(raw, role)
  {
    NormalizeTurn(raw).role
  }

  /** The kept parts of the request, turn by turn. */
  ghost function SurvivingOf(raws: seq<Raw>): seq<(string, Part)> {
    if raws == [] then []
    else
      var raw := raws[|raws| - 1];
      var parts := if raw.parts.Some? then raw.parts.value else [];
      SurvivingOf(raws[..|raws| - 1]) + Tag(RoleOf(raw), KeptOf(parts, |parts|))
  }

  lemma {:induction false} SurvivingAreKept(parts: seq<Part>, n: nat)
    requires n <= |parts|
    ensures Surviving(parts[..n], HasFunctionCall(parts)) == KeptOf(parts, n)
  {
    if n > 0 {
      SurvivingAreKept(parts, n - 1);
      assert parts[..n][..n - 1] == parts[..n - 1];
    }
  }

  /** What becomes of one turn. */
  lemma TurnKeeps(raw: Raw)
    ensures var parts := if raw.parts.Some? then raw.parts.value else [];
            NormalizeTurn(raw).parts == KeptOf(parts, |parts|)
  {
    var parts := raw.parts.GetOr([]);
    SurvivingAreKept(parts, |parts|);
    assert parts[..|parts|] == parts;
  }

  lemma TaggedLast(turns: seq<Turn>, t: Turn)
    ensures Tagged(turns + [t]) == Tagged(turns) + Tag(t.role, t.parts)
  {
    assert (turns + [t])[..|turns|] == turns;
  }

  lemma {:induction false} TagConcat(role: string, a: seq<Part>, b: seq<Part>)
    ensures Tag(role, a + b) == Tag(role, a) + Tag(role, b)
  {
    if b == [] {
      assert a + b == a;
    } else {
      assert (a + b)[..|a + b| - 1] == a + b[..|b| - 1];
      TagConcat(role, a, b[..|b| - 1]);
    }
  }

  lemma {:induction false} TagAt(role: string, parts: seq<Part>)
    ensures var r := Tag(role, parts);
            |r| == |parts| && forall k :: 0 <= k < |parts| ==> r[k] == (role, parts[k])
  {
    if parts != [] {
      TagAt(role, parts[..|parts| - 1]);
    }
  }

  lemma JoinedTagged(init: seq<Turn>, last: Turn, parts: seq<Part>)
    ensures Tagged(init + [last.(parts := last.parts + parts)]) == Tagged(init + [last]) + Tag(last.role, parts)
  {
    TaggedLast(init, last);
    TaggedLast(init, last.(parts := last.parts + parts));
    TagConcat(last.role, last.parts, parts);
    Associate(Tagged(init), Tag(last.role, last.parts), Tag(last.role, parts));
  }

  lemma AppendTagged(turns: seq<Turn>, t: Turn)
    ensures Tagged(Append(turns, t)) == Tagged(turns) + Tag(t.role, t.parts)
  {
    if t.parts == [] {
      assert Tagged(turns) + [] == Tagged(turns);
    } else if turns != [] && turns[|turns| - 1].role == t.role {
      var init, last := turns[..|turns| - 1], turns[|turns| - 1];
      assert turns == init + [last];
      assert Append(turns, t) == init + [last.(parts := last.parts + t.parts)];
      JoinedTagged(init, last, t.parts);
    } else {
      TaggedLast(turns, t);
    }
  }

  /**
   * Normalising keeps exactly the parts it should, in order and each in its role; no turn is empty and
   * neighbouring turns have different roles.
   */
  lemma {:induction false} NormalizeKeepsParts(raws: seq<Raw>)
    ensures Tagged(Normalize(raws)) == SurvivingOf(raws)
    ensures Compact(Normalize(raws))
  {
    if raws != [] {
      var rest, t := raws[..|raws| - 1], NormalizeTurn(raws[|raws| - 1]);
      NormalizeKeepsParts(rest);
      TurnKeeps(raws[|raws| - 1]);
      AppendTagged(Normalize(rest), t);
      AppendCompact(Normalize(rest), t);
    }
  }

  lemma AppendCompact(turns: seq<Turn>, t: Turn)
    requires Compact(turns)
    ensures Compact(Append(turns, t))
  {
  }

  // ---------------------------------------------------------------- the grouping is unique

  predicate SameGrouping(a: seq<Turn>, b: seq<Turn>) {
    |a| == |b| && forall i :: 0 <= i < |a| ==> a[i].role == b[i].role && a[i].parts == b[i].parts
  }

  lemma {:induction false} TaggedFirst(turns: seq<Turn>)
    requires turns != []
    ensures Tagged(turns) == Tag(turns[0].role, turns[0].parts) + Tagged(turns[1..])
  {
    if |turns| == 1 {
      assert turns == [] + [turns[0]] && turns[1..] == [];
      TaggedLast([], turns[0]);
    } else {
      var init, last := turns[..|turns| - 1], turns[|turns| - 1];
      var x, y, z := Tag(init[0].role, init[0].parts), Tagged(init[1..]), Tag(last.role, last.parts);
      TaggedFirst(init);
      TaggedSnoc(turns, init, last);
      assert turns[1..] == init[1..] + [last];
      TaggedSnoc(turns[1..], init[1..], last);
      Associate(x, y, z);
    }
  }

  lemma TaggedSnoc(turns: seq<Turn>, init: seq<Turn>, last: Turn)
    requires turns == init + [last]
    ensures Tagged(turns) == Tagged(init) + Tag(last.role, last.parts)
  {
    TaggedLast(init, last);
  }

  lemma Associate<T>(a: seq<T>, b: seq<T>, c: seq<T>)
    ensures (a + b) + c == a + (b + c)
  {
  }

  /** In a compact list the first run of one role is exactly the first turn. */
  lemma {:induction false} FirstRun(turns: seq<Turn>)
    requires Compact(turns) && turns != []
    ensures var tags, n := Tagged(turns), |turns[0].parts|;
            && 0 < n <= |tags|
            && (forall k :: 0 <= k < n ==> tags[k] == (turns[0].role, turns[0].parts[k]))
            && (n < |tags| ==> tags[n].0 != turns[0].role)
  {
    TaggedFirst(turns);
    TagAt(turns[0].role, turns[0].parts);
    if |turns| > 1 {
      TaggedFirst(turns[1..]);
      TagAt(turns[1].role, turns[1].parts);
      assert turns[1..][0] == turns[1] && turns[0].role != turns[1].role;
    } else {
      assert turns[1..] == [];
    }
  }

  /** Two runs of one role from the start, both ending where the role changes, are equally long. */
  lemma SameRun(tags: seq<(string, Part)>, role: string, n: nat, m: nat)
    requires n <= |tags| && m <= |tags|
    requires forall k :: 0 <= k < n || 0 <= k < m ==> tags[k].0 == role
    requires n < |tags| ==> tags[n].0 != role
    requires m < |tags| ==> tags[m].0 != role
    ensures n == m
  {
  }

  lemma RestTags(turns: seq<Turn>)
    requires turns != []
    ensures |turns[0].parts| <= |Tagged(turns)|
    ensures Tagged(turns[1..]) == Tagged(turns)[|turns[0].parts|..]
  {
    TaggedFirst(turns);
    TagAt(turns[0].role, turns[0].parts);
  }

  /** Two runs that read off the same tags hold the same parts. */
  lemma SameParts(tags: seq<(string, Part)>, ra: string, a: seq<Part>, rb: string, b: seq<Part>)
    requires |a| == |b| <= |tags|
    requires forall k :: 0 <= k < |a| ==> tags[k] == (ra, a[k])
    requires forall k :: 0 <= k < |b| ==> tags[k] == (rb, b[k])
    ensures a == b
  {
    forall k | 0 <= k < |a| ensures a[k] == b[k] {
      assert tags[k] == (ra, a[k]);
    }
  }

  lemma {:induction false} SameFirst(a: seq<Turn>, b: seq<Turn>)
    requires Compact(a) && Compact(b) && a != [] && b != [] && Tagged(a) == Tagged(b)
    ensures a[0].role == b[0].role && a[0].parts == b[0].parts
    ensures Tagged(a[1..]) == Tagged(b[1..])
  {
    var tags := Tagged(a);
    FirstRun(a);
    FirstRun(b);
    assert tags[0] == (a[0].role, a[0].parts[0]) && tags[0] == (b[0].role, b[0].parts[0]);
    SameRun(tags, a[0].role, |a[0].parts|, |b[0].parts|);
    SameParts(tags, a[0].role, a[0].parts, b[0].role, b[0].parts);
    RestTags(a);
    RestTags(b);
  }

  lemma {:induction false} CompactUnique(a: seq<Turn>, b: seq<Turn>)
    requires Compact(a) && Compact(b) && Tagged(a) == Tagged(b)
    ensures SameGrouping(a, b)
  {
    if a != [] && b != [] {
      SameFirst(a, b);
      CompactTail(a);
      CompactTail(b);
      CompactUnique(a[1..], b[1..]);
      assert forall i :: 0 < i < |a| ==> a[i] == a[1..][i - 1] && b[i] == b[1..][i - 1];
    } else if a != [] {
      FirstRun(a);
    } else if b != [] {
      FirstRun(b);
    }
  }

  lemma CompactTail(turns: seq<Turn>)
    requires Compact(turns) && turns != []
    ensures Compact(turns[1..])
  {
    var tail := turns[1..];
    forall i | 0 < i < |tail| ensures tail[i - 1].role != tail[i].role {
      assert tail[i - 1] == turns[i] && tail[i] == turns[i + 1];
    }
  }

  /**
   * There is only one way to group the surviving parts into non-empty turns with changing roles, and
   * the normalised list is it.
   */
  lemma NormalizeIsTheGrouping(raws: seq<Raw>, turns: seq<Turn>)
    requires Compact(turns) && Tagged(turns) == SurvivingOf(raws)
    ensures SameGrouping(Normalize(raws), turns)
  {
    NormalizeKeepsParts(raws);
    CompactUnique(Normalize(raws), turns);
  }

  // ---------------------------------------------------------------- the other fields of a turn

  /** The role of the last turn with a kept part. */
  ghost function LastRole(raws: seq<Raw>): Option<string> {
    if raws == [] then None
    else
      var raw := raws[|raws| - 1];
      if SurvivingOf([raw]) != [] then Some(RoleOf(raw)) else LastRole(raws[..|raws| - 1])
  }

  /** The other fields of the turns that begin a run of one role. */
  ghost function Leaders(raws: seq<Raw>): seq<string> {
    if raws == [] then []
    else
      var rest, raw := raws[..|raws| - 1], raws[|raws| - 1];
      Leaders(rest)
      + if SurvivingOf([raw]) != [] && LastRole(rest) != Some(RoleOf(raw)) then [raw.extra] else []
  }

  lemma OneTurnSurvives(raw: Raw)
    ensures SurvivingOf([raw]) != [] <==> NormalizeTurn(raw).parts != []
  {
    TurnKeeps(raw);
    TagAt(NormalizeTurn(raw).role, NormalizeTurn(raw).parts);
    assert [raw][..0] == [];
    assert SurvivingOf([raw]) == [] + Tag(NormalizeTurn(raw).role, NormalizeTurn(raw).parts);
  }

  function Extras(turns: seq<Turn>): seq<string> {
    seq(|turns|, i requires 0 <= i < |turns| => turns[i].extra)
  }

  function RoleAtEnd(turns: seq<Turn>): Option<string> {
    if turns == [] then None else Some(turns[|turns| - 1].role)
  }

  lemma AppendExtras(turns: seq<Turn>, t: Turn)
    ensures Extras(Append(turns, t))
            == Extras(turns) + if t.parts != [] && RoleAtEnd(turns) != Some(t.role) then [t.extra] else []
    ensures RoleAtEnd(Append(turns, t)) == if t.parts != [] then Some(t.role) else RoleAtEnd(turns)
  {
  }

  /** A normalised turn keeps the other fields of the first turn that was joined into it. */
  lemma {:induction false} LeadersKeepFields(raws: seq<Raw>)
    ensures Extras(Normalize(raws)) == Leaders(raws)
    ensures RoleAtEnd(Normalize(raws)) == LastRole(raws)
  {
    if raws != [] {
      var rest, raw := raws[..|raws| - 1], raws[|raws| - 1];
      LeadersKeepFields(rest);
      OneTurnSurvives(raw);
      AppendExtras(Normalize(rest), NormalizeTurn(raw));
    }
  }

  // ---------------------------------------------------------------- stripping model turns

  /** Pop trailing model turns, but never the last turn that is left. */
  function Strip<T>(turns: seq<T>, isModel: T -> bool): (r: seq<T>)
    ensures r <= turns && (turns != [] ==> r != [])
  {
    if |turns| > 1 && isModel(turns[|turns| - 1]) then Strip(turns[..|turns| - 1], isModel) else turns
  }

  /** The longest stripping that leaves a turn: what is popped is model turns, and nothing is left to pop. */
  lemma {:induction false} StripMeans<T>(turns: seq<T>, isModel: T -> bool)
    ensures var r := Strip(turns, isModel);
            && (forall i :: |r| <= i < |turns| ==> isModel(turns[i]))
            && (|r| > 1 ==> !isModel(r[|r| - 1]))
  {
    if |turns| > 1 && isModel(turns[|turns| - 1]) {
      StripMeans(turns[..|turns| - 1], isModel);
    }
  }

  function IsModel(): Turn -> bool {
    (t: Turn) => t.role == "model"
  }

  /**
   * On a normalised conversation the strip removes one turn at most, and what is left ends on
   * another role unless it is a single turn.
   */
  lemma {:induction false} StripNormalized(raws: seq<Raw>)
    ensures var turns := Normalize(raws); var r := Strip(turns, IsModel());
            && |turns| - 1 <= |r| <= |turns|
            && (|r| > 1 ==> r[|r| - 1].role != "model")
            && Compact(r)
  {
    var turns := Normalize(raws);
    var r := Strip(turns, IsModel());
    NormalizeKeepsParts(raws);
    StripMeans(turns, IsModel());
    assert |turns| >= 2 ==> turns[|turns| - 2].role != turns[|turns| - 1].role;
  }
}
