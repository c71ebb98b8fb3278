/**
 * The same normalisation as the source runs it, on arrays: each filtered part array is new, joining
 * pushes into it, and stripping pops from the array of turns. The caller's part arrays are nowhere in
 * a `modifies` clause, so they are untouched; the caller's array of turns is reached in one case only.
 */
module AntigravityContentsCode {
  import opened Options
  import opened AntigravityContents

  /** A JavaScript array. */
  class Array<T> {
    var items: seq<T>

    constructor (items: seq<T>)
      ensures this.items == items
    {
      this.items := items;
    }
  }

  /** A turn object as the caller gives it. */
  class Content {
    const role: Option<string>
    const parts: Array?<Part>
    const extra: string

    constructor (role: Option<string>, parts: Array?<Part>, extra: string)
      ensures this.role == role && this.parts == parts && this.extra == extra
    {
      this.role, this.parts, this.extra := role, parts, extra;
    }

    function View(): Raw
      reads parts
    {
      Raw(role, if parts == null then None else Some(parts.items), extra)
    }
  }

  /** A normalised turn object; its part array was made by `filter`. */
  class TurnObject {
    const role: string
    const parts: Array<Part>
    const extra: string

    constructor (role: string, parts: Array<Part>, extra: string)
      ensures this.role == role && this.parts == parts && this.extra == extra
    {
      this.role, this.parts, this.extra := role, parts, extra;
    }

    function View(): Turn
      reads parts
    {
      Turn(role, parts.items, extra)
    }
  }

  ghost predicate Given(contents: seq<Content>, raws: seq<Raw>)
    reads set c | c in contents :: c.parts
  {
    |contents| == |raws| && forall k :: 0 <= k < |contents| ==> contents[k].View() == raws[k]
  }

  ghost predicate Shows(turns: seq<TurnObject>, views: seq<Turn>)
    reads set t | t in turns :: t.parts
  {
    |turns| == |views| && forall k :: 0 <= k < |turns| ==> turns[k].View() == views[k]
  }

  ghost predicate OwnLists(turns: seq<TurnObject>) {
    forall i, j :: 0 <= i < j < |turns| ==> turns[i].parts != turns[j].parts
  }

  // ---------------------------------------------------------------- filtering

  method FilterParts(given: seq<Part>, calls: bool) returns (kept: seq<Part>)
    ensures kept == Surviving(given, calls)
  {
    kept := [];
    for k := 0 to |given|
      invariant kept == Surviving(given[..k], calls)
    {
      assert given[..k + 1][..k] == given[..k];
      if Survives(given[k], calls) {
        kept := kept + [given[k]];
      }
    }
    assert given[..|given|] == given;
  }

  method NormalizeOne(c: Content) returns (t: TurnObject)
    ensures fresh(t) && fresh(t.parts) && t.View() == NormalizeTurn(c.View())
  {
    var given := if c.parts == null then [] else c.parts.items;
    var role := c.role.GetOr("user");
    if HasFunctionResponse(given) {
      role := "user";
    }
    var kept := FilterParts(given, HasFunctionCall(given));
    var list := new Array(kept);
    t := new TurnObject(role, list, c.extra);
  }

  // ---------------------------------------------------------------- joining

  /** Push the parts of `t` into the last turn, or append the turn object itself. */
  method JoinTurn(turns: seq<TurnObject>, t: TurnObject, ghost views: seq<Turn>) returns (r: seq<TurnObject>)
    requires OwnLists(turns + [t]) && Shows(turns, views)
    modifies if turns == [] then {} else {turns[|turns| - 1].parts}
    ensures OwnLists(r) && Shows(r, Append(views, old(t.View())))
    ensures r == turns || r == turns + [t]
  {
    assert (turns + [t])[|turns|] == t;
    assert forall k :: 0 <= k < |turns| ==> (turns + [t])[k] == turns[k];
    r := turns;
    if t.parts.items != [] {
      if turns != [] && turns[|turns| - 1].role == t.role {
        var last := turns[|turns| - 1];
        assert last.View() == views[|views| - 1];
        last.parts.items := last.parts.items + t.parts.items;
      } else {
        assert turns != [] ==> turns[|turns| - 1].View() == views[|views| - 1];
        r := turns + [t];
      }
    }
  }

  /** Where the loop stands before turn `i`: the caller's turns are as given, the rest is joined. */
  ghost predicate JoinedTo(contents: seq<Content>, raws: seq<Raw>, i: nat, turns: seq<TurnObject>)
    reads set c | c in contents :: c.parts
    reads set t | t in turns :: t.parts
  {
    && i <= |raws| && Given(contents, raws)
    && OwnLists(turns) && Shows(turns, Normalize(raws[..i]))
    && forall k, n :: 0 <= k < |contents| && 0 <= n < |turns| ==> contents[k].parts != turns[n].parts
  }

  lemma NormalizeTake(raws: seq<Raw>, i: nat)
    requires i < |raws|
    ensures Normalize(raws[..i + 1]) == Append(Normalize(raws[..i]), NormalizeTurn(raws[i]))
  {
    assert raws[..i + 1][..i] == raws[..i];
  }

  /** The turn's part array is none of the arrays in use. */
  ghost predicate Apart(contents: seq<Content>, turns: seq<TurnObject>, t: TurnObject) {
    && (forall k :: 0 <= k < |contents| ==> contents[k].parts != t.parts)
    && (forall k :: 0 <= k < |turns| ==> turns[k].parts != t.parts)
  }

  /** Joining writes to the new arrays only, so the caller's turns still read as given. */
  method JoinStep(contents: seq<Content>, ghost raws: seq<Raw>, ghost i: nat,
                  turns: seq<TurnObject>, t: TurnObject)
    returns (r: seq<TurnObject>)
    requires i < |raws| && JoinedTo(contents, raws, i, turns) && Apart(contents, turns, t)
    requires t.View() == NormalizeTurn(raws[i])
    modifies if turns == [] then {} else {turns[|turns| - 1].parts}
    ensures JoinedTo(contents, raws, i + 1, r)
    ensures r == turns || r == turns + [t]
  {
    NormalizeTake(raws, i);
    r := JoinTurn(turns, t, Normalize(raws[..i]));
  }

  /** One turn: filter it into a new object, then join that to the turns so far. */
  method NormalizeStep(contents: seq<Content>, ghost raws: seq<Raw>, i: nat, turns: seq<TurnObject>)
    returns (r: seq<TurnObject>)
    requires i < |raws| && JoinedTo(contents, raws, i, turns)
    modifies if turns == [] then {} else {turns[|turns| - 1].parts}
    ensures JoinedTo(contents, raws, i + 1, r)
    ensures forall k :: 0 <= k < |r| ==> fresh(r[k].parts) || (k < |turns| && r[k] == turns[k])
  {
    assert contents[i].View() == raws[i];
    var t := NormalizeOne(contents[i]);
    r := JoinStep(contents, raws, i, turns, t);
  }

  /** Filter and join. No array that existed before is changed. */
  method NormalizeContents(contents: seq<Content>, ghost raws: seq<Raw>) returns (turns: seq<TurnObject>)
    requires Given(contents, raws)
    ensures OwnLists(turns) && Shows(turns, Normalize(raws))
    ensures forall k :: 0 <= k < |turns| ==> fresh(turns[k].parts)
  {
    turns := [];
    for i := 0 to |contents|
      invariant JoinedTo(contents, raws, i, turns)
      invariant forall k :: 0 <= k < |turns| ==> fresh(turns[k].parts)
    {
      turns := NormalizeStep(contents, raws, i, turns);
    }
    assert raws[..|contents|] == raws;
  }

  // ---------------------------------------------------------------- stripping

  /** `stripTrailingAntigravityAssistantTurn`: pop in place. */
  method StripTrailing<T>(contents: Array<T>, isModel: T -> bool)
    modifies contents
    ensures contents.items == Strip(old(contents.items), isModel)
  {
    while |contents.items| > 1 && isModel(contents.items[|contents.items| - 1])
      invariant Strip(contents.items, isModel) == Strip(old(contents.items), isModel)
      decreases |contents.items|
    {
      contents.items := contents.items[..|contents.items| - 1];
    }
  }

  /** The array of turns that goes upstream: a new one, or the caller's own. */
  datatype Prepared = Own(turns: Array<TurnObject>) | Callers(contents: Array<Content>)

  function IsModelTurn(): TurnObject -> bool {
    (t: TurnObject) => t.role == "model"
  }

  function IsModelContent(): Content -> bool {
    (c: Content) => c.role == Some("model")
  }

  lemma {:induction false} StripShows(turns: seq<TurnObject>, views: seq<Turn>)
    requires Shows(turns, views)
    ensures Shows(Strip(turns, IsModelTurn()), Strip(views, IsModel()))
  {
    if |turns| > 1 {
      assert turns[|turns| - 1].View() == views[|views| - 1];
      if IsModelTurn()(turns[|turns| - 1]) {
        var shorter := turns[..|turns| - 1];
        assert forall k :: 0 <= k < |shorter| ==> shorter[k] == turns[k];
        StripShows(shorter, views[..|views| - 1]);
      }
    }
  }

  /**
   * Normalise, and strip for Claude models. When no part survives, the request keeps the array the
   * caller passed in, and the strip then pops the caller's array.
   */
  method PrepareContents(contents: Array<Content>, ghost raws: seq<Raw>, isClaude: bool) returns (p: Prepared)
    requires Given(contents.items, raws)
    modifies contents
    ensures p.Own? <==> Normalize(raws) != []
    ensures p.Own? ==> fresh(p.turns) && contents.items == old(contents.items)
    ensures p.Own? ==> Shows(p.turns.items, if isClaude then Strip(Normalize(raws), IsModel()) else Normalize(raws))
    ensures p.Callers? ==> p.contents == contents
    ensures p.Callers? && isClaude ==> contents.items == Strip(old(contents.items), IsModelContent())
    ensures p.Callers? && !isClaude ==> contents.items == old(contents.items)
  {
    var turns := NormalizeContents(contents.items, raws);
    if turns != [] {
      var own := new Array(turns);
      if isClaude {
        StripTrailing(own, IsModelTurn());
        StripShows(turns, Normalize(raws));
      }
      p := Own(own);
    } else {
      if isClaude {
        StripTrailing(contents, IsModelContent());
      }
      p := Callers(contents);
    }
  }

  /** When the caller's array loses a turn: a Claude model, no surviving part, a trailing model turn. */
  lemma CallersArrayShrinks(items: seq<Content>, raws: seq<Raw>, isClaude: bool)
    requires |items| == |raws|
    ensures var after := if Normalize(raws) == [] && isClaude then Strip(items, IsModelContent()) else items;
            after != items <==> isClaude && SurvivingOf(raws) == [] && |items| > 1
                                && items[|items| - 1].role == Some("model")
  {
    NormalizeKeepsParts(raws);
    if Normalize(raws) != [] {
      FirstRun(Normalize(raws));
    }
  }
}
