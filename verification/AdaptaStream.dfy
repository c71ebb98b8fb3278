/**
 * The two read loops of `adapta-web.ts` over the `data:` lines of an event stream (section 9.2.6 of
 * the HTML Living Standard, "Interpreting an event stream"): one streams chunks, the other collects
 * text. Both get their input cut into arbitrary pieces. JSON parsing is an arbitrary function.
 */
module AdaptaStream {
  import opened Options
  import opened Strings

  // ---------------------------------------------------------------- lines

  /** Splitting is the inverse of joining: the lines hold no line feed and join to the text. */
  lemma {:induction false} SplitMeans(s: string)
    ensures Join(Split(s)) == s
    ensures forall i :: 0 <= i < |Split(s)| ==> '\n' !in Split(s)[i]
  {
    if s != "" {
      SplitMeans(s[1..]);
      var rest := Split(s[1..]);
      assert s == [s[0]] + s[1..];
      if s[0] == '\n' {
        assert ([""] + rest)[1..] == rest;
        assert "" + "\n" + s[1..] == s;
      } else {
        var lines := [[s[0]] + rest[0]] + rest[1..];
        assert lines[1..] == rest[1..];
        if |rest| > 1 {
          assert [s[0]] + rest[0] + "\n" + Join(rest[1..]) == [s[0]] + (rest[0] + "\n" + Join(rest[1..]));
        }
      }
    }
  }

  /** The lines that are complete, and the piece that waits for its line feed. */
  function Complete(s: string): seq<string> {
    Split(s)[..|Split(s)| - 1]
  }

  function Rest(s: string): string {
    Split(s)[|Split(s)| - 1]
  }

  /** The lines of a text with one more character in front. */
  function Prepend(c: char, lines: seq<string>): seq<string>
    requires lines != []
  {
    if c == '\n' then [""] + lines else [[c] + lines[0]] + lines[1..]
  }

  lemma SplitHead(c: char, s: string)
    ensures Split([c] + s) == Prepend(c, Split(s))
  {
    assert ([c] + s)[1..] == s;
  }

  lemma PrependConcat(c: char, a: seq<string>, b: seq<string>)
    requires a != []
    ensures Prepend(c, a + b) == Prepend(c, a) + b
  {
  }

  lemma SplitParts(s: string)
    ensures Split(s) == Complete(s) + [Rest(s)]
  {
  }

  lemma PartsUnique(s: string, complete: seq<string>, rest: string)
    requires Split(s) == complete + [rest]
    ensures Complete(s) == complete && Rest(s) == rest
  {
  }

  /** Splitting in two steps, with the incomplete piece carried over, is splitting at once. */
  lemma {:induction false} SplitConcat(a: string, b: string)
    ensures Split(a + b) == Complete(a) + Split(Rest(a) + b)
  {
    if a == "" {
      assert a + b == b && Rest(a) + b == b;
    } else {
      var c, t := a[0], a[1..];
      assert a == [c] + t && a + b == [c] + (t + b);
      SplitConcat(t, b);
      SplitHead(c, t + b);
      SplitPrepend(c, t, b);
    }
  }

  lemma SplitPrepend(c: char, t: string, b: string)
    ensures Prepend(c, Complete(t) + Split(Rest(t) + b))
            == Complete([c] + t) + Split(Rest([c] + t) + b)
  {
    SplitHead(c, t);
    SplitParts(t);
    if Complete(t) != [] {
      PrependConcat(c, Complete(t), [Rest(t)]);
      PrependConcat(c, Complete(t), Split(Rest(t) + b));
      PartsUnique([c] + t, Prepend(c, Complete(t)), Rest(t));
    } else {
      assert Complete(t) + Split(Rest(t) + b) == Split(Rest(t) + b);
      if c == '\n' {
        PartsUnique([c] + t, [""], Rest(t));
      } else {
        SplitPrependChar(c, t, b);
      }
    }
  }

  lemma SplitPrependChar(c: char, t: string, b: string)
    requires c != '\n' && Split(t) == [Rest(t)]
    ensures Complete([c] + t) + Split(Rest([c] + t) + b) == Prepend(c, Split(Rest(t) + b))
  {
    var rest := Rest(t);
    SplitHead(c, t);
    assert Split([c] + t) == [] + [[c] + rest];
    PartsUnique([c] + t, [], [c] + rest);
    assert ([c] + rest) + b == [c] + (rest + b);
    SplitHead(c, rest + b);
    DropEmpty(Split(([c] + rest) + b));
  }

  lemma DropEmpty(s: seq<string>)
    ensures [] + s == s
  {
  }

  lemma CompleteConcat(a: string, b: string)
    ensures Complete(a + b) == Complete(a) + Complete(Rest(a) + b)
    ensures Rest(a + b) == Rest(Rest(a) + b)
  {
    SplitConcat(a, b);
  }

  // ---------------------------------------------------------------- events

  datatype Kind = TextDelta | TextEnd | ErrorEvent | DoneEvent | OtherKind

  /** A `delta` field: absent or null, a string, or something else with its `String(...)`. */
  datatype Delta = Missing | Str(text: string) | Other(text: string)

  /**
   * What `JSON.parse` makes of a payload: a syntax error, `null`, or a value whose fields are read.
   * `quick` says that its id is the loading placeholder; `done` and `end` are one kind.
   */
  datatype Parsed = Malformed | Null | Event(kind: Kind, quick: bool, delta: Delta, errorText: string)

  type Parser = string -> Parsed

  const DATA := "data: "

  function RawPayload(line: string): Option<string> {
    if Strings.StartsWith(line, DATA) then Some(line[|DATA|..]) else None
  }

  // ---------------------------------------------------------------- the streaming loop

  datatype Chunk = RoleChunk | ContentChunk(text: string) | StopChunk | DoneMark

  /** What one complete line does to the stream: nothing, emit text, or end it, perhaps with an error. */
  datatype Effect = Nothing | Emit(text: string) | End(error: Option<string>)

  function ErrorContent(text: string): string {
    "\n\n[Erro: " + text + "]"
  }

  function EffectOf(parse: Parser, line: string): Effect {
    var raw := RawPayload(line);
    if raw.None? || Strings.Trim(raw.value) == "" then Nothing
    else
      match parse(Strings.Trim(raw.value))
      case Malformed => Nothing
      case Null => End(None)
      case Event(kind, quick, delta, errorText) =>
        match kind
        case TextDelta => if !quick && delta.Str? && delta.text != "" then Emit(delta.text) else Nothing
        case TextEnd => Nothing
        case ErrorEvent => End(Some(ErrorContent(errorText)))
        case DoneEvent => End(None)
        case OtherKind => Nothing
  }

  /** The content deltas of the lines up to the first one that ends the stream. */
  function Contents(parse: Parser, lines: seq<string>): seq<string> {
    if lines == [] then []
    else
      match EffectOf(parse, lines[0])
      case Nothing => Contents(parse, lines[1..])
      case Emit(text) => [text] + Contents(parse, lines[1..])
      case End(error) => if error.Some? then [error.value] else []
  }

  predicate Ended(parse: Parser, lines: seq<string>) {
    lines != [] && (EffectOf(parse, lines[0]).End? || Ended(parse, lines[1..]))
  }

  function ContentChunks(texts: seq<string>): seq<Chunk> {
    if texts == [] then [] else ContentChunks(texts[..|texts| - 1]) + [ContentChunk(texts[|texts| - 1])]
  }

  /**
   * The transcript of an upstream text, however it arrives: one role chunk, the content deltas up to
   * the first terminal event, one stop chunk, the end mark.
   */
  function Transcript(parse: Parser, text: string): seq<Chunk> {
    [RoleChunk] + ContentChunks(Contents(parse, Complete(text))) + [StopChunk, DoneMark]
  }

  /** What has been enqueued while nothing has ended the stream. */
  function Emitted(texts: seq<string>): seq<Chunk> {
    if texts == [] then [] else [RoleChunk] + ContentChunks(texts)
  }

  lemma {:induction false} ContentsConcat(parse: Parser, a: seq<string>, b: seq<string>)
    ensures Ended(parse, a + b) <==> Ended(parse, a) || Ended(parse, b)
    ensures Contents(parse, a + b)
            == if Ended(parse, a) then Contents(parse, a) else Contents(parse, a) + Contents(parse, b)
  {
    if a == [] {
      assert a + b == b;
    } else {
      assert (a + b)[1..] == a[1..] + b;
      ContentsConcat(parse, a[1..], b);
    }
  }

  lemma ContentsOne(parse: Parser, line: string)
    ensures Contents(parse, [line])
            == match EffectOf(parse, line)
               case Nothing => []
               case Emit(text) => [text]
               case End(error) => if error.Some? then [error.value] else []
    ensures Ended(parse, [line]) <==> EffectOf(parse, line).End?
  {
    assert [line][1..] == [];
  }

  lemma ContentChunksLast(texts: seq<string>, text: string)
    ensures ContentChunks(texts + [text]) == ContentChunks(texts) + [ContentChunk(text)]
  {
    assert (texts + [text])[..|texts|] == texts;
  }

  // ---------------------------------------------------------------- the collecting loop

  function CollectLine(parse: Parser, line: string): string {
    var raw := RawPayload(line);
    if raw.None? then ""
    else
      match parse(raw.value)
      case Event(TextDelta, false, delta, _) => if delta.Missing? then "" else delta.text
      case _ => ""
  }

  function CollectLines(parse: Parser, lines: seq<string>): string {
    if lines == [] then ""
    else CollectLines(parse, lines[..|lines| - 1]) + CollectLine(parse, lines[|lines| - 1])
  }

  lemma {:induction false} CollectConcat(parse: Parser, a: seq<string>, b: seq<string>)
    ensures CollectLines(parse, a + b) == CollectLines(parse, a) + CollectLines(parse, b)
  {
    if b == [] {
      assert a + b == a;
    } else {
      assert (a + b)[..|a + b| - 1] == a + b[..|b| - 1];
      CollectConcat(parse, a, b[..|b| - 1]);
    }
  }

  // ---------------------------------------------------------------- pieces

  function Concat(pieces: seq<string>): string {
    if pieces == [] then "" else Concat(pieces[..|pieces| - 1]) + pieces[|pieces| - 1]
  }

  lemma {:induction false} ConcatTail(pieces: seq<string>, i: nat) returns (tail: string)
    requires i <= |pieces|
    ensures Concat(pieces) == Concat(pieces[..i]) + tail
  {
    if i == |pieces| {
      assert pieces[..i] == pieces;
      tail := "";
    } else {
      var init := pieces[..|pieces| - 1];
      var t := ConcatTail(init, i);
      assert init[..i] == pieces[..i];
      tail := t + pieces[|pieces| - 1];
    }
  }

  /** The lines that the first pieces complete are lines of the whole text, in the same place. */
  lemma {:induction false} CompletePrefix(pieces: seq<string>, i: nat)
    requires i <= |pieces|
    ensures Complete(Concat(pieces[..i])) <= Complete(Concat(pieces))
  {
    var tail := ConcatTail(pieces, i);
    CompleteConcat(Concat(pieces[..i]), tail);
  }

  /** Once the first lines have ended the stream, the rest of the text does not matter. */
  lemma EndedEarly(parse: Parser, lines: seq<string>, all: seq<string>)
    requires lines <= all && Ended(parse, lines)
    ensures Contents(parse, all) == Contents(parse, lines)
  {
    assert all == lines + all[|lines|..];
    ContentsConcat(parse, lines, all[|lines|..]);
  }

  // ---------------------------------------------------------------- what lines mean

  /** The value of a data line that is not blank. */
  function ValueOf(parse: Parser, line: string): Option<Parsed> {
    if |line| >= 6 && line[..6] == "data: " && !Strings.IsBlank(line[6..]) then Some(parse(Strings.Trim(line[6..])))
    else None
  }

  /** The value is null, or a done, end or error event. */
  predicate IsTerminal(parse: Parser, line: string) {
    match ValueOf(parse, line)
    case Some(Null) => true
    case Some(Event(kind, _, _, _)) => kind == DoneEvent || kind == ErrorEvent
    case _ => false
  }

  /** The message of an error event. */
  function ErrorTexts(parse: Parser, line: string): seq<string> {
    match ValueOf(parse, line)
    case Some(Event(ErrorEvent, _, _, text)) => ["\n\n[Erro: " + text + "]"]
    case _ => []
  }

  /** The string of a text delta that is no placeholder, unless it is empty. */
  function DeltaTexts(parse: Parser, line: string): seq<string> {
    match ValueOf(parse, line)
    case Some(Event(TextDelta, false, Str(text), _)) => if text == "" then [] else [text]
    case _ => []
  }

  function AllDeltas(parse: Parser, lines: seq<string>): seq<string> {
    if lines == [] then [] else AllDeltas(parse, lines[..|lines| - 1]) + DeltaTexts(parse, lines[|lines| - 1])
  }

  lemma EffectMeans(parse: Parser, line: string)
    ensures EffectOf(parse, line).End? <==> IsTerminal(parse, line)
    ensures Contents(parse, [line])
            == if IsTerminal(parse, line) then ErrorTexts(parse, line) else DeltaTexts(parse, line)
  {
    ContentsOne(parse, line);
    if Strings.StartsWith(line, DATA) {
      assert line[..6] == DATA;
      Strings.TrimEmptyIffBlank(line[6..]);
    }
  }

  lemma {:induction false} DeltasOfOpenLines(parse: Parser, lines: seq<string>)
    requires forall line :: line in lines ==> !IsTerminal(parse, line)
    ensures !Ended(parse, lines) && Contents(parse, lines) == AllDeltas(parse, lines)
  {
    if lines != [] {
      var rest, last := lines[..|lines| - 1], lines[|lines| - 1];
      assert lines == rest + [last] && last in lines;
      DeltasOfOpenLines(parse, rest);
      EffectMeans(parse, last);
      ContentsOne(parse, last);
      ContentsConcat(parse, rest, [last]);
    }
  }

  /**
   * The stream ends with the first line that carries null, a done, end or error event, and with no other. Up to
   * there it takes the strings of the text deltas; an error adds its message; what follows does not count.
   */
  lemma StreamEndsAtFirst(parse: Parser, before: seq<string>, line: string, after: seq<string>)
    requires forall l :: l in before ==> !IsTerminal(parse, l)
    ensures Contents(parse, before) == AllDeltas(parse, before) && !Ended(parse, before)
    ensures IsTerminal(parse, line) ==>
              && Ended(parse, before + [line] + after)
              && Contents(parse, before + [line] + after) == AllDeltas(parse, before) + ErrorTexts(parse, line)
  {
    DeltasOfOpenLines(parse, before);
    EffectMeans(parse, line);
    ContentsOne(parse, line);
    ContentsConcat(parse, before, [line]);
    ContentsConcat(parse, before + [line], after);
  }

  /** The collecting loop takes the delta of each text delta line, string or not, and of no other line. */
  lemma CollectTakesDeltas(parse: Parser, before: seq<string>, line: string, after: seq<string>)
    ensures CollectLines(parse, before + [line] + after)
            == CollectLines(parse, before)
               + (if |line| >= 6 && line[..6] == "data: "
                  then match parse(line[6..])
                       case Event(TextDelta, false, Str(text), _) => text
                       case Event(TextDelta, false, Other(text), _) => text
                       case _ => ""
                  else "")
               + CollectLines(parse, after)
  {
    CollectConcat(parse, before + [line], after);
    assert (before + [line])[..|before|] == before;
    if Strings.StartsWith(line, DATA) {
      assert line[..6] == DATA;
    }
  }
}
