/**
 * The two loops of `adapta-web.ts` as the source runs them, with their carried-over buffers, and what
 * they promise: the result depends on the concatenated text alone, and the two loops agree.
 */
module AdaptaLoops {
  import opened Options
  import opened AdaptaStream
  import opened Strings

  // ---------------------------------------------------------------- streaming

  method EnsureRole(out: seq<Chunk>, roleEmitted: bool) returns (r: seq<Chunk>)
    ensures r == if roleEmitted then out else out + [RoleChunk]
  {
    r := out;
    if !roleEmitted {
      r := r + [RoleChunk];
    }
  }

  lemma EmittedLast(texts: seq<string>, text: string)
    ensures Emitted(texts + [text])
            == (if texts == [] then Emitted(texts) + [RoleChunk] else Emitted(texts)) + [ContentChunk(text)]
  {
    ContentChunksLast(texts, text);
  }

  lemma EmittedFinal(texts: seq<string>)
    ensures (if texts == [] then Emitted(texts) + [RoleChunk] else Emitted(texts))
            == [RoleChunk] + ContentChunks(texts)
  {
  }

  /** `finalize`: role if still missing, stop, end mark. */
  method Finalize(out: seq<Chunk>, roleEmitted: bool, ghost texts: seq<string>) returns (r: seq<Chunk>)
    requires out == Emitted(texts) && roleEmitted == (texts != [])
    ensures r == [RoleChunk] + ContentChunks(texts) + [StopChunk, DoneMark]
  {
    EmittedFinal(texts);
    r := EnsureRole(out, roleEmitted);
    r := r + [StopChunk] + [DoneMark];
    assert r == [RoleChunk] + ContentChunks(texts) + [StopChunk, DoneMark];
  }

  /** One line of the inner loop: `finished` says that the stream was finalised. */
  method StreamLine(parse: Parser, line: string, before: seq<Chunk>, role: bool, ghost texts: seq<string>)
    returns (out: seq<Chunk>, roleEmitted: bool, finished: bool)
    requires before == Emitted(texts) && role == (texts != [])
    ensures finished == EffectOf(parse, line).End?
    ensures var now := texts + Contents(parse, [line]);
            if finished then out == [RoleChunk] + ContentChunks(now) + [StopChunk, DoneMark]
            else out == Emitted(now) && roleEmitted == (now != [])
  {
    out, roleEmitted, finished := before, role, false;
    ContentsOne(parse, line);
    assert texts + [] == texts;
    match EffectOf(parse, line) {
      case Nothing =>
      case Emit(text) =>
        EmittedLast(texts, text);
        out := EnsureRole(out, roleEmitted);
        roleEmitted := true;
        out := out + [ContentChunk(text)];
      case End(error) =>
        finished := true;
        if error.Some? {
          EmittedLast(texts, error.value);
          out := EnsureRole(out, roleEmitted);
          out := out + [ContentChunk(error.value)];
          out := Finalize(out, true, texts + [error.value]);
        } else {
          out := Finalize(out, roleEmitted, texts);
        }
    }
  }

  /** The inner loop over the lines that a piece completes. */
  method StreamLines(parse: Parser, lines: seq<string>, before: seq<Chunk>, role: bool, ghost done: seq<string>)
    returns (out: seq<Chunk>, roleEmitted: bool, finished: bool)
    requires !Ended(parse, done)
    requires before == Emitted(Contents(parse, done)) && role == (Contents(parse, done) != [])
    ensures finished == Ended(parse, done + lines)
    ensures var texts := Contents(parse, done + lines);
            if finished then out == [RoleChunk] + ContentChunks(texts) + [StopChunk, DoneMark]
            else out == Emitted(texts) && roleEmitted == (texts != [])
  {
    out, roleEmitted, finished := before, role, false;
    assert done + lines[..0] == done;
    for k := 0 to |lines|
      invariant !finished && !Ended(parse, done + lines[..k])
      invariant out == Emitted(Contents(parse, done + lines[..k]))
      invariant roleEmitted == (Contents(parse, done + lines[..k]) != [])
    {
      LineStep(parse, done, lines, k);
      out, roleEmitted, finished :=
        StreamLine(parse, lines[k], out, roleEmitted, Contents(parse, done + lines[..k]));
      if finished {
        LinesAfterEnd(parse, done, lines, k + 1);
        return;
      }
    }
    assert lines[..|lines|] == lines;
  }

  /** What one more line adds. */
  lemma LineStep(parse: Parser, done: seq<string>, lines: seq<string>, k: nat)
    requires k < |lines| && !Ended(parse, done + lines[..k])
    ensures Contents(parse, done + lines[..k + 1])
            == Contents(parse, done + lines[..k]) + Contents(parse, [lines[k]])
    ensures Ended(parse, done + lines[..k + 1]) <==> EffectOf(parse, lines[k]).End?
  {
    assert done + lines[..k + 1] == (done + lines[..k]) + [lines[k]];
    ContentsConcat(parse, done + lines[..k], [lines[k]]);
    ContentsOne(parse, lines[k]);
  }

  /** After a line that ends the stream, the others add nothing. */
  lemma LinesAfterEnd(parse: Parser, done: seq<string>, lines: seq<string>, k: nat)
    requires k <= |lines| && Ended(parse, done + lines[..k])
    ensures Ended(parse, done + lines) && Contents(parse, done + lines) == Contents(parse, done + lines[..k])
  {
    assert done + lines == (done + lines[..k]) + lines[k..];
    ContentsConcat(parse, done + lines[..k], lines[k..]);
  }

  /**
   * `transformStream`. A failing read ends the input like its end does. However the upstream text is
   * cut into pieces, the result is the transcript of the concatenated text.
   */
  method TransformStream(parse: Parser, pieces: seq<string>) returns (out: seq<Chunk>)
    ensures out == Transcript(parse, Concat(pieces))
  {
    var buffer, roleEmitted := "", false;
    out := [];
    for i := 0 to |pieces|
      invariant buffer == Rest(Concat(pieces[..i]))
      invariant !Ended(parse, Complete(Concat(pieces[..i])))
      invariant out == Emitted(Contents(parse, Complete(Concat(pieces[..i]))))
      invariant roleEmitted == (Contents(parse, Complete(Concat(pieces[..i]))) != [])
    {
      ghost var sofar := Concat(pieces[..i]);
      assert pieces[..i + 1][..i] == pieces[..i];
      CompleteConcat(sofar, pieces[i]);
      buffer := buffer + pieces[i];
      var lines := Split(buffer);
      buffer := lines[|lines| - 1];
      lines := lines[..|lines| - 1];
      var finished;
      out, roleEmitted, finished := StreamLines(parse, lines, out, roleEmitted, Complete(sofar));
      if finished {
        CompletePrefix(pieces, i + 1);
        EndedEarly(parse, Complete(Concat(pieces[..i + 1])), Complete(Concat(pieces)));
        return;
      }
    }
    assert pieces[..|pieces|] == pieces;
    out := Finalize(out, roleEmitted, Contents(parse, Complete(Concat(pieces))));
  }

  // ---------------------------------------------------------------- collecting

  method CollectAll(parse: Parser, lines: seq<string>) returns (text: string)
    ensures text == CollectLines(parse, lines)
  {
    text := "";
    for k := 0 to |lines|
      invariant text == CollectLines(parse, lines[..k])
    {
      assert lines[..k + 1][..k] == lines[..k];
      text := text + CollectLine(parse, lines[k]);
    }
    assert lines[..|lines|] == lines;
  }

  /** The non-streaming loop: it looks at every complete line, whatever came before. */
  method CollectText(parse: Parser, pieces: seq<string>) returns (fullText: string)
    ensures fullText == CollectLines(parse, Complete(Concat(pieces)))
  {
    var buf := "";
    fullText := "";
    for i := 0 to |pieces|
      invariant buf == Rest(Concat(pieces[..i]))
      invariant fullText == CollectLines(parse, Complete(Concat(pieces[..i])))
    {
      ghost var sofar := Concat(pieces[..i]);
      assert pieces[..i + 1][..i] == pieces[..i];
      CompleteConcat(sofar, pieces[i]);
      var lines := Split(buf + pieces[i]);
      buf := lines[|lines| - 1];
      lines := lines[..|lines| - 1];
      CollectConcat(parse, Complete(sofar), lines);
      var more := CollectAll(parse, lines);
      fullText := fullText + more;
    }
    assert pieces[..|pieces|] == pieces;
  }

  // ---------------------------------------------------------------- agreement

  /** Around the text there is only blank that JSON knows. */
  predicate PlainText(s: string) {
    Strings.Trim(s) == Strings.TrimBy(s, Strings.IsJsonSpace)
  }

  /**
   * Three facts about JSON syntax: nothing is not a value, JSON blank around a value does not matter, and
   * any other blank there is an error.
   */
  ghost predicate JsonLike(parse: Parser) {
    && parse("") == Malformed
    && (forall s :: parse(Strings.TrimBy(s, Strings.IsJsonSpace)) == parse(s))
    && (forall s :: !PlainText(s) ==> parse(s) == Malformed)
  }

  /** Both loops parse the same value. */
  predicate PlainEdges(line: string) {
    RawPayload(line).Some? ==> PlainText(RawPayload(line).value)
  }

  /** A text delta that is no string reads as nothing. */
  predicate StringDelta(parse: Parser, line: string) {
    RawPayload(line).Some? ==>
      match parse(RawPayload(line).value)
      case Event(TextDelta, false, Other(text), _) => text == ""
      case _ => true
  }

  function EmittedText(parse: Parser, line: string): string {
    match EffectOf(parse, line)
    case Emit(text) => text
    case _ => ""
  }

  /** On one line both loops take the same text. */
  predicate SameText(parse: Parser, line: string) {
    EmittedText(parse, line) == CollectLine(parse, line)
  }

  /** With plain edges both loops parse the same value. */
  lemma SameParse(parse: Parser, raw: string)
    requires JsonLike(parse) && PlainText(raw)
    ensures parse(Strings.Trim(raw)) == parse(raw)
    ensures Strings.Trim(raw) == "" ==> parse(raw) == Malformed
  {
    assert parse(Strings.TrimBy(raw, Strings.IsJsonSpace)) == parse(raw);
  }

  /** What a value does in both loops. */
  lemma SameValue(parse: Parser, line: string, raw: string)
    requires RawPayload(line) == Some(raw) && parse(Strings.Trim(raw)) == parse(raw) && !EffectOf(parse, line).End?
    requires Strings.Trim(raw) == "" ==> parse(raw) == Malformed
    ensures SameText(parse, line) <==> StringDelta(parse, line)
    ensures SameText(parse, line) || EmittedText(parse, line) == ""
  {
    match parse(raw)
    case Malformed =>
    case Null =>
    case Event(kind, quick, delta, errorText) =>
  }

  lemma PlainLineAgrees(parse: Parser, line: string)
    requires JsonLike(parse) && PlainEdges(line) && !EffectOf(parse, line).End?
    ensures SameText(parse, line) <==> StringDelta(parse, line)
    ensures SameText(parse, line) || EmittedText(parse, line) == ""
  {
    var raw := RawPayload(line);
    if raw.Some? {
      SameParse(parse, raw.value);
      SameValue(parse, line, raw.value);
    }
  }

  lemma OtherLineAgrees(parse: Parser, line: string)
    requires JsonLike(parse) && !PlainEdges(line) && !EffectOf(parse, line).End?
    ensures SameText(parse, line) <==> EffectOf(parse, line) == Nothing
    ensures CollectLine(parse, line) == ""
  {
    var raw := RawPayload(line).value;
    assert parse(raw) == Malformed;
    match parse(Strings.Trim(raw))
    case Malformed =>
    case Null =>
    case Event(kind, quick, delta, errorText) =>
  }

  /**
   * When a line that does not end the stream reads the same in both loops: with plain edges, exactly when
   * its delta is a string or nothing; with other blank at an edge, exactly when its trimmed payload emits
   * nothing. In the first case the stream never takes more than the collection, in the second never less.
   */
  lemma LinesAgree(parse: Parser, line: string)
    requires JsonLike(parse) && !EffectOf(parse, line).End?
    ensures SameText(parse, line)
            <==> if PlainEdges(line) then StringDelta(parse, line) else EffectOf(parse, line) == Nothing
    ensures PlainEdges(line) ==> SameText(parse, line) || EmittedText(parse, line) == ""
    ensures !PlainEdges(line) ==> CollectLine(parse, line) == ""
  {
    if PlainEdges(line) {
      PlainLineAgrees(parse, line);
    } else {
      OtherLineAgrees(parse, line);
    }
  }

  /** The lines before the first one that ends the stream. */
  function BeforeEnd(parse: Parser, lines: seq<string>): (r: seq<string>)
    ensures r <= lines && !Ended(parse, r)
  {
    if lines == [] || EffectOf(parse, lines[0]).End? then []
    else [lines[0]] + BeforeEnd(parse, lines[1..])
  }

  function JoinTexts(texts: seq<string>): string {
    if texts == [] then "" else texts[0] + JoinTexts(texts[1..])
  }

  /** Where the stream never takes more than the collection, the texts are equal only line by line. */
  lemma {:induction false} PlainLinesAgree(parse: Parser, lines: seq<string>)
    requires JsonLike(parse) && !Ended(parse, lines)
    requires forall i :: 0 <= i < |lines| ==> PlainEdges(lines[i])
    ensures |JoinTexts(Contents(parse, lines))| <= |CollectLines(parse, lines)|
    ensures JoinTexts(Contents(parse, lines)) == CollectLines(parse, lines)
            <==> forall i :: 0 <= i < |lines| ==> StringDelta(parse, lines[i])
  {
    if lines != [] {
      var rest := lines[1..];
      PlainLinesAgree(parse, rest);
      LinesAgree(parse, lines[0]);
      ContentsFirst(parse, lines);
      CollectFirst(parse, lines);
      assert forall i :: 1 <= i < |lines| ==> lines[i] == rest[i - 1];
      TailsEqual(EmittedText(parse, lines[0]), CollectLine(parse, lines[0]),
                 JoinTexts(Contents(parse, rest)), CollectLines(parse, rest));
      assert (forall i :: 0 <= i < |lines| ==> StringDelta(parse, lines[i]))
        <==> StringDelta(parse, lines[0]) && forall i :: 0 <= i < |rest| ==> StringDelta(parse, rest[i]);
    }
  }

  /** Two texts in two pieces each, none of the first longer than its partner. */
  lemma TailsEqual(a: string, b: string, c: string, d: string)
    requires |a| <= |b| && |c| <= |d| && (|a| == |b| ==> a == b)
    ensures a + c == b + d <==> a == b && c == d
  {
    if a + c == b + d {
      assert |a + c| == |b + d|;
      assert c == (a + c)[|a|..] && d == (b + d)[|b|..];
    }
  }

  /** With string deltas only, the texts are equal exactly when no line with other blank at an edge emits. */
  lemma {:induction false} StringLinesAgree(parse: Parser, lines: seq<string>)
    requires JsonLike(parse) && !Ended(parse, lines)
    requires forall i :: 0 <= i < |lines| ==> StringDelta(parse, lines[i])
    ensures |CollectLines(parse, lines)| <= |JoinTexts(Contents(parse, lines))|
    ensures JoinTexts(Contents(parse, lines)) == CollectLines(parse, lines)
            <==> forall i :: 0 <= i < |lines| ==> PlainEdges(lines[i]) || EffectOf(parse, lines[i]) == Nothing
  {
    if lines != [] {
      var rest := lines[1..];
      StringLinesAgree(parse, rest);
      LinesAgree(parse, lines[0]);
      ContentsFirst(parse, lines);
      CollectFirst(parse, lines);
      assert forall i :: 1 <= i < |lines| ==> lines[i] == rest[i - 1];
      TailsEqual(CollectLine(parse, lines[0]), EmittedText(parse, lines[0]),
                 CollectLines(parse, rest), JoinTexts(Contents(parse, rest)));
      assert (forall i :: 0 <= i < |lines| ==> PlainEdges(lines[i]) || EffectOf(parse, lines[i]) == Nothing)
        <==> && (PlainEdges(lines[0]) || EffectOf(parse, lines[0]) == Nothing)
             && forall i :: 0 <= i < |rest| ==> PlainEdges(rest[i]) || EffectOf(parse, rest[i]) == Nothing;
    }
  }

  lemma ContentsFirst(parse: Parser, lines: seq<string>)
    requires lines != [] && !Ended(parse, lines)
    ensures JoinTexts(Contents(parse, lines))
            == EmittedText(parse, lines[0]) + JoinTexts(Contents(parse, lines[1..]))
  {
    var rest := Contents(parse, lines[1..]);
    if EffectOf(parse, lines[0]).Emit? {
      assert ([EffectOf(parse, lines[0]).text] + rest)[1..] == rest;
    }
  }

  lemma {:induction false} CollectFirst(parse: Parser, lines: seq<string>)
    requires lines != []
    ensures CollectLines(parse, lines) == CollectLine(parse, lines[0]) + CollectLines(parse, lines[1..])
  {
    assert lines == [lines[0]] + lines[1..];
    CollectConcat(parse, [lines[0]], lines[1..]);
    assert [lines[0]][..0] == [];
  }

  /** The stream's contents are those of the lines before the end, and the error if one ended it. */
  lemma {:induction false} ContentsOfAll(parse: Parser, all: seq<string>)
    ensures var n := |BeforeEnd(parse, all)|;
            && BeforeEnd(parse, all) == all[..n]
            && (n == |all| <==> !Ended(parse, all))
            && (n < |all| ==> EffectOf(parse, all[n]).End?)
            && JoinTexts(Contents(parse, all)) == JoinTexts(Contents(parse, all[..n])) + EndText(parse, all[n..])
            && CollectLines(parse, all) == CollectLines(parse, all[..n]) + CollectLines(parse, all[n..])
  {
    var n := |BeforeEnd(parse, all)|;
    EndOfLines(parse, all);
    assert all == all[..n] + all[n..];
    CollectConcat(parse, all[..n], all[n..]);
    ContentsConcat(parse, all[..n], all[n..]);
    JoinConcat(Contents(parse, all[..n]), Contents(parse, all[n..]));
    if n < |all| {
      assert all[n..][0] == all[n];
      JoinOne(parse, all[n..]);
    }
  }

  /** What the line that ends the stream adds: its error message, if it has one. */
  function EndText(parse: Parser, rest: seq<string>): string {
    if rest == [] then ""
    else
      match EffectOf(parse, rest[0])
      case End(Some(text)) => text
      case _ => ""
  }

  lemma JoinOne(parse: Parser, rest: seq<string>)
    requires rest != [] && EffectOf(parse, rest[0]).End?
    ensures JoinTexts(Contents(parse, rest)) == EndText(parse, rest)
  {
    var e := EffectOf(parse, rest[0]);
    if e.error.Some? {
      assert Contents(parse, rest) == [e.error.value];
      assert [e.error.value][1..] == [];
    }
  }

  lemma {:induction false} JoinConcat(a: seq<string>, b: seq<string>)
    ensures JoinTexts(a + b) == JoinTexts(a) + JoinTexts(b)
  {
    if a == [] {
      assert a + b == b;
    } else {
      assert (a + b)[1..] == a[1..] + b;
      JoinConcat(a[1..], b);
    }
  }

  lemma {:induction false} EndOfLines(parse: Parser, all: seq<string>)
    ensures var n := |BeforeEnd(parse, all)|;
            && n <= |all| && BeforeEnd(parse, all) == all[..n]
            && (n == |all| <==> !Ended(parse, all))
            && (n < |all| ==> EffectOf(parse, all[n]).End?)
  {
    if all != [] && !EffectOf(parse, all[0]).End? {
      EndOfLines(parse, all[1..]);
      var m := |BeforeEnd(parse, all[1..])|;
      assert all[..m + 1] == [all[0]] + all[1..][..m];
    }
  }

  /** The exact condition on the lines of a text. */
  lemma LinesEqual(parse: Parser, all: seq<string>, n: nat)
    requires JsonLike(parse) && n == |BeforeEnd(parse, all)| <= |all|
    requires forall line :: line in BeforeEnd(parse, all) ==> PlainEdges(line)
    ensures var same := JoinTexts(Contents(parse, all)) == CollectLines(parse, all);
            var strings := forall i :: 0 <= i < n ==> StringDelta(parse, all[i]);
            && (EndText(parse, all[n..]) == "" ==> (same <==> strings && CollectLines(parse, all[n..]) == ""))
            && (strings ==> (same <==> CollectLines(parse, all[n..]) == EndText(parse, all[n..])))
  {
    ContentsOfAll(parse, all);
    LinesBeforeAgree(parse, all, n);
    PartsAgree(JoinTexts(Contents(parse, all[..n])), CollectLines(parse, all[..n]), EndText(parse, all[n..]),
               CollectLines(parse, all[n..]));
  }

  lemma LinesBeforeAgree(parse: Parser, all: seq<string>, n: nat)
    requires JsonLike(parse) && n <= |all| && BeforeEnd(parse, all) == all[..n]
    requires forall line :: line in all[..n] ==> PlainEdges(line)
    ensures |JoinTexts(Contents(parse, all[..n]))| <= |CollectLines(parse, all[..n])|
    ensures JoinTexts(Contents(parse, all[..n])) == CollectLines(parse, all[..n])
            <==> forall i :: 0 <= i < n ==> StringDelta(parse, all[i])
  {
    var lines := all[..n];
    assert forall i :: 0 <= i < n ==> lines[i] == all[i] && lines[i] in lines;
    PlainLinesAgree(parse, lines);
  }

  /**
   * The exact condition, for any two chunkings of one text whose payload edges are plain. When no error
   * message ends the stream, its content is the collected text if and only if every text delta before the
   * end is a string and the lines from the end on collect nothing. When the deltas before the end are all
   * strings, it is if and only if the lines from the end on collect just the error message, if there is one.
   */
  lemma StreamEqualsCollection(parse: Parser, streamed: seq<string>, collected: seq<string>)
    requires JsonLike(parse) && Concat(streamed) == Concat(collected)
    requires forall line :: line in BeforeEnd(parse, Complete(Concat(streamed))) ==> PlainEdges(line)
    ensures var all := Complete(Concat(streamed));
            var n := |BeforeEnd(parse, all)|;
            var same := JoinTexts(Contents(parse, all)) == CollectLines(parse, Complete(Concat(collected)));
            var strings := forall i :: 0 <= i < n ==> StringDelta(parse, all[i]);
            && (EndText(parse, all[n..]) == "" ==> (same <==> strings && CollectLines(parse, all[n..]) == ""))
            && (strings ==> (same <==> CollectLines(parse, all[n..]) == EndText(parse, all[n..])))
  {
    var all := Complete(Concat(streamed));
    LinesEqual(parse, all, |BeforeEnd(parse, all)|);
  }

  lemma PartsAgree(a: string, b: string, c: string, d: string)
    requires |a| <= |b|
    ensures c == "" ==> (a + c == b + d <==> a == b && d == "")
    ensures a == b ==> (a + c == b + d <==> d == c)
  {
    if c == "" && a + c == b + d {
      assert |a + c| == |b + d|;
      assert a + c == a && b + d == b;
    }
    if a == b && a + c == b + d {
      assert c == (a + c)[|a|..] && d == (b + d)[|b|..];
    }
  }

  /**
   * The exact condition when the edges may carry other blank but every delta is a string: if nothing is
   * emitted or collected from the end of the stream on, as when no event ends it, both loops give the same
   * text if and only if no line with such blank emits.
   */
  lemma ExoticEdgesDecide(parse: Parser, streamed: seq<string>, collected: seq<string>)
    requires JsonLike(parse) && Concat(streamed) == Concat(collected)
    requires forall line :: line in BeforeEnd(parse, Complete(Concat(streamed))) ==> StringDelta(parse, line)
    requires var all := Complete(Concat(streamed));
             var rest := all[|BeforeEnd(parse, all)|..];
             EndText(parse, rest) == "" && CollectLines(parse, rest) == ""
    ensures var all := Complete(Concat(streamed));
            JoinTexts(Contents(parse, all)) == CollectLines(parse, Complete(Concat(collected)))
            <==> forall i :: 0 <= i < |BeforeEnd(parse, all)|
                   ==> PlainEdges(all[i]) || EffectOf(parse, all[i]) == Nothing
  {
    var all := Complete(Concat(streamed));
    ContentsOfAll(parse, all);
    var lines := all[..|BeforeEnd(parse, all)|];
    assert forall i :: 0 <= i < |lines| ==> lines[i] == all[i] && lines[i] in lines;
    StringLinesAgree(parse, lines);
    var a, b := JoinTexts(Contents(parse, lines)), CollectLines(parse, lines);
    assert a + "" == a && b + "" == b;
  }

  lemma TwoLines(parse: Parser, a: string, b: string, text: string)
    requires EffectOf(parse, a) == Nothing && CollectLine(parse, a) == text
    requires EffectOf(parse, b) == End(Some(text)) && CollectLine(parse, b) == ""
    ensures JoinTexts(Contents(parse, [a, b])) == text
    ensures CollectLines(parse, [a, b]) == text
  {
    assert [a, b][1..] == [b];
    JoinOne(parse, [b]);
    CollectFirst(parse, [a, b]);
    CollectFirst(parse, [b]);
    assert [b][1..] == [];
  }

  lemma OtherDeltaLine(parse: Parser, raw: string, text: string)
    requires parse(Strings.Trim(raw)) == parse(raw) == Event(TextDelta, false, Other(text), "")
    requires text != ""
    ensures EffectOf(parse, DATA + raw) == Nothing && CollectLine(parse, DATA + raw) == text
    ensures !StringDelta(parse, DATA + raw)
  {
    assert (DATA + raw)[|DATA|..] == raw;
  }

  lemma ErrorLine(parse: Parser, raw: string, text: string)
    requires parse(Strings.Trim(raw)) == parse(raw) == Event(ErrorEvent, false, Missing, text)
    requires Strings.Trim(raw) != ""
    ensures EffectOf(parse, DATA + raw) == End(Some(ErrorContent(text))) && CollectLine(parse, DATA + raw) == ""
  {
    assert (DATA + raw)[|DATA|..] == raw;
  }

  /**
   * The corner that `StreamEqualsCollection` leaves open: an error message can stand in for a delta before it
   * that is no string but reads the same. The texts are equal although the delta is not streamed.
   */
  lemma ErrorStandsInForDelta(parse: Parser, delta: string, error: string, text: string)
    requires parse(Strings.Trim(delta)) == parse(delta) == Event(TextDelta, false, Other(ErrorContent(text)), "")
    requires parse(Strings.Trim(error)) == parse(error) == Event(ErrorEvent, false, Missing, text)
    requires Strings.Trim(error) != ""
    ensures !StringDelta(parse, DATA + delta)
    ensures JoinTexts(Contents(parse, [DATA + delta, DATA + error])) == ErrorContent(text)
    ensures CollectLines(parse, [DATA + delta, DATA + error]) == ErrorContent(text)
  {
    OtherDeltaLine(parse, delta, ErrorContent(text));
    ErrorLine(parse, error, text);
    TwoLines(parse, DATA + delta, DATA + error, ErrorContent(text));
  }

  /**
   * Blank that only JavaScript strips makes the loops differ: the streaming loop trims it away, the
   * collecting loop hands it to the JSON parser, which rejects it.
   */
  lemma ExoticEdgesDisagree(parse: Parser, payload: string, text: string)
    requires parse(Strings.Trim(payload)) == Event(TextDelta, false, Str(text), "") && text != ""
    requires Strings.Trim(payload) != "" && parse(payload) == Malformed
    ensures EmittedText(parse, DATA + payload) == text && CollectLine(parse, DATA + payload) == ""
  {
    assert (DATA + payload)[|DATA|..] == payload;
  }

  /** A `null` payload ends the stream, while the collecting loop passes over it and reads on. */
  lemma NullEndsOnlyTheStream(parse: Parser, payload: string, later: seq<string>)
    requires parse(Strings.Trim(payload)) == Null == parse(payload) && Strings.Trim(payload) != ""
    ensures Contents(parse, [DATA + payload] + later) == []
    ensures CollectLines(parse, [DATA + payload] + later) == CollectLines(parse, later)
  {
    var line := DATA + payload;
    assert line[|DATA|..] == payload;
    CollectConcat(parse, [line], later);
    assert [line][..0] == [];
  }
}
