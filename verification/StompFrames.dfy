/**
 * The STOMP frames of `chipotle.ts` (STOMP Protocol Specification 1.1, section "STOMP Frames"):
 * building a SEND frame and extracting the body of a MESSAGE frame.
 */
module StompFrames {
  import opened Integers
  import opened Options
  import Strings

  // ---------------------------------------------------------------- strings

  /** `pattern` stands at position `i`. */
  predicate At(s: string, pattern: string, i: nat) {
    i + |pattern| <= |s| && forall k :: 0 <= k < |pattern| ==> pattern[k] == s[i + k]
  }

  function IndexFrom(s: string, pattern: string, i: nat): Option<nat>
    decreases |s| + 1 - i
  {
    if i > |s| then None
    else if At(s, pattern, i) then Some(i)
    else IndexFrom(s, pattern, i + 1)
  }

  /** `s.indexOf(pattern)`; None stands for -1. */
  function IndexOf(s: string, pattern: string): Option<nat> {
    IndexFrom(s, pattern, 0)
  }

  /** The first position from `i` on at which the pattern stands, and None if there is none. */
  lemma {:induction false} IndexFromFirst(s: string, pattern: string, i: nat)
    ensures match IndexFrom(s, pattern, i)
            case Some(p) => i <= p && At(s, pattern, p) && forall j :: i <= j < p ==> !At(s, pattern, j)
            case None => forall j :: i <= j ==> !At(s, pattern, j)
    decreases |s| + 1 - i
  {
    if i <= |s| && !At(s, pattern, i) {
      IndexFromFirst(s, pattern, i + 1);
    }
  }

  lemma IndexOfIs(s: string, pattern: string, i: nat)
    requires At(s, pattern, i) && forall j :: 0 <= j < i ==> !At(s, pattern, j)
    ensures IndexOf(s, pattern) == Some(i)
  {
    IndexFromFirst(s, pattern, 0);
  }

  /** `s.substring(from, to)`: bounds are cut to the length, and swapped when out of order. */
  function Substring(s: string, from: nat, to: nat): string {
    var a, b := Min(from, |s|), Min(to, |s|);
    s[Min(a, b)..Max(a, b)]
  }

  /** `s.replace(/\0$/, "")`. */
  function DropFinalNul(s: string): string {
    if s != "" && s[|s| - 1] == '\0' then s[..|s| - 1] else s
  }

  // ---------------------------------------------------------------- frames

  const LFLF := "\n\n"
  const CRLFCRLF := "\r\n\r\n"
  const NUL := "\0"

  lemma AtLfLf(s: string, i: nat)
    ensures At(s, LFLF, i) <==> i + 1 < |s| && s[i] == '\n' && s[i + 1] == '\n'
  {
    if At(s, LFLF, i) {
      assert LFLF[0] == s[i + 0] && LFLF[1] == s[i + 1];
    }
  }

  lemma AtCrlfCrlf(s: string, i: nat)
    ensures At(s, CRLFCRLF, i)
            <==> i + 3 < |s| && s[i] == '\r' && s[i + 1] == '\n' && s[i + 2] == '\r' && s[i + 3] == '\n'
  {
    if At(s, CRLFCRLF, i) {
      assert CRLFCRLF[0] == s[i + 0] && CRLFCRLF[1] == s[i + 1];
      assert CRLFCRLF[2] == s[i + 2] && CRLFCRLF[3] == s[i + 3];
    }
  }

  lemma AtNul(s: string, i: nat)
    ensures At(s, NUL, i) <==> i < |s| && s[i] == '\0'
  {
    if At(s, NUL, i) {
      assert NUL[0] == s[i + 0];
    }
  }

  /** The cut behind the blank line at `start`, whose length is guessed from the character after it. */
  function CutAt(frame: string, start: nat, end: nat): string {
    var headerLen := if start + 2 < |frame| && frame[start + 2] == '\r' then 4 else 2;
    DropFinalNul(Substring(frame, start + headerLen, end))
  }

  /** The body part of `handleStompMessage`. */
  function ExtractBody(frame: string): string {
    var nullIdx := IndexOf(frame, NUL);
    var lf := IndexOf(frame, LFLF);
    var bodyStart := if lf.Some? then lf else IndexOf(frame, CRLFCRLF);
    if bodyStart.None? then ""
    else CutAt(frame, bodyStart.value, if nullIdx.Some? then nullIdx.value else |frame|)
  }

  function LfFrame(headers: string, body: string): string {
    headers + LFLF + body + NUL
  }

  function CrlfFrame(headers: string, body: string): string {
    headers + CRLFCRLF + body + NUL
  }

  function SendHeaders(destination: string, length: string): string {
    "SEND\ndestination:" + destination + "\ncontent-type:" + "application/json"
    + "\ncontent-length:" + length
  }

  /** `buildStompSend`; the byte length of the body is given. */
  function BuildSend(destination: string, length: string, body: string): string {
    SendHeaders(destination, length) + "\n\n" + body + "\0"
  }

  lemma {:induction false} SplitLine(line: string, rest: string)
    requires '\n' !in line
    ensures Strings.Split(line + "\n" + rest) == [line] + Strings.Split(rest)
  {
    if line == "" {
      assert line + "\n" + rest == "\n" + rest && ("\n" + rest)[1..] == rest;
    } else {
      var s := line + "\n" + rest;
      assert s[0] == line[0] && s[1..] == line[1..] + "\n" + rest;
      SplitLine(line[1..], rest);
      assert [line[0]] + line[1..] == line;
    }
  }

  lemma Regroup(a: string, b: string, c: string)
    ensures (a + b) + c == a + (b + c)
  {
  }

  /** Lines in front of a text, one after another. */
  lemma TwoLines(a: string, b: string, rest: string)
    requires '\n' !in a && '\n' !in b
    ensures Strings.Split((a + "\n" + b) + "\n" + rest) == [a, b] + Strings.Split(rest)
  {
    Regroup(a + "\n", b, "\n");
    Regroup(a + "\n", b + "\n", rest);
    SplitLine(a, b + "\n" + rest);
    SplitLine(b, rest);
  }

  lemma FourLines(a: string, b: string, c: string, d: string, rest: string)
    requires '\n' !in a && '\n' !in b && '\n' !in c && '\n' !in d
    ensures Strings.Split((a + "\n" + b) + "\n" + ((c + "\n" + d) + "\n" + rest))
            == [a, b] + ([c, d] + Strings.Split(rest))
  {
    TwoLines(a, b, (c + "\n" + d) + "\n" + rest);
    TwoLines(c, d, rest);
  }

  lemma HeaderPieces(send: string, kind: string, json: string, size: string, a: string, b: string, c: string,
                     d: string, n: string, destination: string, length: string)
    requires send == a + n + b && kind + json == n + c && size == n + d
    ensures send + destination + kind + json + size + length
            == (a + n + (b + destination)) + n + (c + n + (d + length))
  {
    var x := send + destination;
    Regroup(x, kind, json);
    Regroup(a + n, b, destination);
    Regroup(x + (n + c), size, length);
    Regroup(n, d, length);
    Regroup(x, n, c);
    Regroup(x + n, c, n + (d + length));
    Regroup(c, n, d + length);
  }

  lemma CommandLine()
    ensures "SEND\ndestination:" == "SEND" + "\n" + "destination:"
  {
  }

  lemma TypeLine()
    ensures "\ncontent-type:" + "application/json" == "\n" + "content-type:application/json"
  {
  }

  lemma LengthLine()
    ensures "\ncontent-length:" == "\n" + "content-length:"
  {
  }

  lemma HeaderLines(destination: string, length: string)
    ensures SendHeaders(destination, length)
            == ("SEND" + "\n" + ("destination:" + destination)) + "\n"
               + ("content-type:application/json" + "\n" + ("content-length:" + length))
  {
    CommandLine();
    TypeLine();
    LengthLine();
    HeaderPieces("SEND\ndestination:", "\ncontent-type:", "application/json", "\ncontent-length:", "SEND",
                 "destination:", "content-type:application/json", "content-length:", "\n", destination, length);
  }

  /** Read by lines, a built frame is its command, its three headers, a blank line, and the body with a NUL. */
  lemma SendFrameLines(destination: string, length: string, body: string)
    requires '\n' !in destination && '\n' !in length
    ensures Strings.Split(BuildSend(destination, length, body))
            == ["SEND", "destination:" + destination]
               + (["content-type:application/json", "content-length:" + length]
                  + ([""] + Strings.Split(body + "\0")))
  {
    var tail := body + "\0";
    var a, b := "SEND", "destination:" + destination;
    var c, d := "content-type:application/json", "content-length:" + length;
    HeaderLines(destination, length);
    SendSplits(a, b, c, d, tail, BuildSend(destination, length, body)) by {
      assert BuildSend(destination, length, body)
             == ((a + "\n" + b) + "\n" + (c + "\n" + d)) + "\n" + ("\n" + tail);
    }
  }

  lemma SendSplits(a: string, b: string, c: string, d: string, tail: string, frame: string)
    requires '\n' !in a && '\n' !in b && '\n' !in c && '\n' !in d
    requires frame == ((a + "\n" + b) + "\n" + (c + "\n" + d)) + "\n" + ("\n" + tail)
    ensures Strings.Split(frame) == [a, b] + ([c, d] + ([""] + Strings.Split(tail)))
  {
    var x, y := a + "\n" + b, c + "\n" + d;
    Regroup(x + "\n", y, "\n");
    Regroup(x + "\n", y + "\n", "\n" + tail);
    FourLines(a, b, c, d, "\n" + tail);
    assert "" + "\n" + tail == "\n" + tail;
    SplitLine("", tail);
  }

  /** No header line is empty, and the last one does not end in a line feed. */
  predicate NoBlankLine(headers: string) {
    forall i :: 0 <= i < |headers| && headers[i] == '\n' ==> i + 1 < |headers| && headers[i + 1] != '\n'
  }

  predicate Without(s: string, c: char) {
    forall i :: 0 <= i < |s| ==> s[i] != c
  }

  // ---------------------------------------------------------------- the characters of a frame

  lemma LfChars(headers: string, body: string)
    ensures var f, n := LfFrame(headers, body), |headers|;
            && |f| == n + 2 + |body| + 1
            && (forall i :: 0 <= i < n ==> f[i] == headers[i])
            && f[n] == '\n' && f[n + 1] == '\n' && f[|f| - 1] == '\0'
            && (forall i :: n + 2 <= i < n + 2 + |body| ==> f[i] == body[i - n - 2])
  {
  }

  lemma CrlfChars(headers: string, body: string)
    ensures var f, n := CrlfFrame(headers, body), |headers|;
            && |f| == n + 4 + |body| + 1
            && (forall i :: 0 <= i < n ==> f[i] == headers[i])
            && f[n] == '\r' && f[n + 1] == '\n' && f[n + 2] == '\r' && f[n + 3] == '\n' && f[|f| - 1] == '\0'
            && (forall i :: n + 4 <= i < n + 4 + |body| ==> f[i] == body[i - n - 4])
  {
  }

  // ---------------------------------------------------------------- LF frames

  lemma LfStart(headers: string, body: string)
    requires NoBlankLine(headers)
    ensures IndexOf(LfFrame(headers, body), LFLF) == Some(|headers|)
  {
    var frame := LfFrame(headers, body);
    LfChars(headers, body);
    forall j | 0 <= j < |headers| ensures !At(frame, LFLF, j) {
      AtLfLf(frame, j);
    }
    AtLfLf(frame, |headers|);
    IndexOfIs(frame, LFLF, |headers|);
  }

  /** The end of the body as extraction sees it: its first NUL, or its length. */
  lemma {:induction false} FirstNul(body: string, i: nat) returns (k: nat)
    requires i <= |body| && Without(body[..i], '\0')
    ensures i <= k <= |body| && Without(body[..k], '\0') && (k < |body| ==> body[k] == '\0')
    ensures k == |body| <==> Without(body, '\0')
    decreases |body| - i
  {
    if i == |body| {
      assert body[..i] == body;
      k := i;
    } else if body[i] == '\0' {
      k := i;
    } else {
      assert body[..i + 1] == body[..i] + [body[i]];
      k := FirstNul(body, i + 1);
    }
  }

  /** `k` is where the body's text ends. */
  predicate EndsAt(body: string, k: nat) {
    k <= |body| && Without(body[..k], '\0') && (k < |body| ==> body[k] == '\0')
  }

  lemma NulAt(frame: string, before: nat, body: string, k: nat)
    requires EndsAt(body, k) && |frame| == before + |body| + 1 && frame[|frame| - 1] == '\0'
    requires forall i :: 0 <= i < before ==> frame[i] != '\0'
    requires forall i :: 0 <= i < |body| ==> frame[before + i] == body[i]
    ensures IndexOf(frame, NUL) == Some(before + k)
  {
    forall j | 0 <= j < before + k ensures !At(frame, NUL, j) {
      AtNul(frame, j);
      if j >= before {
        assert frame[before + (j - before)] == body[j - before] == body[..k][j - before];
      }
    }
    AtNul(frame, before + k);
    IndexOfIs(frame, NUL, before + k);
  }

  lemma LfNul(headers: string, body: string, k: nat)
    requires Without(headers, '\0') && EndsAt(body, k)
    ensures IndexOf(LfFrame(headers, body), NUL) == Some(|headers| + 2 + k)
  {
    LfChars(headers, body);
    NulAt(LfFrame(headers, body), |headers| + 2, body, k);
  }

  /** Up to the first NUL, a body that does not start with a carriage return is extracted. */
  lemma LfPlainBody(headers: string, body: string, k: nat)
    requires NoBlankLine(headers) && Without(headers, '\0') && EndsAt(body, k)
    requires body != "" ==> body[0] != '\r'
    ensures ExtractBody(LfFrame(headers, body)) == body[..k]
  {
    var frame, n := LfFrame(headers, body), |headers|;
    LfStart(headers, body);
    LfNul(headers, body, k);
    LfChars(headers, body);
    assert frame[n + 2] == if body != "" then body[0] else '\0';
    assert frame[n + 2..n + 2 + k] == body[..k];
  }

  /** A body that starts with a carriage return loses its first two characters, or all of it. */
  lemma LfCrBody(headers: string, body: string, k: nat)
    requires NoBlankLine(headers) && Without(headers, '\0') && EndsAt(body, k)
    requires body != "" && body[0] == '\r'
    ensures |ExtractBody(LfFrame(headers, body))| < |body|
  {
    var frame, n := LfFrame(headers, body), |headers|;
    LfStart(headers, body);
    LfNul(headers, body, k);
    LfChars(headers, body);
    assert frame[n + 2] == body[0] && k > 0;
    if k == 1 {
      assert Substring(frame, n + 4, n + 3) == frame[n + 3..n + 4] == [frame[n + 3]];
      assert frame[n + 3] == '\0';
    }
  }

  /** Without a final NUL the body reaches to the end of the frame. */
  lemma UnterminatedBody(headers: string, body: string)
    requires NoBlankLine(headers) && Without(headers, '\0') && Without(body, '\0')
    requires body != "" ==> body[0] != '\r'
    ensures ExtractBody(headers + "\n\n" + body) == body
  {
    var frame, n := headers + LFLF + body, |headers|;
    forall j: nat ensures !At(frame, NUL, j) {
      AtNul(frame, j);
    }
    IndexFromFirst(frame, NUL, 0);
    forall j | 0 <= j < n ensures !At(frame, LFLF, j) {
      AtLfLf(frame, j);
    }
    AtLfLf(frame, n);
    IndexOfIs(frame, LFLF, n);
    assert frame[n + 2..] == body;
    assert ExtractBody(frame) == CutAt(frame, n, |frame|);
    assert DropFinalNul(body) == body;
  }

  /** A frame without a blank line has no body. */
  lemma NoBlankLineNoBody(frame: string)
    requires forall i :: 0 <= i < |frame| - 1 && frame[i] == '\n' ==> frame[i + 1] != '\n'
    requires forall i :: 0 <= i < |frame| - 3 && frame[i] == '\r' && frame[i + 1] == '\n' && frame[i + 2] == '\r'
               ==> frame[i + 3] != '\n'
    ensures ExtractBody(frame) == ""
  {
    forall j: nat ensures !At(frame, LFLF, j) && !At(frame, CRLFCRLF, j) {
      AtLfLf(frame, j);
      AtCrlfCrlf(frame, j);
    }
    IndexFromFirst(frame, LFLF, 0);
    IndexFromFirst(frame, CRLFCRLF, 0);
  }

  /**
   * For headers without a blank line, extraction gives back the body of an LF frame exactly when the
   * body has no NUL and does not start with a carriage return.
   */
  lemma LfRoundTrip(headers: string, body: string)
    requires NoBlankLine(headers) && Without(headers, '\0')
    ensures ExtractBody(LfFrame(headers, body)) == body
            <==> Without(body, '\0') && (body != "" ==> body[0] != '\r')
  {
    var k := FirstNul(body, 0);
    if body != "" && body[0] == '\r' {
      LfCrBody(headers, body, k);
    } else {
      LfPlainBody(headers, body, k);
      assert body[..|body|] == body;
    }
  }

  /** A SEND frame carries any JSON text: such text has no control characters. */
  lemma SendRoundTrip(destination: string, length: string, body: string)
    requires Without(destination, '\n') && Without(destination, '\0')
    requires Without(length, '\n') && Without(length, '\0')
    requires forall i :: 0 <= i < |body| ==> body[i] >= ' '
    ensures ExtractBody(BuildSend(destination, length, body)) == body
  {
    SendHeadersPlain(destination, length);
    LfRoundTrip(SendHeaders(destination, length), body);
  }

  lemma NoBlankConcat(a: string, b: string)
    requires NoBlankLine(a) && NoBlankLine(b) && Without(a, '\0') && Without(b, '\0')
    ensures NoBlankLine(a + b) && Without(a + b, '\0')
  {
    forall i | 0 <= i < |a + b| && (a + b)[i] == '\n'
      ensures i + 1 < |a + b| && (a + b)[i + 1] != '\n'
    {
      if i < |a| {
        assert a[i] == '\n' && i + 1 < |a| && (a + b)[i + 1] == a[i + 1];
      } else {
        assert b[i - |a|] == '\n';
      }
    }
  }

  lemma CommandLiteral()
    ensures NoBlankLine("SEND\ndestination:") && Without("SEND\ndestination:", '\0')
  {
  }

  lemma TypeLiterals()
    ensures NoBlankLine("\ncontent-type:") && Without("\ncontent-type:", '\0')
    ensures NoBlankLine("application/json") && Without("application/json", '\0')
  {
  }

  lemma LengthLiteral()
    ensures NoBlankLine("\ncontent-length:") && Without("\ncontent-length:", '\0')
  {
  }

  lemma SendHeadersPlain(destination: string, length: string)
    requires Without(destination, '\n') && Without(destination, '\0')
    requires Without(length, '\n') && Without(length, '\0')
    ensures NoBlankLine(SendHeaders(destination, length)) && Without(SendHeaders(destination, length), '\0')
  {
    var a, b, c, d := "SEND\ndestination:", "\ncontent-type:", "application/json", "\ncontent-length:";
    CommandLiteral();
    TypeLiterals();
    LengthLiteral();
    NoBlankConcat(a, destination);
    NoBlankConcat(a + destination, b);
    NoBlankConcat(a + destination + b, c);
    NoBlankConcat(a + destination + b + c, d);
    NoBlankConcat(a + destination + b + c + d, length);
  }

  // ---------------------------------------------------------------- CRLF frames

  lemma CrlfStart(headers: string, body: string)
    requires NoBlankLine(headers) && forall j: nat :: !At(headers, CRLFCRLF, j)
    ensures IndexOf(CrlfFrame(headers, body), CRLFCRLF) == Some(|headers|)
  {
    var frame, n := CrlfFrame(headers, body), |headers|;
    CrlfChars(headers, body);
    forall j | 0 <= j < n ensures !At(frame, CRLFCRLF, j) {
      AtCrlfCrlf(frame, j);
      AtCrlfCrlf(headers, j);
    }
    AtCrlfCrlf(frame, n);
    IndexOfIs(frame, CRLFCRLF, n);
  }

  /** An LF LF stands in a CRLF frame only where it stands in the body, with the LF before it. */
  lemma CrlfAt(headers: string, body: string, j: nat)
    requires NoBlankLine(headers)
    ensures At(CrlfFrame(headers, body), LFLF, j)
            <==> j >= |headers| + 3 && At("\n" + body, LFLF, j - |headers| - 3)
  {
    var frame, tail, n := CrlfFrame(headers, body), "\n" + body, |headers| + 3;
    CrlfChars(headers, body);
    AtLfLf(frame, j);
    if j >= n {
      AtLfLf(tail, j - n);
      assert forall i :: 0 < i < |tail| ==> tail[i] == body[i - 1];
    }
  }

  /** Where the first LF LF of a CRLF frame is: in the body, or at its start after the blank line. */
  lemma CrlfLfLf(headers: string, body: string)
    requires NoBlankLine(headers)
    ensures match IndexOf("\n" + body, LFLF)
            case Some(p) => p < |body| && IndexOf(CrlfFrame(headers, body), LFLF) == Some(|headers| + 3 + p)
            case None => IndexOf(CrlfFrame(headers, body), LFLF) == None
  {
    var frame, tail, n := CrlfFrame(headers, body), "\n" + body, |headers| + 3;
    IndexFromFirst(tail, LFLF, 0);
    IndexFromFirst(frame, LFLF, 0);
    var inFrame, inTail := IndexOf(frame, LFLF), IndexOf(tail, LFLF);
    if inTail.Some? {
      CrlfAt(headers, body, n + inTail.value);
      AtLfLf(tail, inTail.value);
    }
    if inFrame.Some? {
      CrlfAt(headers, body, inFrame.value);
    }
  }

  lemma CrlfNul(headers: string, body: string, k: nat)
    requires Without(headers, '\0') && EndsAt(body, k)
    ensures IndexOf(CrlfFrame(headers, body), NUL) == Some(|headers| + 4 + k)
  {
    CrlfChars(headers, body);
    NulAt(CrlfFrame(headers, body), |headers| + 4, body, k);
  }

  /** With no LF LF the body is extracted up to its first NUL. */
  lemma CrlfWhole(headers: string, body: string, k: nat)
    requires EndsAt(body, k)
    ensures var frame, n := CrlfFrame(headers, body), |headers|;
            && n + 2 < |frame| && frame[n + 2] == '\r'
            && DropFinalNul(Substring(frame, n + 4, n + 4 + k)) == body[..k]
  {
    var frame, n := CrlfFrame(headers, body), |headers|;
    CrlfChars(headers, body);
    assert frame[n + 4..n + 4 + k] == body[..k];
  }

  /**
   * The body starts with NUL, and its first LF LF ends so near its end that the swapped bounds of the cut
   * reach just behind it: last of all, or followed by a CR, or by a CR and one more character.
   */
  predicate SwappedCutIsWhole(body: string, p: nat)
    requires p < |body|
  {
    && body[0] == '\0'
    && (p + 1 == |body|
        || (p + 2 == |body| && body[p + 1] == '\r')
        || (p + 3 == |body| && body[p + 1] == '\r' && body[p + 2] != '\0'))
  }

  /** The body and a final NUL stand in the frame from `at` on. */
  predicate HoldsBody(frame: string, at: nat, body: string) {
    |frame| == at + |body| + 1 && frame[at..at + |body|] == body && frame[|frame| - 1] == '\0'
  }

  lemma CharOfBody(frame: string, at: nat, body: string, i: nat)
    requires HoldsBody(frame, at, body) && i < |body|
    ensures frame[at + i] == body[i]
  {
    assert frame[at..at + |body|][i] == frame[at + i];
  }

  /** A cut with its bounds in order, from behind the first character on, is too short to be the body. */
  lemma ShortCut(frame: string, from: nat, end: nat, body: string)
    requires from <= end <= |frame| && end - from < |body|
    ensures DropFinalNul(Substring(frame, from, end)) != body
  {
  }

  /** With swapped bounds the cut starts at the first NUL; a body that does not start with it is not found. */
  lemma SwappedBehindStart(frame: string, from: nat, end: nat, body: string)
    requires end < from && end < |frame| && frame[end] == '\0' && body != "" && body[0] != '\0'
    ensures DropFinalNul(Substring(frame, from, end)) != body
  {
    var cut := Substring(frame, from, end);
    assert cut != "" && cut[0] == frame[end];
  }

  /** Swapped bounds around a body that starts with NUL: the cut must reach its end. */
  lemma SwappedAtStart(frame: string, from: nat, at: nat, body: string)
    requires HoldsBody(frame, at, body) && body != "" && at < from
    ensures DropFinalNul(Substring(frame, from, at)) == body
            <==> from > at + |body| || (from == at + |body| && body[|body| - 1] != '\0')
  {
    var cut := Substring(frame, from, at);
    if from > at + |body| {
      assert cut == frame[at..];
      assert cut[..|body|] == frame[at..at + |body|];
    } else if from == at + |body| {
      assert cut == body;
    }
  }

  /** The cut at `start`, by the guessed length of the blank line. */
  lemma CutAtIs(frame: string, start: nat, end: nat, headerLen: nat)
    requires headerLen == if start + 2 < |frame| && frame[start + 2] == '\r' then 4 else 2
    ensures CutAt(frame, start, end) == DropFinalNul(Substring(frame, start + headerLen, end))
  {
  }

  /** A body that starts with NUL comes back exactly when the swapped cut is the whole of it. */
  lemma CutFindsNulBody(frame: string, at: nat, body: string, p: nat)
    requires at > 0 && HoldsBody(frame, at, body) && p < |body| && body[p] == '\n' && body[0] == '\0'
    ensures CutAt(frame, at - 1 + p, at) == body <==> SwappedCutIsWhole(body, p)
  {
    var h := if p + 1 < |body| && body[p + 1] == '\r' then 4 else 2;
    if p + 1 < |body| {
      CharOfBody(frame, at, body, p + 1);
    }
    CutAtIs(frame, at - 1 + p, at, h);
    SwappedAtStart(frame, at - 1 + p + h, at, body);
  }

  /** Any other body is lost. */
  lemma CutLosesBody(frame: string, at: nat, body: string, start: nat, end: nat)
    requires body != "" && body[0] != '\0' && at <= start + 1 && at <= end < |frame| == at + |body| + 1
    requires frame[end] == '\0'
    ensures CutAt(frame, start, end) != body
  {
    var from := start + if start + 2 < |frame| && frame[start + 2] == '\r' then 4 else 2;
    CutAtIs(frame, start, end, from - start);
    if from <= end {
      ShortCut(frame, from, end, body);
    } else {
      SwappedBehindStart(frame, from, end, body);
    }
  }

  lemma ExtractWhen(frame: string, start: nat, z: nat)
    requires IndexOf(frame, NUL) == Some(z)
    requires IndexOf(frame, LFLF) == Some(start)
             || (IndexOf(frame, LFLF) == None && IndexOf(frame, CRLFCRLF) == Some(start))
    ensures ExtractBody(frame) == CutAt(frame, start, z)
  {
  }

  /** Where an LF LF is found, the body comes back exactly through a swapped cut of the whole of it. */
  lemma ExtractFindsBody(frame: string, at: nat, body: string, p: nat, k: nat)
    requires at > 0 && HoldsBody(frame, at, body) && p < |body| && body[p] == '\n' && EndsAt(body, k)
    requires IndexOf(frame, NUL) == Some(at + k) && IndexOf(frame, LFLF) == Some(at - 1 + p)
    ensures ExtractBody(frame) == body <==> SwappedCutIsWhole(body, p)
  {
    ExtractWhen(frame, at - 1 + p, at + k);
    if k == 0 {
      CutFindsNulBody(frame, at, body, p);
    } else {
      assert body[0] == body[..k][0] != '\0';
      if k < |body| {
        CharOfBody(frame, at, body, k);
      }
      CutLosesBody(frame, at, body, at - 1 + p, at + k);
    }
  }

  lemma CrlfExtractPlain(headers: string, body: string, k: nat)
    requires NoBlankLine(headers) && Without(headers, '\0') && EndsAt(body, k)
    requires forall j: nat :: !At(headers, CRLFCRLF, j)
    requires IndexOf("\n" + body, LFLF) == None
    ensures ExtractBody(CrlfFrame(headers, body)) == body[..k]
  {
    CrlfLfLf(headers, body);
    CrlfNul(headers, body, k);
    CrlfStart(headers, body);
    CrlfWhole(headers, body, k);
    ExtractWhen(CrlfFrame(headers, body), |headers|, |headers| + 4 + k);
  }

  lemma CrlfHoldsBody(headers: string, body: string)
    ensures HoldsBody(CrlfFrame(headers, body), |headers| + 4, body)
  {
    CrlfChars(headers, body);
  }

  /** The first LF LF ends in the body, and the frame has it there. */
  lemma FoundInBody(headers: string, body: string, p: nat)
    requires NoBlankLine(headers) && IndexOf("\n" + body, LFLF) == Some(p)
    ensures p < |body| && body[p] == '\n'
    ensures IndexOf(CrlfFrame(headers, body), LFLF) == Some(|headers| + 3 + p)
  {
    CrlfLfLf(headers, body);
    IndexFromFirst("\n" + body, LFLF, 0);
    AtLfLf("\n" + body, p);
  }

  lemma CrlfPlainRoundTrip(headers: string, body: string)
    requires NoBlankLine(headers) && Without(headers, '\0')
    requires forall j: nat :: !At(headers, CRLFCRLF, j)
    requires IndexOf("\n" + body, LFLF) == None
    ensures ExtractBody(CrlfFrame(headers, body)) == body <==> Without(body, '\0')
  {
    var k := FirstNul(body, 0);
    CrlfExtractPlain(headers, body, k);
    assert body[..|body|] == body;
  }

  lemma CrlfCutRoundTrip(headers: string, body: string, p: nat)
    requires NoBlankLine(headers) && Without(headers, '\0')
    requires IndexOf("\n" + body, LFLF) == Some(p)
    ensures p < |body|
    ensures ExtractBody(CrlfFrame(headers, body)) == body <==> SwappedCutIsWhole(body, p)
  {
    var k := FirstNul(body, 0);
    FoundInBody(headers, body, p);
    CrlfNul(headers, body, k);
    CrlfHoldsBody(headers, body);
    ExtractFindsBody(CrlfFrame(headers, body), |headers| + 4, body, p, k);
  }

  /**
   * The exact condition for every body. From a CRLF frame whose headers hold no blank line the body comes
   * back if and only if it has no NUL and no LF LF stands in it or at its start right after the blank line;
   * or an LF LF stands there, but the bounds of the cut come out swapped and enclose the whole body.
   */
  lemma CrlfRoundTrip(headers: string, body: string)
    requires NoBlankLine(headers) && Without(headers, '\0')
    requires forall j: nat :: !At(headers, CRLFCRLF, j)
    ensures ExtractBody(CrlfFrame(headers, body)) == body
            <==> match IndexOf("\n" + body, LFLF)
                 case None => Without(body, '\0')
                 case Some(p) => p < |body| && SwappedCutIsWhole(body, p)
  {
    var at := IndexOf("\n" + body, LFLF);
    if at == None {
      CrlfPlainRoundTrip(headers, body);
    } else {
      CrlfCutRoundTrip(headers, body, at.value);
    }
  }

  /** For bodies without a NUL, as text is, the condition is just that there is no such LF LF. */
  lemma CrlfTextRoundTrip(headers: string, body: string)
    requires NoBlankLine(headers) && Without(headers, '\0') && Without(body, '\0')
    requires forall j: nat :: !At(headers, CRLFCRLF, j)
    ensures ExtractBody(CrlfFrame(headers, body)) == body <==> forall j: nat :: !At("\n" + body, LFLF, j)
  {
    CrlfRoundTrip(headers, body);
    CrlfLfLf(headers, body);
    IndexFromFirst("\n" + body, LFLF, 0);
  }
}
