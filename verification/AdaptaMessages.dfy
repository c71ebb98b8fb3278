/** `buildAdaptaMessages`: the system prompts of a request travel in its first user message. */
module AdaptaMessages {
  import opened Options
  import Strings

  /** Message content; a part is Some(text) for a text part and None for any other. */
  datatype Content = StringContent(text: string) | PartsContent(parts: seq<Option<string>>) | OtherContent(text: string)

  datatype OpenAIMessage = OpenAIMessage(role: string, content: Content)

  datatype AdaptaMessage = AdaptaMessage(role: string, text: string)

  function JoinParts(parts: seq<Option<string>>): string {
    if parts == [] then "" else JoinParts(parts[..|parts| - 1]) + parts[|parts| - 1].GetOr("")
  }

  function ExtractText(content: Content): string {
    match content
    case StringContent(text) => text
    case PartsContent(parts) => JoinParts(parts)
    case OtherContent(text) => text
  }

  predicate IsSystem(m: OpenAIMessage) {
    m.role == "system" || m.role == "developer"
  }

  /** A user or assistant message with some text in it. */
  predicate IsSent(m: OpenAIMessage) {
    (m.role == "user" || m.role == "assistant") && !Strings.IsBlank(ExtractText(m.content))
  }

  function Sent(ms: seq<OpenAIMessage>): seq<OpenAIMessage> {
    if ms == [] then []
    else Sent(ms[..|ms| - 1]) + if IsSent(ms[|ms| - 1]) then [ms[|ms| - 1]] else []
  }

  function NonSystem(ms: seq<OpenAIMessage>): seq<OpenAIMessage> {
    if ms == [] then []
    else NonSystem(ms[..|ms| - 1]) + if IsSystem(ms[|ms| - 1]) then [] else [ms[|ms| - 1]]
  }

  /** The system prompts, joined by line feeds; leading empty ones leave no line feed. */
  function SystemText(ms: seq<OpenAIMessage>): string {
    if ms == [] then ""
    else
      var before, m := SystemText(ms[..|ms| - 1]), ms[|ms| - 1];
      if IsSystem(m) then before + (if before != "" then "\n" else "") + ExtractText(m.content) else before
  }

  predicate IsFirstUser(ms: seq<OpenAIMessage>, i: nat) {
    i < |ms| && ms[i].role == "user" && forall j :: 0 <= j < i ==> ms[j].role != "user"
  }

  /** What message `i` of those sent becomes. */
  function Adapted(sent: seq<OpenAIMessage>, system: string, i: nat): AdaptaMessage
    requires i < |sent|
  {
    var text := ExtractText(sent[i].content);
    if system != "" && IsFirstUser(sent, i) then AdaptaMessage("user", system + "\n\n" + text)
    else AdaptaMessage(sent[i].role, text)
  }

  lemma {:induction false} SentOfNonSystem(ms: seq<OpenAIMessage>)
    ensures Sent(NonSystem(ms)) == Sent(ms)
  {
    if ms != [] {
      var rest, m := ms[..|ms| - 1], ms[|ms| - 1];
      SentOfNonSystem(rest);
      if !IsSystem(m) {
        assert (NonSystem(rest) + [m])[..|NonSystem(rest)|] == NonSystem(rest);
      } else {
        assert NonSystem(rest) + [] == NonSystem(rest) && Sent(rest) + [] == Sent(rest);
      }
    }
  }

  method SplitSystem(messages: seq<OpenAIMessage>) returns (systemText: string, rest: seq<OpenAIMessage>)
    ensures systemText == SystemText(messages) && rest == NonSystem(messages)
  {
    systemText, rest := "", [];
    for i := 0 to |messages|
      invariant systemText == SystemText(messages[..i]) && rest == NonSystem(messages[..i])
    {
      assert messages[..i + 1][..i] == messages[..i];
      var m := messages[i];
      if IsSystem(m) {
        systemText := systemText + (if systemText != "" then "\n" else "") + ExtractText(m.content);
      } else {
        rest := rest + [m];
      }
    }
    assert messages[..|messages|] == messages;
  }

  /**
   * Every non-blank user and assistant message is sent, in order, in its role and with its own text, except that
   * the first user message among them is preceded by all system prompts.
   */
  method BuildAdaptaMessages(messages: seq<OpenAIMessage>) returns (adapted: seq<AdaptaMessage>)
    ensures var sent, system := Sent(messages), SystemText(messages);
            && |adapted| == |sent|
            && forall i :: 0 <= i < |sent| ==>
                 && adapted[i].role == sent[i].role
                 && adapted[i].text
                    == (if system != "" && IsFirstUser(sent, i) then system + "\n\n" else "")
                       + ExtractText(sent[i].content)
  {
    var systemText, rest := SplitSystem(messages);
    SentOfNonSystem(messages);
    adapted := AdaptRest(rest, systemText);
    forall i | 0 <= i < |adapted|
      ensures adapted[i].role == Sent(messages)[i].role
      ensures adapted[i].text
              == (if systemText != "" && IsFirstUser(Sent(messages), i) then systemText + "\n\n" else "")
                 + ExtractText(Sent(messages)[i].content)
    {
      AdaptedIs(Sent(messages), systemText, i);
    }
  }

  /** The second loop. */
  method AdaptRest(rest: seq<OpenAIMessage>, systemText: string) returns (adapted: seq<AdaptaMessage>)
    ensures |adapted| == |Sent(rest)|
    ensures forall i :: 0 <= i < |adapted| ==> adapted[i] == Adapted(Sent(rest), systemText, i)
  {
    adapted := [];
    var systemInjected := false;
    for i := 0 to |rest|
      invariant AdaptedTo(Sent(rest[..i]), systemText, adapted, systemInjected)
    {
      assert rest[..i + 1][..i] == rest[..i];
      if IsSent(rest[i]) {
        adapted, systemInjected := Adapt(rest[i], systemText, adapted, systemInjected, Sent(rest[..i]));
      } else {
        assert Sent(rest[..i]) + [] == Sent(rest[..i]);
      }
    }
    assert rest[..|rest|] == rest;
  }

  lemma AdaptedIs(sent: seq<OpenAIMessage>, system: string, i: nat)
    requires i < |sent|
    ensures Adapted(sent, system, i).role == sent[i].role
    ensures Adapted(sent, system, i).text
            == (if system != "" && IsFirstUser(sent, i) then system + "\n\n" else "") + ExtractText(sent[i].content)
  {
    assert "" + ExtractText(sent[i].content) == ExtractText(sent[i].content);
  }

  ghost predicate AdaptedTo(sent: seq<OpenAIMessage>, system: string, adapted: seq<AdaptaMessage>, injected: bool) {
    && |adapted| == |sent|
    && (forall k :: 0 <= k < |sent| ==> adapted[k] == Adapted(sent, system, k))
    && (injected <==> system != "" && exists k :: 0 <= k < |sent| && sent[k].role == "user")
  }

  /** One round of the second loop: the first user message takes the system prompts along. */
  method Adapt(m: OpenAIMessage, systemText: string, before: seq<AdaptaMessage>, injected: bool,
               ghost sent: seq<OpenAIMessage>)
    returns (adapted: seq<AdaptaMessage>, systemInjected: bool)
    requires AdaptedTo(sent, systemText, before, injected)
    ensures AdaptedTo(sent + [m], systemText, adapted, systemInjected)
  {
    ghost var more := sent + [m];
    assert forall k :: 0 <= k < |sent| ==> more[k] == sent[k];
    assert forall k :: 0 <= k < |sent| ==> IsFirstUser(more, k) == IsFirstUser(sent, k);
    systemInjected := injected;
    if !systemInjected && systemText != "" && m.role == "user" {
      adapted := before + [AdaptaMessage("user", systemText + "\n\n" + ExtractText(m.content))];
      systemInjected := true;
      assert more[|sent|].role == "user";
    } else {
      adapted := before + [AdaptaMessage(m.role, ExtractText(m.content))];
    }
  }

  // ---------------------------------------------------------------- what is sent, and what the prompts are

  lemma {:induction false} SentConcat(a: seq<OpenAIMessage>, b: seq<OpenAIMessage>)
    ensures Sent(a + b) == Sent(a) + Sent(b)
  {
    if b == [] {
      assert a + b == a;
    } else {
      assert (a + b)[..|a + b| - 1] == a + b[..|b| - 1];
      SentConcat(a, b[..|b| - 1]);
    }
  }

  /** Each message in turn is sent exactly if it is the user's or the assistant's and has a visible character. */
  lemma SentInOrder(before: seq<OpenAIMessage>, m: OpenAIMessage, after: seq<OpenAIMessage>)
    ensures Sent(before + [m] + after)
            == Sent(before)
               + (if m.role in {"user", "assistant"}
                     && exists k :: 0 <= k < |ExtractText(m.content)| && !Strings.IsSpace(ExtractText(m.content)[k])
                  then [m] else [])
               + Sent(after)
  {
    SentConcat(before + [m], after);
    assert (before + [m])[..|before|] == before;
    var text := ExtractText(m.content);
    if !Strings.IsBlank(text) {
      var c :| c in text && !Strings.IsSpace(c);
      var k :| 0 <= k < |text| && text[k] == c;
    }
    if k :| 0 <= k < |text| && !Strings.IsSpace(text[k]) {
      assert text[k] in text;
    }
  }

  lemma {:induction false} JoinPartsConcat(a: seq<Option<string>>, b: seq<Option<string>>)
    ensures JoinParts(a + b) == JoinParts(a) + JoinParts(b)
  {
    if b == [] {
      assert a + b == a;
    } else {
      assert (a + b)[..|a + b| - 1] == a + b[..|b| - 1];
      JoinPartsConcat(a, b[..|b| - 1]);
    }
  }

  /** The text of a part list is that of its text parts, joined without a separator. */
  lemma TextOfParts(before: seq<Option<string>>, part: Option<string>, after: seq<Option<string>>)
    ensures ExtractText(PartsContent([])) == ""
    ensures ExtractText(PartsContent(before + [part] + after))
            == ExtractText(PartsContent(before)) + (if part.Some? then part.value else "")
               + ExtractText(PartsContent(after))
  {
    JoinPartsConcat(before + [part], after);
    assert (before + [part])[..|before|] == before;
  }

  /** The texts of the system and developer messages. */
  function Prompts(ms: seq<OpenAIMessage>): seq<string> {
    if ms == [] then []
    else
      var m := ms[|ms| - 1];
      Prompts(ms[..|ms| - 1]) + if m.role in {"system", "developer"} then [ExtractText(m.content)] else []
  }

  function WithoutLeadingEmpty(prompts: seq<string>): seq<string> {
    if prompts == [] then []
    else
      var rest, last := WithoutLeadingEmpty(prompts[..|prompts| - 1]), prompts[|prompts| - 1];
      if rest == [] && last == "" then [] else rest + [last]
  }

  lemma {:induction false} JoinLast(lines: seq<string>, last: string)
    requires lines != []
    ensures Strings.Join(lines + [last]) == Strings.Join(lines) + "\n" + last
  {
    assert (lines + [last])[1..] == lines[1..] + [last];
    if |lines| > 1 {
      JoinLast(lines[1..], last);
    } else {
      assert lines[1..] + [last] == [last];
    }
  }

  lemma {:induction false} JoinedNotEmpty(lines: seq<string>)
    requires lines != [] && lines[0] != ""
    ensures Strings.Join(lines) != ""
  {
  }

  lemma {:induction false} LeadingIsNotEmpty(prompts: seq<string>)
    ensures WithoutLeadingEmpty(prompts) != [] ==> WithoutLeadingEmpty(prompts)[0] != ""
  {
    if prompts != [] {
      LeadingIsNotEmpty(prompts[..|prompts| - 1]);
    }
  }

  /** The system text is the prompts joined by line feeds, without the empty ones they begin with. */
  lemma {:induction false} SystemTextJoins(ms: seq<OpenAIMessage>)
    ensures var prompts := WithoutLeadingEmpty(Prompts(ms));
            SystemText(ms) == if prompts == [] then "" else Strings.Join(prompts)
  {
    if ms != [] {
      var rest, m := ms[..|ms| - 1], ms[|ms| - 1];
      SystemTextJoins(rest);
      if m.role in {"system", "developer"} {
        PromptAdds(Prompts(rest), ExtractText(m.content), SystemText(rest));
      } else {
        assert Prompts(rest) + [] == Prompts(rest);
      }
    }
  }

  lemma PromptAdds(prompts: seq<string>, text: string, before: string)
    requires var rest := WithoutLeadingEmpty(prompts); before == if rest == [] then "" else Strings.Join(rest)
    ensures var now := WithoutLeadingEmpty(prompts + [text]);
            before + (if before != "" then "\n" else "") + text == if now == [] then "" else Strings.Join(now)
  {
    assert (prompts + [text])[..|prompts|] == prompts;
    var rest := WithoutLeadingEmpty(prompts);
    if rest != [] {
      LeadingIsNotEmpty(prompts);
      JoinedNotEmpty(rest);
      JoinLast(rest, text);
    } else {
      assert before + text == text;
      assert [] + [text] == [text];
    }
  }

  lemma {:induction false} SentAre(ms: seq<OpenAIMessage>)
    ensures forall m :: m in Sent(ms) <==> m in ms && IsSent(m)
  {
    if ms != [] {
      SentAre(ms[..|ms| - 1]);
      assert ms == ms[..|ms| - 1] + [ms[|ms| - 1]];
    }
  }

  // ---------------------------------------------------------------- who carries the prompts

  /** The message sent at place `i` carries the system prompts in front of its own text. */
  predicate Carries(ms: seq<OpenAIMessage>, i: nat) {
    var sent, system := Sent(ms), SystemText(ms);
    i < |sent| && Adapted(sent, system, i).text == system + "\n\n" + ExtractText(sent[i].content)
  }

  lemma CarrierIsFirstUser(ms: seq<OpenAIMessage>, i: nat)
    ensures Carries(ms, i) <==> SystemText(ms) != "" && IsFirstUser(Sent(ms), i)
  {
    if i < |Sent(ms)| {
      var text := ExtractText(Sent(ms)[i].content);
      assert |SystemText(ms) + "\n\n" + text| > |text|;
    }
  }

  predicate SomeUser(ms: seq<OpenAIMessage>) {
    exists m :: m in ms && IsSent(m) && m.role == "user"
  }

  lemma SomeUserIsSent(ms: seq<OpenAIMessage>)
    ensures SomeUser(ms) <==> exists i: nat :: IsFirstUser(Sent(ms), i)
  {
    SentAre(ms);
    if m :| m in ms && IsSent(m) && m.role == "user" {
      assert m in Sent(ms);
      var i :| 0 <= i < |Sent(ms)| && Sent(ms)[i] == m;
      var k := FirstUser(Sent(ms), i);
    }
    if i: nat :| IsFirstUser(Sent(ms), i) {
      assert Sent(ms)[i] in Sent(ms);
    }
  }

  /**
   * The system prompts reach the upstream if and only if there are some and a user message with text is
   * among the messages; and then exactly one message carries them.
   */
  lemma SystemReaches(messages: seq<OpenAIMessage>)
    ensures (exists i: nat :: Carries(messages, i)) <==> SystemText(messages) != "" && SomeUser(messages)
    ensures forall i: nat, j: nat :: Carries(messages, i) && Carries(messages, j) ==> i == j
  {
    forall i: nat ensures Carries(messages, i) <==> SystemText(messages) != "" && IsFirstUser(Sent(messages), i) {
      CarrierIsFirstUser(messages, i);
    }
    SomeUserIsSent(messages);
    if SystemText(messages) != "" && SomeUser(messages) {
      var i: nat :| IsFirstUser(Sent(messages), i);
      assert Carries(messages, i);
    }
  }

  lemma {:induction false} FirstUser(sent: seq<OpenAIMessage>, i: nat) returns (k: nat)
    requires i < |sent| && sent[i].role == "user"
    ensures IsFirstUser(sent, k)
    decreases i
  {
    if j :| 0 <= j < i && sent[j].role == "user" {
      k := FirstUser(sent, j);
    } else {
      k := i;
    }
  }
}
