/** The chat prompt the daemon builds, and why consecutive prompts share tokens. */
module Chat {
  import opened Seqs
  import opened Tables
  import opened Vocabulary
  import opened Tokenizer

  /** A message of the history.  A missing content is empty. */
  datatype Message =
    | User(content: Key)
    | Assistant(content: Key, toolCalls: Key)
    | ToolResult(content: Key, tool: Tool)
    | System(content: Key)
    | Unknown(role: Key)

  datatype Tool = Named(callId: Key, name: Key) | Anonymous

  const START := Ascii("<|im_start|>")
  const END := Ascii("<|im_end|>\n")

  /** append_chat_message, without the marker that opens the message. */
  function Rest(m: Message): Key
    requires !m.Unknown?
  {
    match m
    case User(content) => Ascii("user\n") + content + END
    case Assistant(content, calls) =>
      Ascii("assistant\n") + content
      + (if calls == [] then [] else Ascii("\n<tool_call>\n") + calls + Ascii("\n</tool_call>\n")) + END
    case ToolResult(content, tool) =>
      Ascii("tool\n")
      + (if tool.Named? then Ascii("[") + tool.callId + Ascii("] ") + tool.name + Ascii(": ") + content else content)
      + END
    case System(content) => Ascii("system\n") + content + END
  }

  /** append_chat_message; a message of unknown role adds nothing. */
  function Rendered(m: Message): Key {
    if m.Unknown? then [] else START + Rest(m)
  }

  function History(ms: seq<Message>): Key {
    if ms == [] then [] else History(ms[..|ms|-1]) + Rendered(ms[|ms|-1])
  }

  /** The system block, with the turn's context if it has one. */
  function Preamble(system: Key, context: Key): Key {
    START + Ascii("system\n") + system + (if context == [] then [] else Ascii("\n\n") + context) + END
  }

  /** What asks the model for its answer, behind the opening marker. */
  const ANSWER := Ascii("assistant\n") + Ascii("<think>\n\n</think>\n\n")

  function Prompt(system: Key, context: Key, messages: seq<Message>, user: Key): Key {
    Preamble(system, context) + History(messages) + (if user == [] then [] else Rendered(User(user))) + START + ANSWER
  }

  /** build_chat_prompt. */
  method BuildChatPrompt(system: Key, context: Key, messages: seq<Message>, user: Key) returns (out: Key)
    ensures out == Prompt(system, context, messages, user)
  {
    hide Ascii, Rendered;
    out := START + Ascii("system\n") + system;
    if context != [] {
      out := out + Ascii("\n\n");
      out := out + context;
    }
    out := out + END;
    PreambleIs(system, context);
    hide Preamble;
    for i := 0 to |messages|
      invariant out == Preamble(system, context) + History(messages[..i])
    {
      HistoryNext(messages, i);
      Assoc(Preamble(system, context), History(messages[..i]), Rendered(messages[i]));
      out := out + Rendered(messages[i]);
    }
    HistoryWhole(messages);
    if user != [] {
      out := out + START + Ascii("user\n") + user + END;
      RenderedUser(Preamble(system, context) + History(messages), user);
    }
    out := out + START + ANSWER;
  }

  lemma PreambleIs(system: Key, context: Key)
    ensures Preamble(system, context) ==
            (if context == [] then START + Ascii("system\n") + system
             else START + Ascii("system\n") + system + Ascii("\n\n") + context) + END
  {
    hide Ascii;
    Assoc(START + Ascii("system\n") + system, Ascii("\n\n"), context);
    assert START + Ascii("system\n") + system + [] == START + Ascii("system\n") + system;
  }

  lemma RenderedUser(out: Key, user: Key)
    ensures out + START + Ascii("user\n") + user + END == out + Rendered(User(user))
  {
    hide Ascii;
  }

  lemma HistoryNext(ms: seq<Message>, i: nat)
    requires i < |ms|
    ensures History(ms[..i+1]) == History(ms[..i]) + Rendered(ms[i])
  {
    assert ms[..i+1][..i] == ms[..i];
  }

  lemma HistoryWhole(ms: seq<Message>)
    ensures History(ms[..|ms|]) == History(ms) && History(ms[..0]) == []
  {
    assert ms[..|ms|] == ms;
  }

  lemma {:induction false} HistoryJoins(a: seq<Message>, b: seq<Message>)
    ensures History(a + b) == History(a) + History(b)
  {
    hide Rendered;
    if b == [] {
      assert a + b == a;
    } else {
      var front := b[..|b|-1];
      HistoryJoins(a, front);
      assert (a + b)[..|a + b|-1] == a + front;
      Assoc(History(a), History(front), Rendered(b[|b|-1]));
    }
  }

  // ----- prompts of one conversation -----

  predicate EmptyOrMarked(s: Key) {
    s == [] || START <= s
  }

  lemma MarkedThen(s: Key, t: Key)
    requires EmptyOrMarked(s) && START <= t
    ensures START <= s + t
  {
    if s != [] {
      assert (s + t)[..|START|] == s[..|START|];
    } else {
      assert s + t == t;
    }
  }

  lemma {:induction false} HistoryMarked(ms: seq<Message>)
    ensures EmptyOrMarked(History(ms))
  {
    if ms != [] {
      var front, last := History(ms[..|ms|-1]), Rendered(ms[|ms|-1]);
      HistoryMarked(ms[..|ms|-1]);
      if last == [] {
        assert front + last == front;
      } else {
        assert last[..|START|] == START;
        MarkedThen(front, last);
      }
    }
  }

  /** Past the history up to a message, every later prompt goes on with the opening marker. */
  lemma PromptAfter(system: Key, context: Key, past: seq<Message>, more: seq<Message>, user: Key) returns (tail: Key)
    ensures Prompt(system, context, past + more, user) == Preamble(system, context) + History(past) + START + tail
  {
    var u := if user == [] then [] else Rendered(User(user));
    var s := History(more) + (u + (START + ANSWER));
    assert START <= START + ANSWER;
    assert u != [] ==> u[..|START|] == START;
    MarkedThen(u, START + ANSWER);
    HistoryMarked(more);
    MarkedThen(History(more), u + (START + ANSWER));
    tail := s[|START|..];
    HistoryJoins(past, more);
    hide *;
    PromptIs(system, context, past, more, user, u);
    var front := Preamble(system, context) + History(past);
    assert s == START + tail;
    Assoc(front, START, tail);
  }

  lemma PromptIs(system: Key, context: Key, past: seq<Message>, more: seq<Message>, user: Key, u: Key)
    requires u == if user == [] then [] else Rendered(User(user))
    requires History(past + more) == History(past) + History(more)
    ensures Prompt(system, context, past + more, user) ==
            Preamble(system, context) + History(past) + (History(more) + (u + (START + ANSWER)))
  {
    hide Preamble, History, Rendered, Ascii;
  }

  /** Consecutive prompts of a conversation share the tokens of all they share as messages:
      a prompt asked with a user message, and any later prompt with that message in its
      history and the same system text and context. */
  lemma PromptsShareTokens(w: Words, system: Key, context: Key, ms: seq<Message>, user: Key,
                           more: seq<Message>, user2: Key)
    requires w.Loaded() && START in w.Ids() && user != []
    ensures var past := ms + [User(user)];
            var shared := Encode(w, Preamble(system, context) + History(past)) + [w.Ids()[START]];
            && shared <= Encode(w, Prompt(system, context, ms, user))
            && shared <= Encode(w, Prompt(system, context, past + more, user2))
  {
    hide *;
    var past := ms + [User(user)];
    var front := Preamble(system, context) + History(past);
    var i := StartIndex(w);
    var tail := PromptAfter(system, context, past, more, user2);
    PromptNow(system, context, ms, user);
    AddedAreTags(w);
    EncodeDistributes(w, front, i, ANSWER);
    EncodeDistributes(w, front, i, tail);
  }

  lemma PromptNow(system: Key, context: Key, ms: seq<Message>, user: Key)
    requires user != []
    ensures Prompt(system, context, ms, user) ==
            Preamble(system, context) + History(ms + [User(user)]) + START + ANSWER
  {
    hide Preamble, Rendered, Ascii;
    assert (ms + [User(user)])[..|ms|] == ms;
    Assoc(Preamble(system, context), History(ms), Rendered(User(user)));
  }

  lemma StartIndex(w: Words) returns (i: nat)
    requires w.Loaded() && START in w.Ids()
    ensures i < |w.added| && w.added[i].text == START && w.added[i].id == w.Ids()[START]
  {
    assert ADDED_TEXTS[1] == "<|im_start|>";
    AddedAreTags(w);
    i := AddedOfComplete(w.Ids(), ADDED_TEXTS, 1);
  }
}
