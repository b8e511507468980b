/**
 Conversations as the model API takes them: roles in turn, tool calls with their results, and what
 it asks of a conversation before it can be replayed.
 */
module Transcripts {
  import opened Prelude

  datatype Role = User | Assistant

  /** `cached` is whether the block carries a cache breakpoint. */
  datatype Block =
    | Text(text: string, cached: bool)
    | ToolUse(id: string, name: string)
    | ToolResult(id: string, output: string, isError: bool, cached: bool)
    | Other(kind: string)

  datatype Msg = Msg(role: Role, content: seq<Block>)

  /** The tool calls a message asks for, in order. */
  function Uses(content: seq<Block>): seq<Block> {
    if content == [] then []
    else (if content[0].ToolUse? then [content[0]] else []) + Uses(content[1..])
  }

  lemma {:induction false} UsesAreUses(content: seq<Block>)
    ensures forall k :: 0 <= k < |Uses(content)| ==> Uses(content)[k].ToolUse?
  {
    if content != [] {
      UsesAreUses(content[1..]);
    }
  }

  /** `next` answers every tool call of `content`, same ids in the same order, before anything else it says. */
  predicate Answers(content: seq<Block>, next: seq<Block>) {
    && |Uses(content)| <= |next|
    && (forall k :: 0 <= k < |Uses(content)| ==>
          Uses(content)[k].ToolUse? && next[k].ToolResult? && next[k].id == Uses(content)[k].id)
    && (forall k :: |Uses(content)| <= k < |next| ==> next[k].Text?)
  }

  predicate Alternates(ms: seq<Msg>) {
    forall i :: 0 <= i < |ms| ==> ms[i].role == if i % 2 == 0 then User else Assistant
  }

  predicate AllAnswered(ms: seq<Msg>) {
    forall i :: 0 <= i < |ms| && ms[i].role.Assistant? && Uses(ms[i].content) != [] ==>
      i + 1 < |ms| && Answers(ms[i].content, ms[i + 1].content)
  }

  /** Starts with the user, alternates, answers every tool call, and leaves the next word to the user. */
  predicate Replayable(ms: seq<Msg>) {
    Alternates(ms) && AllAnswered(ms) && |ms| % 2 == 0
  }

  /** The same with the next word left to the model. */
  predicate AwaitsModel(ms: seq<Msg>) {
    Alternates(ms) && AllAnswered(ms) && |ms| % 2 == 1
  }

  /** Every text block of the user's messages, in order. */
  function TextsOf(content: seq<Block>): seq<string> {
    if content == [] then []
    else (if content[0].Text? then [content[0].text] else []) + TextsOf(content[1..])
  }

  function UserTexts(ms: seq<Msg>): seq<string> {
    if ms == [] then []
    else UserTexts(ms[..|ms| - 1]) + (if ms[|ms| - 1].role.User? then TextsOf(ms[|ms| - 1].content) else [])
  }

  predicate Breakpoint(b: Block) {
    (b.Text? || b.ToolResult?) && b.cached
  }

  predicate Uncached(content: seq<Block>) {
    forall k :: 0 <= k < |content| ==> !Breakpoint(content[k])
  }

  predicate AllUncached(ms: seq<Msg>) {
    forall i :: 0 <= i < |ms| ==> Uncached(ms[i].content)
  }

  // ----- growing a conversation ---------------------------------------------

  lemma {:induction false} TextsConcat(a: seq<Block>, b: seq<Block>)
    ensures TextsOf(a + b) == TextsOf(a) + TextsOf(b)
  {
    if a == [] {
      assert a + b == b;
    } else {
      assert (a + b)[0] == a[0] && (a + b)[1..] == a[1..] + b;
      TextsConcat(a[1..], b);
    }
  }

  lemma {:induction false} UserTextsConcat(a: seq<Msg>, b: seq<Msg>)
    ensures UserTexts(a + b) == UserTexts(a) + UserTexts(b)
  {
    if b == [] {
      assert a + b == a;
    } else {
      var n := |b| - 1;
      assert (a + b)[..|a + b| - 1] == a + b[..n] && (a + b)[|a + b| - 1] == b[n];
      UserTextsConcat(a, b[..n]);
    }
  }

  /** A user's message after a finished conversation. */
  lemma AskedNext(ms: seq<Msg>, content: seq<Block>)
    requires Replayable(ms)
    ensures AwaitsModel(ms + [Msg(User, content)])
  {
    var ms' := ms + [Msg(User, content)];
    assert forall i :: 0 <= i < |ms| ==> ms'[i] == ms[i];
  }

  /** A model's reply, with its tool calls answered by the user message that follows. */
  lemma AnsweredNext(ms: seq<Msg>, content: seq<Block>, next: seq<Block>)
    requires AwaitsModel(ms) && Answers(content, next)
    ensures AwaitsModel(ms + [Msg(Assistant, content), Msg(User, next)])
  {
    var ms' := ms + [Msg(Assistant, content), Msg(User, next)];
    assert forall i :: 0 <= i < |ms| ==> ms'[i] == ms[i];
    assert ms'[|ms|].content == content && ms'[|ms| + 1].content == next;
  }

  /** A model's reply that calls no tools. */
  lemma RepliedNext(ms: seq<Msg>, content: seq<Block>)
    requires AwaitsModel(ms) && Uses(content) == []
    ensures Replayable(ms + [Msg(Assistant, content)])
  {
    var ms' := ms + [Msg(Assistant, content)];
    assert forall i :: 0 <= i < |ms| ==> ms'[i] == ms[i];
  }
}
