/** One engine step: a model reply, and the tool batch it asks for. */
module Engines {
  import opened Prelude
  import opened Transcripts

  /** What a tool returned: its output, and its error if it failed. */
  datatype ToolOutcome = ToolOutcome(out: string, err: Option<string>)

  /**
   Tools by name; the k-th call of a batch to a known tool gets outcome k. `cap` is what the
   backstop on an output's length leaves of it.
   */
  datatype Toolbox = Toolbox(names: set<string>, outcomes: nat -> ToolOutcome, cap: string -> string)

  /** `compacted` is whether the API reports having compacted the request's history. */
  datatype StepResult = StepResult(messages: seq<Msg>, text: string, toolCalls: nat, compacted: bool)

  const UNKNOWN_TOOL := "Error: unknown tool \""
  const TOOL_ERROR := "Error: "

  /** An unknown tool and a failed one still answer, with an error the model can read. */
  function CallTool(tools: Toolbox, use: Block, k: nat): (r: (string, bool))
    requires use.ToolUse?
    ensures r.1 <==> use.name !in tools.names || tools.outcomes(k).err.Some?
    ensures r.1 ==> r.0 != ""
  {
    if use.name !in tools.names then (UNKNOWN_TOOL + use.name + "\"", true)
    else
      var out := tools.cap(tools.outcomes(k).out);
      match tools.outcomes(k).err
      case Some(err) => (if out == "" then TOOL_ERROR + err else out, true)
      case None => (out, false)
  }

  function ResultFor(tools: Toolbox, use: Block, k: nat): Block
    requires use.ToolUse?
  {
    var (out, isError) := CallTool(tools, use, k);
    ToolResult(use.id, out, isError, false)
  }

  /** The user turn that answers a reply's tool calls. */
  function Results(tools: Toolbox, content: seq<Block>): seq<Block> {
    UsesAreUses(content);
    seq(|Uses(content)|, k requires 0 <= k < |Uses(content)| => ResultFor(tools, Uses(content)[k], k))
  }

  /** What a step appends to the conversation. */
  function StepMessages(tools: Toolbox, content: seq<Block>): seq<Msg> {
    if Uses(content) == [] then [Msg(Assistant, content)]
    else [Msg(Assistant, content), Msg(User, Results(tools, content))]
  }

  function JoinedText(content: seq<Block>): string {
    if content == [] then ""
    else JoinedText(content[..|content| - 1])
         + (if content[|content| - 1].Text? then content[|content| - 1].text else "")
  }

  const COMPACTION := Other("compaction")

  lemma JoinedTextSnoc(a: seq<Block>, b: Block)
    ensures JoinedText(a + [b]) == if b.Text? then JoinedText(a) + b.text else JoinedText(a)
  {
    assert (a + [b])[..|a|] == a;
    assert JoinedText(a) + "" == JoinedText(a);
  }

  function Concatenated(texts: seq<string>): string {
    if texts == [] then "" else Concatenated(texts[..|texts| - 1]) + texts[|texts| - 1]
  }

  lemma {:induction false} ConcatenatedAppend(a: seq<string>, b: seq<string>)
    ensures Concatenated(a + b) == Concatenated(a) + Concatenated(b)
  {
    if b == [] {
      assert a + b == a;
    } else {
      var n := |b| - 1;
      assert (a + b)[..|a + b| - 1] == a + b[..n];
      ConcatenatedAppend(a, b[..n]);
    }
  }

  /** A turn's text is the text its transcript shows, run together. */
  lemma {:induction false} TextIsTheTranscripts(content: seq<Block>)
    ensures JoinedText(content) == Concatenated(TextsOf(content))
  {
    if content != [] {
      var n := |content| - 1;
      var b := content[n];
      TextIsTheTranscripts(content[..n]);
      TextsConcat(content[..n], [b]);
      assert content == content[..n] + [b];
      assert [b][1..] == [];
      assert TextsOf([b]) == if b.Text? then [b.text] else [];
      ConcatenatedAppend(TextsOf(content[..n]), TextsOf([b]));
      assert b.Text? ==> [b.text][..0] == [];
      assert b.Text? ==> Concatenated([b.text]) == b.text;
    }
  }

  /** Reasoning, tool calls and whatever else is not text can stand anywhere without changing it. */
  lemma OtherBlocksSayNothing(before: seq<Block>, others: seq<Block>, after: seq<Block>)
    requires forall k :: 0 <= k < |others| ==> !others[k].Text?
    ensures JoinedText(before + others + after) == JoinedText(before + after)
  {
    TextIsTheTranscripts(before + others + after);
    TextIsTheTranscripts(before + after);
    TextsConcat(before + others, after);
    TextsConcat(before, others);
    TextsConcat(before, after);
    NoTexts(others);
    assert TextsOf(before) + [] == TextsOf(before);
  }

  lemma ResultsAnswer(tools: Toolbox, content: seq<Block>)
    ensures Answers(content, Results(tools, content))
    ensures Uncached(Results(tools, content))
    ensures TextsOf(Results(tools, content)) == []
  {
    UsesAreUses(content);
    NoTexts(Results(tools, content));
  }

  lemma {:induction false} NoTexts(content: seq<Block>)
    requires forall k :: 0 <= k < |content| ==> !content[k].Text?
    ensures TextsOf(content) == []
  {
    if content != [] {
      NoTexts(content[1..]);
    }
  }

  lemma NothingYet()
    ensures Uses([]) == [] && JoinedText([]) == ""
  {}

  // ----- what the model reads in a result -----------------------------------

  /**
   The block answers the call and no other: a known tool's output is there whenever there is one,
   whether or not the tool failed; a failure without any says what went wrong; and a tool that
   does not exist is named.
   */
  ghost predicate Reports(tools: Toolbox, use: Block, outcome: ToolOutcome, b: Block)
    requires use.ToolUse?
  {
    && b.ToolResult? && b.id == use.id && !b.cached
    && (b.isError <==> use.name !in tools.names || outcome.err.Some?)
    && (use.name in tools.names && tools.cap(outcome.out) != "" ==> b.output == tools.cap(outcome.out))
    && (use.name in tools.names && tools.cap(outcome.out) == "" ==>
          b.output == match outcome.err case Some(err) => "Error: " + err case None => "")
    && (use.name !in tools.names ==> b.output == "Error: unknown tool \"" + use.name + "\"")
  }

  /** What the model could tell apart in two outcomes of a call. */
  ghost predicate TellApart(tools: Toolbox, a: ToolOutcome, b: ToolOutcome) {
    || a.err.Some? != b.err.Some?
    || (a.err.None? && tools.cap(a.out) != tools.cap(b.out))
    || (tools.cap(a.out) != tools.cap(b.out) && tools.cap(a.out) != "" && tools.cap(b.out) != "")
    || (a.err.Some? && b.err.Some? && a.err != b.err && tools.cap(a.out) == "" && tools.cap(b.out) == "")
  }

  /** Another outcome of one call changes that call's block, if it can be told apart, and no other. */
  lemma OneCallOneBlock(tools: Toolbox, tools': Toolbox, content: seq<Block>, j: nat)
    requires j < |Uses(content)| && tools'.names == tools.names && tools'.cap == tools.cap
    requires forall k: nat :: k != j ==> tools'.outcomes(k) == tools.outcomes(k)
    ensures |Results(tools, content)| == |Results(tools', content)| == |Uses(content)|
    ensures forall k :: 0 <= k < |Uses(content)| && k != j ==> Results(tools, content)[k] == Results(tools', content)[k]
    ensures Uses(content)[j].ToolUse?
    ensures Uses(content)[j].name in tools.names && TellApart(tools, tools.outcomes(j), tools'.outcomes(j)) ==>
              Results(tools, content)[j] != Results(tools', content)[j]
  {
    UsesAreUses(content);
    var err, err' := tools.outcomes(j).err, tools'.outcomes(j).err;
    if err.Some? && err'.Some? && err != err' {
      assert (TOOL_ERROR + err.value)[|TOOL_ERROR|..] == err.value;
      assert (TOOL_ERROR + err'.value)[|TOOL_ERROR|..] == err'.value;
    }
  }

  /** The user turn of a step holds every call's report. */
  lemma ResultsReport(tools: Toolbox, content: seq<Block>)
    ensures |Results(tools, content)| == |Uses(content)|
    ensures forall k :: 0 <= k < |Uses(content)| ==>
              Uses(content)[k].ToolUse? && Reports(tools, Uses(content)[k], tools.outcomes(k), Results(tools, content)[k])
  {
    UsesAreUses(content);
  }

  /** dispatchTools: one result per tool_use, in order. */
  method DispatchTools(tools: Toolbox, toolUses: seq<Block>) returns (results: seq<Block>)
    requires forall k :: 0 <= k < |toolUses| ==> toolUses[k].ToolUse?
    ensures |results| == |toolUses|
    ensures forall k :: 0 <= k < |toolUses| ==> results[k] == ResultFor(tools, toolUses[k], k)
    ensures forall k :: 0 <= k < |toolUses| ==> Reports(tools, toolUses[k], tools.outcomes(k), results[k])
  {
    results := [];
    for k := 0 to |toolUses|
      invariant |results| == k
      invariant forall j :: 0 <= j < k ==> results[j] == ResultFor(tools, toolUses[j], j)
    {
      var (out, isError) := CallTool(tools, toolUses[k], k);
      results := results + [ToolResult(toolUses[k].id, out, isError, false)];
    }
  }

  lemma UsesFront(content: seq<Block>)
    requires content != []
    ensures Uses(content) == (if content[0].ToolUse? then [content[0]] else []) + Uses(content[1..])
  {}

  lemma {:induction false} UsesSnoc(content: seq<Block>, b: Block)
    ensures Uses(content + [b]) == Uses(content) + (if b.ToolUse? then [b] else [])
  {
    NothingYet();
    hide Uses;
    var longer := content + [b];
    UsesFront(longer);
    if content == [] {
      assert longer[1..] == [];
    } else {
      UsesFront(content);
      assert longer[1..] == content[1..] + [b];
      UsesSnoc(content[1..], b);
    }
  }

  /** Step, given what the model replied. The conversation itself is not touched. */
  method Step(tools: Toolbox, content: seq<Block>) returns (res: StepResult)
    ensures res.messages == StepMessages(tools, content)
    ensures res.text == JoinedText(content)
    ensures res.toolCalls == |Uses(content)|
    ensures res.compacted <==> COMPACTION in content
    ensures res.messages[0] == Msg(Assistant, content)
    ensures |res.messages| == if Uses(content) == [] then 1 else 2
    ensures Uses(content) != [] ==>
              && res.messages[1].role == User && |res.messages[1].content| == |Uses(content)|
              && forall k :: 0 <= k < |Uses(content)| ==>
                   Uses(content)[k].ToolUse? && Reports(tools, Uses(content)[k], tools.outcomes(k), res.messages[1].content[k])
    ensures res.text == Concatenated(TextsOf(content))
  {
    hide Uses, JoinedText, Reports;
    ResultsReport(tools, content);
    TextIsTheTranscripts(content);
    NothingYet();
    var toolUses: seq<Block> := [];
    var text := "";
    var compacted := false;
    var i := 0;
    while i < |content|
      invariant 0 <= i <= |content|
      invariant toolUses == Uses(content[..i])
      invariant text == JoinedText(content[..i])
      invariant compacted <==> COMPACTION in content[..i]
    {
      UsesSnoc(content[..i], content[i]);
      JoinedTextSnoc(content[..i], content[i]);
      assert content[..i + 1] == content[..i] + [content[i]];
      if content[i].ToolUse? {
        toolUses := toolUses + [content[i]];
      } else if content[i].Text? {
        text := text + content[i].text;
      } else if content[i] == COMPACTION {
        compacted := true;
      }
      i := i + 1;
    }
    assert content[..i] == content;
    res := StepResult([Msg(Assistant, content)], text, 0, compacted);
    if |toolUses| == 0 {
      return;
    }
    UsesAreUses(content);
    var results := DispatchTools(tools, toolUses);
    assert results == Results(tools, content);
    res := res.(messages := res.messages + [Msg(User, results)], toolCalls := |toolUses|);
  }
}
