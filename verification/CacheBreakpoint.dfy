/**
 The rolling conversation cache breakpoint of a model request, which neither the conversation in
 memory nor the one on disk may ever come to hold.
 */
module CacheBreakpoints {
  /*
   The conversation's blocks are shared objects: the caller's history points at the same
   ones. The method below is given no right to modify anything, so whatever it does to
   build the request happens to copies.
   */

  import opened Prelude
  import opened Transcripts
  import opened Engines
  import opened RunLoop
  import opened SessionLogs
  import opened Harnesses

  // ----- on values ----------------------------------------------------------

  predicate Cacheable(b: Block) {
    b.Text? || b.ToolResult?
  }

  function Marked(b: Block): Block {
    match b
    case Text(text, _) => Text(text, true)
    case ToolResult(id, output, isError, _) => ToolResult(id, output, isError, true)
    case _ => b
  }

  function MarkLast(content: seq<Block>): seq<Block> {
    if content == [] then content else content[|content| - 1 := Marked(content[|content| - 1])]
  }

  /** The messages a request carries. */
  function WithBreakpoint(ms: seq<Msg>): seq<Msg> {
    if ms == [] then ms
    else ms[|ms| - 1 := ms[|ms| - 1].(content := MarkLast(ms[|ms| - 1].content))]
  }

  /** A block with its breakpoint, if it has one, taken off. */
  function Unmarked(b: Block): Block {
    match b
    case Text(text, _) => Text(text, false)
    case ToolResult(id, output, isError, _) => ToolResult(id, output, isError, false)
    case _ => b
  }

  function UnmarkedContent(content: seq<Block>): seq<Block> {
    seq(|content|, k requires 0 <= k < |content| => Unmarked(content[k]))
  }

  /** How many breakpoints a request spends on the conversation. */
  function Breakpoints(content: seq<Block>): nat {
    if content == [] then 0
    else Breakpoints(content[..|content| - 1]) + (if Breakpoint(content[|content| - 1]) then 1 else 0)
  }

  function AllBreakpoints(ms: seq<Msg>): nat {
    if ms == [] then 0 else AllBreakpoints(ms[..|ms| - 1]) + Breakpoints(ms[|ms| - 1].content)
  }

  lemma {:induction false} NoBreakpoints(content: seq<Block>)
    requires Uncached(content)
    ensures Breakpoints(content) == 0
  {
    if content != [] {
      NoBreakpoints(content[..|content| - 1]);
    }
  }

  lemma {:induction false} NoneAnywhere(ms: seq<Msg>)
    requires AllUncached(ms)
    ensures AllBreakpoints(ms) == 0
  {
    if ms != [] {
      NoneAnywhere(ms[..|ms| - 1]);
      NoBreakpoints(ms[|ms| - 1].content);
    }
  }

  /** A request from a conversation free of breakpoints carries at most one, at its very end, and says the same. */
  lemma RequestCarriesOne(ms: seq<Msg>)
    requires AllUncached(ms)
    ensures var req := WithBreakpoint(ms);
            && AllBreakpoints(req) <= 1
            && (AllBreakpoints(req) == 1 <==>
                  ms != [] && ms[|ms| - 1].content != [] && Cacheable(ms[|ms| - 1].content[|ms[|ms| - 1].content| - 1]))
            && |req| == |ms|
            && forall i :: 0 <= i < |ms| ==>
                 req[i].role == ms[i].role && UnmarkedContent(req[i].content) == UnmarkedContent(ms[i].content)
    ensures var req := WithBreakpoint(ms);
            forall i, k :: 0 <= i < |req| && 0 <= k < |req[i].content| && Breakpoint(req[i].content[k]) ==>
              i == |req| - 1 && k == |req[i].content| - 1
  {
    NoneAnywhere(ms);
    if ms != [] {
      var n := |ms| - 1;
      var req := WithBreakpoint(ms);
      assert req[..n] == ms[..n];
      NoneAnywhere(ms[..n]);
      var content := ms[n].content;
      NoBreakpoints(content);
      if content != [] {
        var k := |content| - 1;
        assert MarkLast(content)[..k] == content[..k];
        NoBreakpoints(content[..k]);
        assert UnmarkedContent(MarkLast(content)) == UnmarkedContent(content);
      }
    }
  }

  lemma ChunkIsUncached(m: Move)
    requires m.reply.Says? ==> Uncached(m.reply.content)
    ensures AllUncached(Chunk(m))
  {
    if m.reply.Says? {
      ResultsAnswer(m.reply.tools, m.reply.content);
    }
  }

  lemma {:induction false} ProducedIsUncached(moves: nat -> Move, n: nat)
    requires forall k :: 0 <= k < n && moves(k).reply.Says? ==> Uncached(moves(k).reply.content)
    ensures AllUncached(Produced(moves, n))
  {
    if n > 0 {
      ProducedIsUncached(moves, n - 1);
      ChunkIsUncached(moves(n - 1));
    }
  }

  lemma NoteIsUncached()
    ensures Uncached(INTERRUPTED_NOTE.content)
    ensures forall text :: Uncached(Prompt(text).content)
  {
  }

  /**
   Over a whole run: a conversation free of breakpoints stays free of them, and every
   request made along the way carries at most one.
   */
  lemma RunStaysUncached(history: seq<Msg>, prompt: string, moves: nat -> Move, max: int, i: nat)
    requires AllUncached(history)
    requires forall k :: 0 <= k && moves(k).reply.Says? ==> Uncached(moves(k).reply.content)
    ensures AllUncached(RunMessages(history, prompt, moves, max))
    ensures AllBreakpoints(WithBreakpoint(history + ([Prompt(prompt)] + Produced(moves, i)))) <= 1
  {
    hide WithBreakpoint, AllBreakpoints, Produced, End, Uncached, UnmarkedContent, Cacheable;
    ProducedIsUncached(moves, End(moves, max, 0).steps);
    ProducedIsUncached(moves, i);
    NoteIsUncached();
    RequestCarriesOne(history + ([Prompt(prompt)] + Produced(moves, i)));
  }

  // ----- and so does the log --------------------------------------------------

  lemma UncachedConcat(a: seq<Msg>, b: seq<Msg>)
    requires AllUncached(a) && AllUncached(b)
    ensures AllUncached(a + b)
  {}

  lemma {:induction false} StepPiecesAreUncached(prompt: string, moves: nat -> Move, n: nat)
    requires forall k :: 0 <= k && moves(k).reply.Says? ==> Uncached(moves(k).reply.content)
    ensures forall k :: 0 <= k < n ==> AllUncached(StepPieces(prompt, moves, n)[k])
  {
    if n > 0 {
      hide Chunk, AllUncached;
      StepPiecesAreUncached(prompt, moves, n - 1);
      ChunkIsUncached(moves(n - 1));
      FirstIsUncached(prompt, n);
      UncachedConcat(if n == 1 then [Prompt(prompt)] else [], Chunk(moves(n - 1)));
    }
  }

  lemma FirstIsUncached(prompt: string, n: nat)
    ensures AllUncached(if n == 1 then [Prompt(prompt)] else [])
  {
    NoteIsUncached();
  }

  lemma LastPieceIsUncached(history: seq<Msg>, prompt: string, moves: nat -> Move, n: nat)
    ensures AllUncached(LastPiece(history, prompt, moves, n))
  {
    NoteIsUncached();
  }

  lemma {:induction false} KeptIsUncached(chunks: seq<seq<Msg>>, faults: nat -> Fault)
    requires forall k :: 0 <= k < |chunks| ==> AllUncached(chunks[k])
    ensures AllUncached(Kept(chunks, faults))
  {
    if chunks != [] {
      var k := |chunks| - 1;
      KeptIsUncached(chunks[..k], faults);
      UncachedConcat(Kept(chunks[..k], faults), chunks[k][..Flushed(faults(k), |chunks[k]|)]);
    }
  }

  /**
   Whatever fails on the way, a log free of breakpoints is free of them after a run: what the
   run's checkpoints leave in it carries none.
   */
  lemma LogStaysUncached(base: seq<Entry>, history: seq<Msg>, prompt: string, moves: nat -> Move, max: int, faults: nat -> Fault)
    requires AllUncached(MessagesOf(base))
    requires forall k :: 0 <= k && moves(k).reply.Says? ==> Uncached(moves(k).reply.content)
    ensures AllUncached(MessagesOf(base + EntriesFor(Kept(Pieces(history, prompt, moves, max), faults))))
  {
    hide Kept, LastPiece, StepPieces, MessagesOf, EntriesFor, End, Uncached, AllUncached;
    var e := End(moves, max, 0);
    var pieces := Pieces(history, prompt, moves, max);
    StepPiecesAreUncached(prompt, moves, e.steps);
    LastPieceIsUncached(history, prompt, moves, e.steps);
    KeptIsUncached(pieces, faults);
    MessagesConcat(base, Kept(pieces, faults));
    UncachedConcat(MessagesOf(base), Kept(pieces, faults));
  }

  // ----- on shared objects --------------------------------------------------

  class TextParam {
    var text: string
    var cached: bool

    constructor (text: string, cached: bool)
      ensures this.text == text && this.cached == cached
    {
      this.text, this.cached := text, cached;
    }
  }

  class ToolResultParam {
    var id: string
    var output: string
    var isError: bool
    var cached: bool

    constructor (id: string, output: string, isError: bool, cached: bool)
      ensures this.id == id && this.output == output && this.isError == isError && this.cached == cached
    {
      this.id, this.output, this.isError, this.cached := id, output, isError, cached;
    }
  }

  /** One pointer of the content union is set; other kinds are never written. */
  datatype BlockRef = OfText(text: TextParam) | OfToolResult(result: ToolResultParam) | OfOther(block: Block)

  /** A message header sharing its content slice. */
  datatype MsgRef = MsgRef(role: Role, content: array<BlockRef>)

  ghost function Objects(b: BlockRef): set<object> {
    match b
    case OfText(t) => {t}
    case OfToolResult(r) => {r}
    case _ => {}
  }

  ghost function BlockView(b: BlockRef): Block
    reads Objects(b)
  {
    match b
    case OfText(t) => Text(t.text, t.cached)
    case OfToolResult(r) => ToolResult(r.id, r.output, r.isError, r.cached)
    case OfOther(block) => block
  }

  ghost function ContentView(bs: seq<BlockRef>): seq<Block>
    reads set b, o | b in bs && o in Objects(b) :: o
  {
    if bs == [] then [] else ContentView(bs[..|bs| - 1]) + [BlockView(bs[|bs| - 1])]
  }

  ghost function MsgView(m: MsgRef): Msg
    reads m.content, set b, o | b in m.content[..] && o in Objects(b) :: o
  {
    Msg(m.role, ContentView(m.content[..]))
  }

  ghost function View(ms: seq<MsgRef>): seq<Msg>
    reads set m | m in ms :: m.content
    reads set m, b, o | m in ms && b in m.content[..] && o in Objects(b) :: o
  {
    if ms == [] then [] else View(ms[..|ms| - 1]) + [MsgView(ms[|ms| - 1])]
  }

  /** Only blocks of the two cacheable kinds are held by pointer here. */
  ghost predicate Wellkept(b: BlockRef) {
    b.OfOther? ==> !Cacheable(b.block)
  }

  lemma {:induction false} ContentViewLength(bs: seq<BlockRef>)
    ensures |ContentView(bs)| == |bs|
  {
    if bs != [] {
      ContentViewLength(bs[..|bs| - 1]);
    }
  }

  lemma {:induction false} ViewLength(ms: seq<MsgRef>)
    ensures |View(ms)| == |ms|
  {
    if ms != [] {
      ViewLength(ms[..|ms| - 1]);
    }
  }

  /** A copy of the tail block with its breakpoint set. */
  method MarkCopy(tail: BlockRef) returns (copy: BlockRef)
    requires !tail.OfOther?
    ensures fresh(Objects(copy)) && BlockView(copy) == Marked(BlockView(tail))
  {
    match tail
    case OfText(t) =>
      var b := new TextParam(t.text, true);
      copy := OfText(b);
    case OfToolResult(r) =>
      var b := new ToolResultParam(r.id, r.output, r.isError, true);
      copy := OfToolResult(b);
  }

  /** Builds the request's messages; it may modify nothing that existed before the call. */
  method WithConversationCacheBreakpoint(messages: array<MsgRef>) returns (out: array<MsgRef>)
    requires forall i :: 0 <= i < messages.Length ==>
               forall k :: 0 <= k < messages[i].content.Length ==> Wellkept(messages[i].content[k])
    ensures out == messages || fresh(out)
    ensures View(out[..]) == WithBreakpoint(View(messages[..]))
  {
    if messages.Length == 0 {
      return messages;
    }
    var n := messages.Length - 1;
    var last := messages[n];
    ghost var content := last.content[..];
    ContentViewLength(content);
    SameView(messages[..], last);
    if last.content.Length == 0 {
      return messages;
    }
    var k := last.content.Length - 1;
    var tail := last.content[k];
    assert ContentView(content) == ContentView(content[..k]) + [BlockView(tail)];
    if tail.OfOther? {
      assert MarkLast(ContentView(content)) == ContentView(content);
      return messages;
    }
    var copy := MarkCopy(tail);
    var blocks := CopyContent(last.content, copy);
    out := CopyMessages(messages, MsgRef(last.role, blocks));
  }

  lemma SameView(ms: seq<MsgRef>, last: MsgRef)
    requires ms != [] && last == ms[|ms| - 1]
    ensures |View(ms)| == |ms| && View(ms)[|ms| - 1] == MsgView(last)
    ensures MarkLast(MsgView(last).content) == MsgView(last).content ==> WithBreakpoint(View(ms)) == View(ms)
  {
    ViewLength(ms);
    ViewLength(ms[..|ms| - 1]);
    if MarkLast(MsgView(last).content) == MsgView(last).content {
      assert View(ms)[|ms| - 1 := MsgView(last)] == View(ms);
    }
  }

  /** A copy of a content slice with its last block replaced by a marked copy. */
  method CopyContent(content: array<BlockRef>, copy: BlockRef) returns (blocks: array<BlockRef>)
    requires content.Length > 0
    requires BlockView(copy) == Marked(BlockView(content[content.Length - 1]))
    ensures fresh(blocks)
    ensures ContentView(blocks[..]) == MarkLast(ContentView(content[..]))
    ensures forall b :: b in blocks[..] ==> b == copy || b in content[..]
  {
    hide ContentView, Marked, MarkLast;
    var k := content.Length - 1;
    blocks := new BlockRef[content.Length](i requires 0 <= i < content.Length reads content => content[i]);
    blocks[k] := copy;
    LastReplaced(content[..], blocks[..], copy);
  }

  lemma LastReplaced(was: seq<BlockRef>, now: seq<BlockRef>, copy: BlockRef)
    requires |was| > 0 && now == was[..|was| - 1] + [copy]
    requires BlockView(copy) == Marked(BlockView(was[|was| - 1]))
    ensures ContentView(now) == MarkLast(ContentView(was))
  {
    var k := |was| - 1;
    assert now[..k] == was[..k];
    ContentViewLength(was[..k]);
    assert ContentView(now) == ContentView(was[..k]) + [BlockView(copy)];
    assert ContentView(was) == ContentView(was[..k]) + [BlockView(was[k])];
  }

  /** A copy of the messages with the last one replaced. */
  method CopyMessages(messages: array<MsgRef>, last: MsgRef) returns (out: array<MsgRef>)
    requires messages.Length > 0
    requires MsgView(last) == MsgView(messages[messages.Length - 1]).(content := MarkLast(MsgView(messages[messages.Length - 1]).content))
    ensures fresh(out)
    ensures View(out[..]) == WithBreakpoint(View(messages[..]))
  {
    var n := messages.Length - 1;
    ghost var was, changed := MsgView(messages[n]), MsgView(last);
    out := new MsgRef[messages.Length](i requires 0 <= i < messages.Length reads messages => messages[i]);
    out[n] := last;
    assert out[..][..n] == messages[..][..n];
    SameContent(last.content[..]);
    SameContent(messages[n].content[..]);
    ReplacedLast(messages[..], out[..]);
  }

  /** Blocks that were not written look the same. */
  twostate lemma {:induction false} SameContent(bs: seq<BlockRef>)
    requires forall b, o :: b in bs && o in Objects(b) ==> old(allocated(o)) && unchanged(o)
    ensures ContentView(bs) == old(ContentView(bs))
  {
    if bs != [] {
      SameContent(bs[..|bs| - 1]);
    }
  }

  lemma ReplacedLast(ms: seq<MsgRef>, out: seq<MsgRef>)
    requires |ms| == |out| > 0 && out[..|ms| - 1] == ms[..|ms| - 1]
    requires MsgView(out[|ms| - 1]) == MsgView(ms[|ms| - 1]).(content := MarkLast(MsgView(ms[|ms| - 1]).content))
    ensures View(out) == WithBreakpoint(View(ms))
  {
    var n := |ms| - 1;
    ViewLength(ms[..n]);
    var before := View(ms[..n]);
    assert View(out) == before + [MsgView(out[n])];
    assert View(ms) == before + [MsgView(ms[n])];
  }
}
