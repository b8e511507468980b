/** The harness: the run loop over its mutable fields. */
module Harnesses {
  /*
   Concurrent Steer calls touch only `queued`, which the loop reads only when it drains it, so
   a call is placed right before the next drain (or before the run's end).
   */

  import opened Prelude
  import opened Transcripts
  import opened Engines
  import opened RunLoop
  import opened SessionLogs

  datatype RunResult = RunResult(
    messages: seq<Msg>, finalText: string, steps: nat, steered: nat, compactions: nat, interrupted: bool, err: Option<string>)

  /** What a run handed over on its way: texts drained and dropped, and checkpoints written. */
  datatype Trace = Trace(delivered: seq<string>, dropped: seq<string>, checkpoints: seq<seq<Msg>>)

  function Flatten(chunks: seq<seq<Msg>>): seq<Msg> {
    if chunks == [] then [] else Flatten(chunks[..|chunks| - 1]) + chunks[|chunks| - 1]
  }

  /** What of the checkpoints reaches the log when checkpoint k meets faults(k). */
  function Kept(chunks: seq<seq<Msg>>, faults: nat -> Fault): seq<Msg> {
    if chunks == [] then []
    else
      var k := |chunks| - 1;
      Kept(chunks[..k], faults) + chunks[k][..Flushed(faults(k), |chunks[k]|)]
  }

  predicate NoneFail(chunks: seq<seq<Msg>>, faults: nat -> Fault) {
    forall k :: 0 <= k < |chunks| ==> Flushed(faults(k), |chunks[k]|) == |chunks[k]|
  }

  predicate NoneTorn(chunks: seq<seq<Msg>>, codec: Codec, faults: nat -> Fault) {
    forall k :: 0 <= k < |chunks| ==> Torn(codec, chunks[k], faults(k)) == []
  }

  /** When every entry gets through, the log gains everything. */
  lemma {:induction false} AllKept(chunks: seq<seq<Msg>>, faults: nat -> Fault)
    requires NoneFail(chunks, faults)
    ensures Kept(chunks, faults) == Flatten(chunks)
  {
    if chunks != [] {
      var k := |chunks| - 1;
      AllKept(chunks[..k], faults);
      assert chunks[k][..|chunks[k]|] == chunks[k];
    }
  }

  /** When appends fail whole, the log gains the checkpoints that did not. */
  lemma {:induction false} WholeFailures(chunks: seq<seq<Msg>>, faults: nat -> Fault)
    requires forall k :: 0 <= k < |chunks| ==> Flushed(faults(k), |chunks[k]|) in {0, |chunks[k]|}
    ensures Kept(chunks, faults) ==
            Flatten(seq(|chunks|, k requires 0 <= k < |chunks| =>
                      if Flushed(faults(k), |chunks[k]|) == |chunks[k]| then chunks[k] else []))
  {
    if chunks != [] {
      var k := |chunks| - 1;
      WholeFailures(chunks[..k], faults);
      var survivors := seq(|chunks|, j requires 0 <= j < |chunks| =>
        if Flushed(faults(j), |chunks[j]|) == |chunks[j]| then chunks[j] else []);
      assert survivors[..k] == seq(|chunks[..k]|, j requires 0 <= j < |chunks[..k]| =>
        if Flushed(faults(j), |chunks[..k][j]|) == |chunks[..k][j]| then chunks[..k][j] else []);
      assert chunks[k][..|chunks[k]|] == chunks[k] && chunks[k][..0] == [];
    }
  }

  lemma FlattenSnoc(chunks: seq<seq<Msg>>, chunk: seq<Msg>)
    ensures Flatten(chunks + [chunk]) == Flatten(chunks) + chunk
  {
    assert (chunks + [chunk])[..|chunks|] == chunks;
  }

  lemma KeptSnoc(chunks: seq<seq<Msg>>, chunk: seq<Msg>, faults: nat -> Fault)
    ensures Kept(chunks + [chunk], faults) ==
            Kept(chunks, faults) + chunk[..Flushed(faults(|chunks|), |chunk|)]
  {
    assert (chunks + [chunk])[..|chunks|] == chunks;
  }

  lemma NoneTornSnoc(chunks: seq<seq<Msg>>, chunk: seq<Msg>, codec: Codec, faults: nat -> Fault)
    ensures NoneTorn(chunks + [chunk], codec, faults) ==>
              NoneTorn(chunks, codec, faults) && Torn(codec, chunk, faults(|chunks|)) == []
  {
    var more := chunks + [chunk];
    assert more[|chunks|] == chunk;
    assert forall k :: 0 <= k < |chunks| ==> more[k] == chunks[k];
  }

  lemma EntriesConcat(a: seq<Msg>, b: seq<Msg>)
    ensures EntriesFor(a + b) == EntriesFor(a) + EntriesFor(b)
  {
  }

  /** The last non-empty text of the first n steps. */
  function LastText(moves: nat -> Move, n: nat): string {
    if n == 0 then ""
    else
      match moves(n - 1).reply
      case Says(content, _) => if JoinedText(content) == "" then LastText(moves, n - 1) else JoinedText(content)
      case _ => LastText(moves, n - 1)
  }

  lemma AcceptedNone(texts: seq<string>)
    ensures Accepted(texts[..0]) == []
  {}

  lemma AcceptedNext(texts: seq<string>, i: nat)
    requires i < |texts|
    ensures Accepted(texts[..i + 1]) == if texts[i] == "" then Accepted(texts[..i]) else Accepted(texts[..i]) + [texts[i]]
  {
    assert texts[..i + 1][..i] == texts[..i];
    assert Accepted(texts[..i]) + [] == Accepted(texts[..i]);
  }

  /** How many of the first n steps came with a compaction. */
  function Compactions(moves: nat -> Move, n: nat): nat {
    if n == 0 then 0
    else
      match moves(n - 1).reply
      case Says(content, _) => Compactions(moves, n - 1) + (if COMPACTION in content then 1 else 0)
      case _ => Compactions(moves, n - 1)
  }

  // ----- a run's account of itself, read back from its messages ----------------

  /** What a reply says in words; the user's messages are none. */
  function Words(m: Msg): string {
    if m.role.Assistant? then Concatenated(TextsOf(m.content)) else ""
  }

  ghost predicate SilentFrom(ms: seq<Msg>, i: nat) {
    forall j :: i <= j < |ms| ==> Words(ms[j]) == ""
  }

  /** The words of the last reply that has any. */
  ghost predicate LastWords(ms: seq<Msg>, text: string) {
    if text == "" then SilentFrom(ms, 0)
    else exists i: nat :: i < |ms| && Words(ms[i]) == text && SilentFrom(ms, i + 1)
  }

  function Replies(ms: seq<Msg>): nat {
    if ms == [] then 0 else Replies(ms[..|ms| - 1]) + if ms[|ms| - 1].role.Assistant? then 1 else 0
  }

  /** The replies before which the API had compacted what it was sent. */
  function CompactedReplies(ms: seq<Msg>): nat {
    if ms == [] then 0
    else CompactedReplies(ms[..|ms| - 1])
         + if ms[|ms| - 1].role.Assistant? && Other("compaction") in ms[|ms| - 1].content then 1 else 0
  }

  /** A step is one reply, and at most one user message behind it. */
  lemma ChunkShape(m: Move)
    requires m.reply.Says?
    ensures 1 <= |Chunk(m)| <= 2 && Chunk(m)[0] == Msg(Assistant, m.reply.content)
    ensures |Chunk(m)| == 2 ==> Chunk(m)[1].role.User?
  {}

  lemma RepliesSnoc(ms: seq<Msg>, m: Msg)
    ensures Replies(ms + [m]) == Replies(ms) + if m.role.Assistant? then 1 else 0
    ensures CompactedReplies(ms + [m]) == CompactedReplies(ms) + if m.role.Assistant? && COMPACTION in m.content then 1 else 0
  {
    assert (ms + [m])[..|ms|] == ms;
  }

  lemma LastWordsSnoc(ms: seq<Msg>, text: string, m: Msg)
    requires LastWords(ms, text)
    ensures LastWords(ms + [m], if Words(m) == "" then text else Words(m))
  {
    var more := ms + [m];
    assert more[|ms|] == m && forall j :: 0 <= j < |ms| ==> more[j] == ms[j];
    if Words(m) != "" {
      assert SilentFrom(more, |ms| + 1);
    } else if text != "" {
      var i: nat :| i < |ms| && Words(ms[i]) == text && SilentFrom(ms, i + 1);
      assert Words(more[i]) == text && SilentFrom(more, i + 1);
    }
  }

  lemma {:induction false} ProducedTells(moves: nat -> Move, n: nat)
    requires forall k :: 0 <= k < n ==> moves(k).reply.Says?
    ensures LastWords(Produced(moves, n), LastText(moves, n))
    ensures Replies(Produced(moves, n)) == n && CompactedReplies(Produced(moves, n)) == Compactions(moves, n)
  {
    hide LastWords, Chunk, LastText, Compactions, Replies, CompactedReplies;
    if n > 0 {
      ProducedTells(moves, n - 1);
      assert moves(n - 1).reply.Says?;
      StepTells(Produced(moves, n - 1), moves, n);
    } else {
      NothingTold(moves);
    }
  }

  lemma NothingTold(moves: nat -> Move)
    ensures LastWords([], LastText(moves, 0)) && Replies([]) == 0 && CompactedReplies([]) == Compactions(moves, 0)
  {}

  lemma StepTells(ms: seq<Msg>, moves: nat -> Move, n: nat)
    requires n > 0 && moves(n - 1).reply.Says? && LastWords(ms, LastText(moves, n - 1))
    ensures LastWords(ms + Chunk(moves(n - 1)), LastText(moves, n))
    ensures Replies(ms + Chunk(moves(n - 1))) == Replies(ms) + 1
    ensures CompactedReplies(ms + Chunk(moves(n - 1))) + Compactions(moves, n - 1) == CompactedReplies(ms) + Compactions(moves, n)
  {
    var reply := Msg(Assistant, moves(n - 1).reply.content);
    NextTexts(moves, n, reply);
    ChunkShape(moves(n - 1));
    hide LastWords, Chunk, Words, Replies, CompactedReplies, LastText, Compactions;
    ChunkTells(ms, LastText(moves, n - 1), Chunk(moves(n - 1)), reply);
  }

  lemma NextTexts(moves: nat -> Move, n: nat, reply: Msg)
    requires n > 0 && moves(n - 1).reply.Says? && reply == Msg(Assistant, moves(n - 1).reply.content)
    ensures LastText(moves, n) == if Words(reply) == "" then LastText(moves, n - 1) else Words(reply)
    ensures Compactions(moves, n) == Compactions(moves, n - 1) + if Other("compaction") in reply.content then 1 else 0
  {
    TextIsTheTranscripts(reply.content);
    hide JoinedText, Concatenated, TextsOf;
  }

  /** What one reply, and the user message that may follow it, add to the account. */
  lemma ChunkTells(ms: seq<Msg>, text: string, chunk: seq<Msg>, reply: Msg)
    requires LastWords(ms, text) && 1 <= |chunk| <= 2 && chunk[0] == reply && reply.role.Assistant?
    requires |chunk| == 2 ==> chunk[1].role.User?
    ensures LastWords(ms + chunk, if Words(reply) == "" then text else Words(reply))
    ensures Replies(ms + chunk) == Replies(ms) + 1
    ensures CompactedReplies(ms + chunk) == CompactedReplies(ms) + if Other("compaction") in reply.content then 1 else 0
  {
    hide LastWords, Replies, CompactedReplies;
    LastWordsSnoc(ms, text, reply);
    RepliesSnoc(ms, reply);
    if |chunk| == 2 {
      LastWordsSnoc(ms + [reply], if Words(reply) == "" then text else Words(reply), chunk[1]);
      RepliesSnoc(ms + [reply], chunk[1]);
      assert ms + chunk == ms + [reply] + [chunk[1]];
    } else {
      assert ms + chunk == ms + [reply];
    }
  }

  /** A last reply with words in it is the one they are taken from. */
  lemma LastReplyPrevails(ms: seq<Msg>, text: string)
    requires LastWords(ms, text) && ms != [] && Words(ms[|ms| - 1]) != ""
    ensures text == Words(ms[|ms| - 1])
  {
    var n := |ms| - 1;
    if text != "" {
      var i: nat :| i < |ms| && Words(ms[i]) == text && SilentFrom(ms, i + 1);
      assert i == n;
    }
  }

  const NOTE := "[This turn was interrupted before I produced a reply.]"

  /** What a result says of its run is what the messages say that the run produced. */
  ghost predicate TellsOf(res: RunResult, history: seq<Msg>, prompt: string, produced: seq<Msg>) {
    var ms := [Prompt(prompt)] + produced;
    && res.messages == history + ms + (if res.interrupted then [Msg(Assistant, [Text(NOTE, false)])] else [])
    && LastWords(produced, res.finalText)
    && res.steps == Replies(produced) && res.compactions == CompactedReplies(produced)
    && (!res.interrupted ==> Answer(produced, res.finalText))
  }

  /** The reply that answers comes last, and if it says anything that is what is said. */
  ghost predicate Answer(produced: seq<Msg>, text: string) {
    && produced != [] && produced[|produced| - 1].role.Assistant?
    && (Words(produced[|produced| - 1]) != "" ==> text == Words(produced[|produced| - 1]))
  }

  lemma ResultTells(res: RunResult, history: seq<Msg>, prompt: string, moves: nat -> Move, max: int)
    requires var e := End(moves, max, 0);
             && res.messages == RunMessages(history, prompt, moves, max) && (res.interrupted <==> !e.exit.Answered?)
             && res.steps == e.steps && res.finalText == LastText(moves, e.steps) && res.compactions == Compactions(moves, e.steps)
    ensures TellsOf(res, history, prompt, Produced(moves, res.steps))
  {
    StepsSaid(moves, max);
    ProducedTells(moves, End(moves, max, 0).steps);
    if End(moves, max, 0).exit.Answered? {
      AnswerIsLast(moves, max, res.finalText);
    }
    MessagesSplit(history, prompt, moves, max);
    if !End(moves, max, 0).exit.Answered? {
      CutShortIsNoted(history, prompt, moves, max);
    }
    hide RunMessages, Produced, End, LastWords, LastText, Compactions, Replies, CompactedReplies, Answer, Closing;
  }

  /** A run that is cut short leaves the user's word unanswered, and says so. */
  lemma CutShortIsNoted(history: seq<Msg>, prompt: string, moves: nat -> Move, max: int)
    requires !End(moves, max, 0).exit.Answered?
    ensures Closing(history + ([Prompt(prompt)] + Produced(moves, End(moves, max, 0).steps))) == [Msg(Assistant, [Text(NOTE, false)])]
  {
    hide Uses, Accepted;
    EndFacts(moves, max, 0);
    var n := End(moves, max, 0).steps;
    if n > 0 {
      var chunk := Chunk(moves(n - 1));
      assert |chunk| == 2 && chunk[1].role.User?;
      assert Produced(moves, n)[|Produced(moves, n)| - 1] == chunk[1];
    }
  }

  lemma AnswerIsLast(moves: nat -> Move, max: int, text: string)
    requires End(moves, max, 0).exit.Answered? && LastWords(Produced(moves, End(moves, max, 0).steps), text)
    ensures Answer(Produced(moves, End(moves, max, 0).steps), text)
  {
    hide *;
    AnswerComesLast(moves, max);
    EndsInAnswer(Produced(moves, End(moves, max, 0).steps), text);
  }

  lemma EndsInAnswer(produced: seq<Msg>, text: string)
    requires LastWords(produced, text) && produced != [] && produced[|produced| - 1].role.Assistant?
    ensures Answer(produced, text)
  {
    hide LastWords;
    if Words(produced[|produced| - 1]) != "" {
      LastReplyPrevails(produced, text);
    }
  }

  lemma AnswerComesLast(moves: nat -> Move, max: int)
    requires End(moves, max, 0).exit.Answered?
    ensures var produced := Produced(moves, End(moves, max, 0).steps);
            produced != [] && produced[|produced| - 1].role.Assistant?
  {
    EndFacts(moves, max, 0);
    var n := End(moves, max, 0).steps;
    hide End, Uses, Accepted, Continues;
    assert Chunk(moves(n - 1)) == [Msg(Assistant, moves(n - 1).reply.content)];
  }

  lemma MessagesSplit(history: seq<Msg>, prompt: string, moves: nat -> Move, max: int)
    ensures var e := End(moves, max, 0);
            var ms := [Prompt(prompt)] + Produced(moves, e.steps);
            RunMessages(history, prompt, moves, max) == history + ms + (if e.exit.Answered? then [] else Closing(history + ms))
  {}

  /** injectSteering: a fresh tail, never a write into the step's own message. */
  method InjectSteering(stepMsgs: seq<Msg>, steering: seq<string>) returns (out: seq<Msg>)
    ensures out == Inject(stepMsgs, steering)
    ensures var n, said := |stepMsgs|, seq(|steering|, i requires 0 <= i < |steering| => Text(steering[i], false));
            if n > 0 && stepMsgs[n - 1].role.User?
            then out == stepMsgs[..n - 1] + [Msg(User, stepMsgs[n - 1].content + said)]
            else out == stepMsgs + [Msg(User, said)]
  {
    var blocks: seq<Block> := [];
    for i := 0 to |steering|
      invariant blocks == TextBlocks(steering[..i])
    {
      assert steering[..i + 1] == steering[..i] + [steering[i]];
      blocks := blocks + [Text(steering[i], false)];
    }
    assert steering[..|steering|] == steering;
    out := stepMsgs;
    var n := |out|;
    if n > 0 && out[n - 1].role == User {
      var merged := out[n - 1].content + blocks;
      out := out[n - 1 := Msg(User, merged)];
      return;
    }
    out := out + [Msg(User, blocks)];
  }

  lemma StaysBalanced(history: seq<Msg>, flat: seq<Msg>, pending: seq<Msg>, note: seq<Msg>)
    ensures history + ((flat + pending + note) + []) == history + (flat + pending) + note
  {}

  class Harness {
    const log: Session?
    const maxIterations: int
    var running: bool
    var queued: seq<string>
    ghost var taken: seq<string>
    ghost var trace: Trace
    ghost var base: seq<Entry>
    ghost var wasIntact: bool
    ghost var takenBefore: seq<string>

    ghost predicate Valid()
      reads this, log
    {
      !running ==> queued == []
    }

    /** The log holds what it held before the run, and what of its checkpoints got through. */
    ghost predicate Logged(faults: nat -> Fault)
      reads this, log
    {
      log != null ==>
        && log.entries == base + EntriesFor(Kept(trace.checkpoints, faults))
        && (wasIntact && NoneTorn(trace.checkpoints, log.codec, faults) ==> log.Intact())
    }

    constructor (log: Session?, maxIterations: int)
      ensures Valid() && this.log == log && this.maxIterations == maxIterations && !running
    {
      this.log, this.maxIterations := log, maxIterations;
      running, queued := false, [];
      taken, trace, base, wasIntact, takenBefore := [], Trace([], [], []), [], false, [];
    }

    method Steer(text: string) returns (ok: bool)
      requires Valid()
      modifies this`queued, this`taken
      ensures Valid()
      ensures ok <==> text != "" && running
      ensures queued == (if ok then old(queued) + [text] else old(queued))
      ensures taken == (if ok then old(taken) + [text] else old(taken))
    {
      if text == "" || !running {
        return false;
      }
      queued := queued + [text];
      taken := taken + [text];
      return true;
    }

    /** Other goroutines steering while a run is active. */
    method Interfere(texts: seq<string>)
      requires Valid() && running
      modifies this`queued, this`taken
      ensures Valid() && queued == old(queued) + Accepted(texts) && taken == old(taken) + Accepted(texts)
    {
      hide Accepted;
      AcceptedNone(texts);
      for i := 0 to |texts|
        invariant Valid() && queued == old(queued) + Accepted(texts[..i])
        invariant taken == old(taken) + Accepted(texts[..i])
      {
        AcceptedNext(texts, i);
        var ok := Steer(texts[i]);
      }
      assert texts[..|texts|] == texts;
    }

    method DrainSteering() returns (q: seq<string>)
      requires Valid()
      modifies this`queued
      ensures Valid() && q == old(queued) && queued == []
    {
      q := queued;
      queued := [];
    }

    method SetRunning(v: bool)
      requires Valid()
      modifies this`running, this`queued
      ensures Valid() && running == v && queued == if v then old(queued) else []
    {
      running := v;
      if !v {
        queued := [];
      }
    }

    /** A write failure is swallowed: the run's work is real whether or not it was recorded. */
    method Checkpoint(pending: seq<Msg>, faults: nat -> Fault, writes: nat) returns (writes': nat)
      requires log != null ==> Lawful(log.codec)
      requires Logged(faults) && writes == |trace.checkpoints|
      modifies this`trace, log
      ensures Logged(faults) && writes' == |trace.checkpoints|
      ensures trace == old(trace).(checkpoints := trace.checkpoints)
      ensures log != null ==> Flatten(trace.checkpoints) == Flatten(old(trace).checkpoints) + pending
      ensures trace.checkpoints == old(trace).checkpoints + if log == null then [] else NonEmpty(pending)
      ensures pending == [] ==> trace == old(trace)
    {
      hide Kept, EntriesFor, NoneTorn;
      if log == null || |pending| == 0 {
        assert Flatten(trace.checkpoints) + [] == Flatten(trace.checkpoints);
        assert trace.checkpoints + [] == trace.checkpoints;
        return writes;
      }
      KeptSnoc(trace.checkpoints, pending, faults);
      FlattenSnoc(trace.checkpoints, pending);
      EntriesConcat(Kept(trace.checkpoints, faults), pending[..Flushed(faults(writes), |pending|)]);
      ghost var before := trace.checkpoints;
      var ok := log.Append(pending, faults(writes));
      trace := trace.(checkpoints := trace.checkpoints + [pending]);
      NoneTornSnoc(before, pending, log.codec, faults);
      return writes + 1;
    }

    /** close: the note if the transcript is left on a user turn, then a last checkpoint. */
    method CloseRun(messages: seq<Msg>, pending: seq<Msg>, faults: nat -> Fault, writes: nat) returns (out: seq<Msg>)
      requires log != null ==> Lawful(log.codec)
      requires Logged(faults) && writes == |trace.checkpoints|
      modifies this`trace, log
      ensures Logged(faults) && out == messages + Closing(messages)
      ensures messages == [] || messages[|messages| - 1].role.Assistant? ==> out == messages
      ensures messages != [] && messages[|messages| - 1].role.User? ==> out == messages + [Msg(Assistant, [Text(NOTE, false)])]
      ensures trace == old(trace).(checkpoints := trace.checkpoints)
      ensures log != null ==> Flatten(trace.checkpoints) == Flatten(old(trace).checkpoints) + pending + Closing(messages)
      ensures log != null ==> trace.checkpoints == old(trace).checkpoints + NonEmpty(pending + Closing(messages))
    {
      out := messages;
      var left := pending;
      if |messages| > 0 && messages[|messages| - 1].role == User {
        out := out + [INTERRUPTED_NOTE];
        left := left + [INTERRUPTED_NOTE];
      }
      assert left == pending + Closing(messages);
      var w := Checkpoint(left, faults, writes);
      assert Flatten(old(trace).checkpoints) + (pending + Closing(messages))
          == Flatten(old(trace).checkpoints) + pending + Closing(messages);
    }

    /** Nothing of a run's work is lost between memory and the log's checkpoints. */
    ghost predicate Balanced(history: seq<Msg>, messages: seq<Msg>, pending: seq<Msg>)
      reads this
    {
      log != null ==> messages == history + (Flatten(trace.checkpoints) + pending)
    }

    /** One step and its checkpoint: steering is merged in before anything is recorded. */
    method RunStep(ghost history: seq<Msg>, messages: seq<Msg>, pending: seq<Msg>, move: Move, faults: nat -> Fault, writes: nat)
        returns (out: seq<Msg>, steering: seq<string>, step: StepResult, writes': nat)
      requires Valid() && running && move.reply.Says? && queued == Accepted(move.steers)
      requires Logged(faults) && writes == |trace.checkpoints|
      requires log != null ==> Lawful(log.codec)
      requires Balanced(history, messages, pending)
      modifies this`trace, this`queued, log
      ensures Valid() && running && queued == [] && steering == old(queued)
      ensures Logged(faults) && writes' == |trace.checkpoints|
      ensures out == messages + Chunk(move) && Balanced(history, out, [])
      ensures step.text == JoinedText(move.reply.content) && step.toolCalls == |Uses(move.reply.content)|
      ensures step.compacted <==> COMPACTION in move.reply.content
      ensures trace.delivered == old(trace).delivered + steering
      ensures log != null ==> trace.checkpoints == old(trace).checkpoints + [pending + Chunk(move)]
    {
      hide Uses, JoinedText, Flatten, Accepted, Kept, EntriesFor;
      step := Step(move.reply.tools, move.reply.content);
      var stepMsgs := step.messages;
      steering := DrainSteering();
      if |steering| > 0 {
        stepMsgs := InjectSteering(stepMsgs, steering);
      }
      trace := trace.(delivered := trace.delivered + steering);
      assert stepMsgs == Chunk(move);
      out := messages + stepMsgs;
      ghost var flat := Flatten(trace.checkpoints);
      writes' := Checkpoint(pending + stepMsgs, faults, writes);
      assert log != null ==> history + (flat + pending) + stepMsgs == history + (Flatten(trace.checkpoints) + []);
    }

    /** After i steps everything is accounted for: transcript, log, steering. */
    ghost predicate Recorded(history: seq<Msg>, userText: string, moves: nat -> Move, faults: nat -> Fault,
                             i: nat, messages: seq<Msg>, pending: seq<Msg>, writes: nat, res: RunResult)
      reads this, log
    {
      && Valid() && running && queued == []
      && Logged(faults) && writes == |trace.checkpoints|
      && messages == history + ([Prompt(userText)] + Produced(moves, i))
      && Balanced(history, messages, pending)
      && (log != null ==> trace.checkpoints == StepPieces(userText, moves, i))
      && pending == (if i == 0 then [Prompt(userText)] else [])
      && res.steps == i && res.finalText == LastText(moves, i) && res.compactions == Compactions(moves, i)
      && trace.delivered == Delivered(moves, i) && res.steered == |trace.delivered|
      && taken == takenBefore + trace.delivered
    }

    /** ... and nothing stopped the run yet. */
    ghost predicate Going(history: seq<Msg>, userText: string, moves: nat -> Move, faults: nat -> Fault,
                          i: nat, messages: seq<Msg>, pending: seq<Msg>, writes: nat, res: RunResult)
      reads this, log
    {
      && Recorded(history, userText, moves, faults, i, messages, pending, writes, res)
      && (i <= maxIterations || i == 0)
      && End(moves, maxIterations, 0) == End(moves, maxIterations, i)
    }

    /** After the run: its result is the one the outside world's moves call for. */
    ghost predicate Finished(history: seq<Msg>, userText: string, moves: nat -> Move, faults: nat -> Fault, res: RunResult)
      reads this, log
    {
      var e := End(moves, maxIterations, 0);
      && Valid() && !running
      && Logged(faults) && Balanced(history, res.messages, [])
      && res.messages == RunMessages(history, userText, moves, maxIterations)
      && (log != null ==> trace.checkpoints == Pieces(history, userText, moves, maxIterations))
      && res.steps == e.steps
      && (res.interrupted <==> !e.exit.Answered?)
      && res.err == (match e.exit case Cancelled(err) => Some(err) case ModelFailed(err) => Some(err) case _ => None)
      && res.finalText == LastText(moves, e.steps) && res.compactions == Compactions(moves, e.steps)
      && res.steered == |trace.delivered|
      && trace.delivered == Delivered(moves, e.steps)
      && trace.dropped == Accepted(moves(e.steps).steers)
      && taken == takenBefore + trace.delivered + trace.dropped
    }

    /** Run: one user turn to completion, cancellation, failure or an exhausted budget. */
    method Run(history: seq<Msg>, userText: string, moves: nat -> Move, faults: nat -> Fault) returns (res: RunResult)
      requires Valid() && !running
      requires log != null ==> Lawful(log.codec)
      modifies this, log
      ensures Finished(history, userText, moves, faults, res)
      ensures TellsOf(res, history, userText, Produced(moves, res.steps))
      ensures takenBefore == old(taken)
      ensures log != null ==> Flatten(trace.checkpoints) == Added(history, userText, moves, maxIterations)
      ensures log != null ==> trace.checkpoints == Pieces(history, userText, moves, maxIterations)
      ensures log != null ==> log.entries == old(log.entries) + EntriesFor(Kept(trace.checkpoints, faults))
      ensures log != null && old(log.Intact()) && NoneTorn(trace.checkpoints, log.codec, faults) ==> log.Intact()
    {
      var messages, pending, writes, i := Begin(history, userText, moves, faults);
      res := RunResult([], "", 0, 0, 0, true, None);
      ghost var entries0 := if log == null then [] else old(log.entries);
      ghost var intact0 := if log == null then false else old(log.Intact());
      var done := false;
      assert base == entries0 && wasIntact == intact0;
      while !done && i < maxIterations
        invariant log != null ==> base == entries0 && wasIntact == intact0
        invariant takenBefore == old(taken)
        invariant !done ==> Going(history, userText, moves, faults, i, messages, pending, writes, res)
        invariant done ==> Finished(history, userText, moves, faults, res)
        decreases maxIterations - i, !done
      {
        hide Going, Finished;
        messages, pending, writes, res, done := Iterate(history, userText, moves, faults, i, messages, pending, writes, res);
        if !done {
          i := i + 1;
        }
      }
      hide Going, Finished;
      if !done {
        res := Stop(history, userText, moves, faults, i, messages, pending, writes, res, None);
      }
      FinishedReachedTheLog(history, userText, moves, faults, res);
      FinishedTells(history, userText, moves, faults, res);
    }

    lemma FinishedTells(history: seq<Msg>, userText: string, moves: nat -> Move, faults: nat -> Fault, res: RunResult)
      requires Finished(history, userText, moves, faults, res)
      ensures TellsOf(res, history, userText, Produced(moves, res.steps))
    {
      hide RunMessages, Kept, Flatten, Pieces, TellsOf, LastText, Compactions, Delivered, Accepted;
      ResultTells(res, history, userText, moves, maxIterations);
    }

    lemma FinishedReachedTheLog(history: seq<Msg>, userText: string, moves: nat -> Move, faults: nat -> Fault, res: RunResult)
      requires Finished(history, userText, moves, faults, res)
      ensures log != null ==> Flatten(trace.checkpoints) == Added(history, userText, moves, maxIterations)
      ensures log != null ==> log.entries == base + EntriesFor(Kept(trace.checkpoints, faults))
      ensures log != null ==> trace.checkpoints == Pieces(history, userText, moves, maxIterations)
      ensures log != null && wasIntact && NoneTorn(trace.checkpoints, log.codec, faults) ==> log.Intact()
    {
      hide End, Kept, Added, EntriesFor, NoneTorn, Flatten, Accepted, Delivered, LastText;
      ReachedTheLog(history, res.messages, Added(history, userText, moves, maxIterations));
    }

    lemma ReachedTheLog(history: seq<Msg>, messages: seq<Msg>, added: seq<Msg>)
      requires Balanced(history, messages, []) && messages == history + added
      ensures log != null ==> Flatten(trace.checkpoints) == added
    {
      if log != null {
        assert (history + (Flatten(trace.checkpoints) + []))[|history|..] == Flatten(trace.checkpoints);
        assert (history + added)[|history|..] == added;
      }
    }

    /** The user message is held back until the first step has something to go with it. */
    method Begin(history: seq<Msg>, userText: string, ghost moves: nat -> Move, ghost faults: nat -> Fault)
        returns (messages: seq<Msg>, pending: seq<Msg>, writes: nat, i: nat)
      requires Valid() && !running
      modifies this
      ensures Going(history, userText, moves, faults, 0, messages, pending, 0, RunResult([], "", 0, 0, 0, true, None))
      ensures writes == 0 && i == 0 && takenBefore == old(taken)
      ensures base == (if log == null then [] else log.entries)
      ensures wasIntact == (if log == null then false else log.Intact())
    {
      SetRunning(true);
      trace := Trace([], [], []);
      takenBefore := taken;
      base := if log == null then [] else log.entries;
      wasIntact := if log == null then false else log.Intact();
      var userMsg := Prompt(userText);
      messages, pending := history + [userMsg], [userMsg];
      writes, i := 0, 0;
      assert base + EntriesFor([]) == base;
      assert history + ([userMsg] + Produced(moves, 0)) == messages;
      assert history + (Flatten([]) + pending) == messages;
      assert taken + [] == taken;
    }

    /** One iteration: stop for a cancelled context or a failed model, else step; stop on an answer. */
    method Iterate(history: seq<Msg>, ghost userText: string, moves: nat -> Move, faults: nat -> Fault,
                   i: nat, messages: seq<Msg>, pending: seq<Msg>, writes: nat, sofar: RunResult)
        returns (messages': seq<Msg>, pending': seq<Msg>, writes': nat, res: RunResult, done: bool)
      requires log != null ==> Lawful(log.codec)
      requires i < maxIterations && Going(history, userText, moves, faults, i, messages, pending, writes, sofar)
      modifies this`trace, this`running, this`queued, this`taken, log
      ensures !done ==> Going(history, userText, moves, faults, i + 1, messages', pending', writes', res)
      ensures done ==> Finished(history, userText, moves, faults, res)
    {
      messages', pending', writes' := messages, pending, writes;
      if moves(i).cancelled.Some? {
        res := Stop(history, userText, moves, faults, i, messages, pending, writes, sofar, moves(i).cancelled);
        done := true;
        return;
      }
      var reply := moves(i).reply;
      if reply.Fails? {
        res := Stop(history, userText, moves, faults, i, messages, pending, writes, sofar, Some(reply.err));
        done := true;
        return;
      }
      messages', pending', writes', res, done := Advance(history, userText, moves, faults, i, messages, pending, writes, sofar);
    }

    /** Stop a run that is still going, for the reason its ending gives. */
    method Stop(ghost history: seq<Msg>, ghost userText: string, moves: nat -> Move, faults: nat -> Fault,
                i: nat, messages: seq<Msg>, pending: seq<Msg>, writes: nat, sofar: RunResult, err: Option<string>)
        returns (res: RunResult)
      requires log != null ==> Lawful(log.codec)
      requires Going(history, userText, moves, faults, i, messages, pending, writes, sofar)
      requires i >= maxIterations || moves(i).cancelled.Some? || moves(i).reply.Fails?
      requires err == if i >= maxIterations then None
                      else if moves(i).cancelled.Some? then moves(i).cancelled else Some(moves(i).reply.err)
      modifies this`trace, this`running, this`queued, this`taken, log
      ensures Finished(history, userText, moves, faults, res)
    {
      hide Produced, Closing, Kept, Flatten, Accepted, Delivered, LastText, NoneTorn;
      Interfere(moves(i).steers);
      res := Interrupted(sofar, history, messages, pending, faults, writes, err);
      var ms := [Prompt(userText)] + Produced(moves, i);
      assert history + ms + Closing(history + ms) == history + (ms + Closing(history + ms));
    }

    /** The model replied: record the step, and stop if there is nothing it has not seen. */
    method Advance(ghost history: seq<Msg>, ghost userText: string, moves: nat -> Move, faults: nat -> Fault,
                   i: nat, messages: seq<Msg>, pending: seq<Msg>, writes: nat, sofar: RunResult)
        returns (messages': seq<Msg>, pending': seq<Msg>, writes': nat, res: RunResult, done: bool)
      requires log != null ==> Lawful(log.codec)
      requires i < maxIterations && Going(history, userText, moves, faults, i, messages, pending, writes, sofar)
      requires moves(i).cancelled.None? && moves(i).reply.Says?
      modifies this`trace, this`running, this`queued, this`taken, log
      ensures !done ==> Going(history, userText, moves, faults, i + 1, messages', pending', writes', res)
      ensures done ==> Finished(history, userText, moves, faults, res)
    {
      hide Recorded, Chunk, Uses, Accepted;
      var steering, step;
      messages', steering, step, writes', res := Recording(history, userText, moves, faults, i, messages, pending, writes, sofar);
      pending' := [];
      done := |steering| == 0 && step.toolCalls == 0;
      if done {
        res := Conclude(history, userText, moves, faults, i + 1, messages', writes', res);
      }
    }

    /** A step whose output is recorded everywhere it belongs. */
    method Recording(ghost history: seq<Msg>, ghost userText: string, moves: nat -> Move, faults: nat -> Fault,
                     i: nat, messages: seq<Msg>, pending: seq<Msg>, writes: nat, sofar: RunResult)
        returns (messages': seq<Msg>, steering: seq<string>, step: StepResult, writes': nat, res: RunResult)
      requires log != null ==> Lawful(log.codec)
      requires Recorded(history, userText, moves, faults, i, messages, pending, writes, sofar)
      requires moves(i).reply.Says?
      modifies this`trace, this`queued, this`taken, log
      ensures Recorded(history, userText, moves, faults, i + 1, messages', [], writes', res)
      ensures steering == Accepted(moves(i).steers) && step.toolCalls == |Uses(moves(i).reply.content)|
    {
      hide Chunk, Closing, Kept, Flatten, Uses, JoinedText, Accepted, NoneTorn;
      Interfere(moves(i).steers);
      messages', steering, step, writes' := RunStep(history, messages, pending, moves(i), faults, writes);
      StepGrows(history, userText, moves, i, messages);
      res := sofar.(steps := sofar.steps + 1, steered := sofar.steered + |steering|);
      if step.text != "" {
        res := res.(finalText := step.text);
      }
      if step.compacted {
        res := res.(compactions := res.compactions + 1);
      }
    }

    /** The model answered and has seen everything: what is steered in from here on is dropped. */
    method Conclude(ghost history: seq<Msg>, ghost userText: string, moves: nat -> Move, ghost faults: nat -> Fault,
                    n: nat, messages: seq<Msg>, ghost writes: nat, sofar: RunResult)
        returns (res: RunResult)
      requires Recorded(history, userText, moves, faults, n, messages, [], writes, sofar)
      requires End(moves, maxIterations, 0) == Ending(n, Answered)
      modifies this`trace, this`running, this`queued, this`taken
      ensures Finished(history, userText, moves, faults, res)
    {
      hide Produced, Closing, Kept, Flatten, Accepted, Delivered, LastText, NoneTorn, End;
      Interfere(moves(n).steers);
      trace := trace.(dropped := queued);
      res := sofar.(messages := messages, interrupted := false, err := None);
      SetRunning(false);
    }

    lemma StepGrows(history: seq<Msg>, userText: string, moves: nat -> Move, i: nat, messages: seq<Msg>)
      requires messages == history + ([Prompt(userText)] + Produced(moves, i))
      ensures messages + Chunk(moves(i)) == history + ([Prompt(userText)] + Produced(moves, i + 1))
    {
      assert messages + Chunk(moves(i)) == history + ([Prompt(userText)] + (Produced(moves, i) + Chunk(moves(i))));
    }

    /** The way out of an interrupted run. */
    method Interrupted(sofar: RunResult, ghost history: seq<Msg>, messages: seq<Msg>, pending: seq<Msg>,
                       faults: nat -> Fault, writes: nat, err: Option<string>) returns (res: RunResult)
      requires Valid() && Logged(faults) && writes == |trace.checkpoints|
      requires log != null ==> Lawful(log.codec)
      requires Balanced(history, messages, pending)
      modifies this`trace, this`running, this`queued, log
      ensures Valid() && !running && Logged(faults)
      ensures res == sofar.(messages := messages + Closing(messages), interrupted := true, err := err)
      ensures trace.delivered == old(trace).delivered && trace.dropped == old(queued)
      ensures Balanced(history, res.messages, [])
      ensures log != null ==> trace.checkpoints == old(trace).checkpoints + NonEmpty(pending + Closing(messages))
    {
      hide Kept, EntriesFor, Closing, NoneTorn, NonEmpty, Flatten;
      ghost var flat := Flatten(trace.checkpoints);
      var out := CloseRun(messages, pending, faults, writes);
      StaysBalanced(history, flat, pending, Closing(messages));
      trace := trace.(dropped := queued);
      SetRunning(false);
      res := sofar.(messages := out, interrupted := true, err := err);
    }
  }
}
