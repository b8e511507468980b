/** What one harness run makes of a conversation. */
module RunLoop {
  /*
   It is a function of what the outside world does: for every iteration, the texts steered in since
   the last drain, whether the context was cancelled, and how the model call ended.
   */

  import opened Prelude
  import opened Transcripts
  import opened Engines

  datatype Reply = Fails(err: string) | Says(content: seq<Block>, tools: Toolbox)

  datatype Move = Move(steers: seq<string>, cancelled: Option<string>, reply: Reply)

  datatype Exit = Cancelled(err: string) | ModelFailed(err: string) | Answered | Exhausted

  /** How a run ends: after how many steps, and why. */
  datatype Ending = Ending(steps: nat, exit: Exit)

  const INTERRUPTED_NOTE := Msg(Assistant, [Text("[This turn was interrupted before I produced a reply.]", false)])

  /** Steering texts a running harness takes: the empty one is refused. */
  function Accepted(steers: seq<string>): seq<string> {
    if steers == [] then []
    else Accepted(steers[..|steers| - 1]) + (if steers[|steers| - 1] == "" then [] else [steers[|steers| - 1]])
  }

  function TextBlocks(texts: seq<string>): seq<Block> {
    seq(|texts|, i requires 0 <= i < |texts| => Text(texts[i], false))
  }

  /** Steering joins the user turn a step ends with, or follows it as a new one. */
  function Inject(stepMsgs: seq<Msg>, steering: seq<string>): seq<Msg> {
    var n := |stepMsgs|;
    if n > 0 && stepMsgs[n - 1].role.User? then
      stepMsgs[n - 1 := Msg(User, stepMsgs[n - 1].content + TextBlocks(steering))]
    else
      stepMsgs + [Msg(User, TextBlocks(steering))]
  }

  /** What an iteration adds to the conversation. */
  function Chunk(m: Move): seq<Msg> {
    match m.reply
    case Fails(_) => []
    case Says(content, tools) =>
      if Accepted(m.steers) == [] then StepMessages(tools, content)
      else Inject(StepMessages(tools, content), Accepted(m.steers))
  }

  /** The run goes on after this iteration: there is something the model has not seen. */
  predicate Continues(m: Move) {
    m.cancelled.None? && m.reply.Says? && (Accepted(m.steers) != [] || Uses(m.reply.content) != [])
  }

  function End(moves: nat -> Move, max: int, i: nat): (e: Ending)
    ensures e.exit.Answered? ==> 0 < e.steps <= max
    decreases max - i
  {
    if i >= max then Ending(i, Exhausted)
    else if moves(i).cancelled.Some? then Ending(i, Cancelled(moves(i).cancelled.value))
    else if moves(i).reply.Fails? then Ending(i, ModelFailed(moves(i).reply.err))
    else if Continues(moves(i)) then End(moves, max, i + 1)
    else Ending(i + 1, Answered)
  }

  function Produced(moves: nat -> Move, n: nat): seq<Msg> {
    if n == 0 then [] else Produced(moves, n - 1) + Chunk(moves(n - 1))
  }

  function Prompt(text: string): Msg {
    Msg(User, [Text(text, false)])
  }

  /** close: a transcript left on a user turn gets the note. */
  function Closing(ms: seq<Msg>): seq<Msg> {
    if |ms| > 0 && ms[|ms| - 1].role.User? then [INTERRUPTED_NOTE] else []
  }

  /** Everything a run adds to its history. */
  function Added(history: seq<Msg>, prompt: string, moves: nat -> Move, max: int): seq<Msg> {
    var e := End(moves, max, 0);
    var ms := [Prompt(prompt)] + Produced(moves, e.steps);
    if e.exit.Answered? then ms else ms + Closing(history + ms)
  }

  function RunMessages(history: seq<Msg>, prompt: string, moves: nat -> Move, max: int): seq<Msg> {
    history + Added(history, prompt, moves, max)
  }

  /** What the first n steps have to record, a step at a time: the prompt goes with the first. */
  function StepPieces(prompt: string, moves: nat -> Move, n: nat): (pieces: seq<seq<Msg>>)
    ensures |pieces| == n
  {
    if n == 0 then []
    else StepPieces(prompt, moves, n - 1) + [(if n == 1 then [Prompt(prompt)] else []) + Chunk(moves(n - 1))]
  }

  /** What is still to be recorded when a run is cut short. */
  function LastPiece(history: seq<Msg>, prompt: string, moves: nat -> Move, n: nat): seq<Msg> {
    (if n == 0 then [Prompt(prompt)] else []) + Closing(history + ([Prompt(prompt)] + Produced(moves, n)))
  }

  function NonEmpty(piece: seq<Msg>): seq<seq<Msg>> {
    if piece == [] then [] else [piece]
  }

  /** A run's checkpoints. */
  function Pieces(history: seq<Msg>, prompt: string, moves: nat -> Move, max: int): seq<seq<Msg>> {
    var e := End(moves, max, 0);
    StepPieces(prompt, moves, e.steps) + (if e.exit.Answered? then [] else NonEmpty(LastPiece(history, prompt, moves, e.steps)))
  }

  /** The steering texts delivered in the first n steps. */
  function Delivered(moves: nat -> Move, n: nat): seq<string> {
    if n == 0 then [] else Delivered(moves, n - 1) + Accepted(moves(n - 1).steers)
  }

  // ----- how runs end -------------------------------------------------------

  /** Every step before the last one continued; the ending says what stopped the run. */
  lemma {:induction false} EndFacts(moves: nat -> Move, max: int, i: nat)
    ensures var e := End(moves, max, i);
            && i <= e.steps
            && (forall k :: i <= k < e.steps - 1 ==> Continues(moves(k)))
            && match e.exit
               case Answered =>
                 && i < e.steps <= max
                 && moves(e.steps - 1).cancelled.None? && moves(e.steps - 1).reply.Says?
                 && Accepted(moves(e.steps - 1).steers) == [] && Uses(moves(e.steps - 1).reply.content) == []
               case Cancelled(err) =>
                 e.steps < max && (e.steps > i ==> Continues(moves(e.steps - 1))) && moves(e.steps).cancelled == Some(err)
               case ModelFailed(err) =>
                 && e.steps < max && (e.steps > i ==> Continues(moves(e.steps - 1)))
                 && moves(e.steps).cancelled.None? && moves(e.steps).reply == Fails(err)
               case Exhausted =>
                 e.steps >= max && (e.steps > i ==> Continues(moves(e.steps - 1)))
    decreases max - i
  {
    if i < max && Continues(moves(i)) {
      EndFacts(moves, max, i + 1);
    }
  }

  // ----- the transcript stays replayable ------------------------------------

  lemma ChunkContinues(ms: seq<Msg>, m: Move)
    requires AwaitsModel(ms) && Continues(m)
    ensures AwaitsModel(ms + Chunk(m))
  {
    var content, tools := m.reply.content, m.reply.tools;
    var texts := Accepted(m.steers);
    ResultsAnswer(tools, content);
    if Uses(content) == [] {
      assert Chunk(m) == [Msg(Assistant, content), Msg(User, TextBlocks(texts))];
      AnsweredNext(ms, content, TextBlocks(texts));
    } else if texts == [] {
      AnsweredNext(ms, content, Results(tools, content));
    } else {
      assert Chunk(m) == [Msg(Assistant, content), Msg(User, Results(tools, content) + TextBlocks(texts))];
      AnsweredNext(ms, content, Results(tools, content) + TextBlocks(texts));
    }
  }

  lemma {:induction false} ProducedContinues(ms: seq<Msg>, moves: nat -> Move, n: nat)
    requires AwaitsModel(ms) && forall k :: 0 <= k < n ==> Continues(moves(k))
    ensures AwaitsModel(ms + Produced(moves, n))
  {
    hide AwaitsModel, Chunk, Continues;
    if n == 0 {
      assert ms + [] == ms;
    } else {
      ProducedContinues(ms, moves, n - 1);
      assert Continues(moves(n - 1));
      ChunkContinues(ms + Produced(moves, n - 1), moves(n - 1));
      assert ms + Produced(moves, n) == ms + Produced(moves, n - 1) + Chunk(moves(n - 1));
    }
  }

  lemma AnsweredIsReplayable(start: seq<Msg>, moves: nat -> Move, n: nat)
    requires AwaitsModel(start + Produced(moves, n))
    requires moves(n).reply.Says? && Accepted(moves(n).steers) == [] && Uses(moves(n).reply.content) == []
    ensures Replayable(start + Produced(moves, n + 1))
  {
    hide AwaitsModel, Replayable;
    var last := moves(n).reply.content;
    RepliedNext(start + Produced(moves, n), last);
    assert Chunk(moves(n)) == [Msg(Assistant, last)];
    assert start + Produced(moves, n + 1) == start + Produced(moves, n) + [Msg(Assistant, last)];
  }

  lemma ClosedIsReplayable(ms: seq<Msg>)
    requires AwaitsModel(ms)
    ensures Closing(ms) == [INTERRUPTED_NOTE] && Replayable(ms + Closing(ms))
  {
    RepliedNext(ms, INTERRUPTED_NOTE.content);
  }

  /**
   However a run ends, a replayable history stays replayable: roles alternate from the
   user's first word, every tool call is answered at once and in order, ahead of steering,
   and the model has the last word.
   */
  lemma RunIsReplayable(history: seq<Msg>, prompt: string, moves: nat -> Move, max: int)
    requires Replayable(history)
    ensures Replayable(RunMessages(history, prompt, moves, max))
  {
    hide AwaitsModel, Replayable, Chunk, Closing, Produced, End;
    var e := End(moves, max, 0);
    EndFacts(moves, max, 0);
    var start := history + [Prompt(prompt)];
    AskedNext(history, Prompt(prompt).content);
    var n := if e.exit.Answered? then e.steps - 1 else e.steps;
    ProducedContinues(start, moves, n);
    assert history + ([Prompt(prompt)] + Produced(moves, e.steps)) == start + Produced(moves, e.steps);
    if e.exit.Answered? {
      AnsweredIsReplayable(start, moves, n);
    } else {
      var ms := start + Produced(moves, n);
      ClosedIsReplayable(ms);
      assert RunMessages(history, prompt, moves, max) == ms + Closing(ms);
    }
  }

  datatype Turn = Turn(prompt: string, moves: nat -> Move, max: int)

  /** Any number of runs, each picking up where the last one left the conversation. */
  function Conversation(turns: seq<Turn>): seq<Msg> {
    if turns == [] then []
    else
      var last := turns[|turns| - 1];
      RunMessages(Conversation(turns[..|turns| - 1]), last.prompt, last.moves, last.max)
  }

  lemma {:induction false} ConversationIsReplayable(turns: seq<Turn>)
    ensures Replayable(Conversation(turns))
  {
    if turns != [] {
      var n := |turns| - 1;
      ConversationIsReplayable(turns[..n]);
      RunIsReplayable(Conversation(turns[..n]), turns[n].prompt, turns[n].moves, turns[n].max);
    }
  }

  // ----- steering is conserved ----------------------------------------------

  lemma {:induction false} TextsOfBlocks(texts: seq<string>)
    ensures TextsOf(TextBlocks(texts)) == texts
  {
    if texts != [] {
      assert TextBlocks(texts)[1..] == TextBlocks(texts[1..]);
      TextsOfBlocks(texts[1..]);
      assert texts == [texts[0]] + texts[1..];
    }
  }

  lemma PairTexts(a: Msg, b: Msg)
    requires a.role.Assistant? && b.role.User?
    ensures UserTexts([a, b]) == TextsOf(b.content) && UserTexts([a]) == []
  {
    assert [a, b][..1] == [a] && [a][..0] == [];
    assert UserTexts([a]) == UserTexts([]) + [];
    assert UserTexts([a, b]) == [] + TextsOf(b.content);
  }

  /** A step's user turn says exactly what was steered in. */
  lemma ChunkTexts(m: Move)
    requires m.reply.Says?
    ensures UserTexts(Chunk(m)) == Accepted(m.steers)
  {
    var content, tools := m.reply.content, m.reply.tools;
    var texts := Accepted(m.steers);
    ResultsAnswer(tools, content);
    TextsOfBlocks(texts);
    TextsConcat(Results(tools, content), TextBlocks(texts));
    var joined := Results(tools, content) + TextBlocks(texts);
    assert [] + texts == texts;
    if Uses(content) == [] {
      PairTexts(Msg(Assistant, content), Msg(User, TextBlocks(texts)));
      assert texts != [] ==> Chunk(m) == [Msg(Assistant, content), Msg(User, TextBlocks(texts))];
    } else if texts == [] {
      PairTexts(Msg(Assistant, content), Msg(User, Results(tools, content)));
    } else {
      PairTexts(Msg(Assistant, content), Msg(User, joined));
      assert Chunk(m) == [Msg(Assistant, content), Msg(User, joined)];
    }
  }

  lemma {:induction false} ProducedTexts(moves: nat -> Move, n: nat)
    requires forall k :: 0 <= k < n ==> moves(k).reply.Says?
    ensures UserTexts(Produced(moves, n)) == Delivered(moves, n)
  {
    hide Chunk, UserTexts, Accepted;
    if n == 0 {
      NothingSaid();
    } else {
      ProducedTexts(moves, n - 1);
      assert moves(n - 1).reply.Says?;
      ChunkTexts(moves(n - 1));
      UserTextsConcat(Produced(moves, n - 1), Chunk(moves(n - 1)));
    }
  }

  lemma NothingSaid()
    ensures UserTexts([]) == []
  {
  }

  lemma StepsSaid(moves: nat -> Move, max: int)
    ensures forall k :: 0 <= k < End(moves, max, 0).steps ==> moves(k).reply.Says?
  {
    EndFacts(moves, max, 0);
    var e := End(moves, max, 0);
    forall k | 0 <= k < e.steps
      ensures moves(k).reply.Says?
    {
      if k < e.steps - 1 {
        assert Continues(moves(k));
      }
    }
  }

  /**
   Read back from the transcript: after the prompt, what the user said is what was
   steered in and delivered, each text once and in order. And after an answered run the
   model spoke last, so nothing delivered goes unanswered.
   */
  lemma SteeringIsInTheTranscript(history: seq<Msg>, prompt: string, moves: nat -> Move, max: int)
    ensures var e := End(moves, max, 0);
            var added := Added(history, prompt, moves, max);
            && |added| > 0 && added[0] == Prompt(prompt)
            && UserTexts(added[1..]) == Delivered(moves, e.steps)
            && (e.exit.Answered? ==> added[|added| - 1].role.Assistant? && |added| > 1)
  {
    hide UserTexts, Uses, Accepted, End, Delivered;
    var e := End(moves, max, 0);
    EndFacts(moves, max, 0);
    StepsSaid(moves, max);
    ProducedTexts(moves, e.steps);
    var added := Added(history, prompt, moves, max);
    var produced := Produced(moves, e.steps);
    if e.exit.Answered? {
      var content := moves(e.steps - 1).reply.content;
      assert Chunk(moves(e.steps - 1)) == [Msg(Assistant, content)];
      assert added[1..] == produced && produced[|produced| - 1] == Msg(Assistant, content);
    } else {
      var note := Closing(history + ([Prompt(prompt)] + produced));
      assert added[1..] == produced + note;
      UserTextsConcat(produced, note);
      NoteSaysNothing();
      NothingSaid();
      assert UserTexts(note) == [];
      assert Delivered(moves, e.steps) + [] == Delivered(moves, e.steps);
    }
  }

  lemma NoteSaysNothing()
    ensures UserTexts([INTERRUPTED_NOTE]) == []
  {
    assert [INTERRUPTED_NOTE][..0] == [];
  }
}
