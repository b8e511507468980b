/** What is on disk after runs. */
module DurableConversation {
  /*
   After one run whose checkpoints may have failed, and after any number of runs whose checkpoints
   did not.
   */

  import opened Prelude
  import opened Transcripts
  import opened Engines
  import opened RunLoop
  import opened SessionLogs
  import opened Harnesses

  /** The checkpoints that reached the log, when each is written whole or not at all. */
  function Surviving(pieces: seq<seq<Msg>>, kept: nat -> bool): seq<Msg> {
    if pieces == [] then []
    else
      var k := |pieces| - 1;
      Surviving(pieces[..k], kept) + (if kept(k) then pieces[k] else [])
  }

  predicate NoneKept(n: nat, kept: nat -> bool) {
    forall k :: 0 <= k < n ==> !kept(k)
  }

  /** A run's checkpoints: the first asks, the last ends with the model's word, those between do neither. */
  lemma PiecesShape(history: seq<Msg>, prompt: string, moves: nat -> Move, max: int)
    requires Replayable(history)
    ensures var e := End(moves, max, 0);
            var n := if e.exit.Answered? then e.steps - 1 else e.steps;
            && Pieces(history, prompt, moves, max) == StepPieces(prompt, moves, n) + [FinalPiece(prompt, moves, max)]
            && (forall k :: 0 <= k < n ==> Continues(moves(k)))
  {
    hide AwaitsModel, Replayable, Chunk, Produced, End, Continues;
    var e := End(moves, max, 0);
    EndFacts(moves, max, 0);
    if !e.exit.Answered? {
      var start := history + [Prompt(prompt)];
      AskedNext(history, Prompt(prompt).content);
      ProducedContinues(start, moves, e.steps);
      assert history + ([Prompt(prompt)] + Produced(moves, e.steps)) == start + Produced(moves, e.steps);
      ClosedIsReplayable(start + Produced(moves, e.steps));
    }
  }

  /** The last checkpoint of a run on a replayable history. */
  function FinalPiece(prompt: string, moves: nat -> Move, max: int): seq<Msg> {
    var e := End(moves, max, 0);
    if e.exit.Answered? then (if e.steps == 1 then [Prompt(prompt)] else []) + Chunk(moves(e.steps - 1))
    else (if e.steps == 0 then [Prompt(prompt)] else []) + [INTERRUPTED_NOTE]
  }

  /** A step the run goes on after: the model's message, then the user's. */
  lemma ChunkEnds(m: Move)
    requires Continues(m)
    ensures Chunk(m) != [] && Chunk(m)[0].role.Assistant? && Chunk(m)[|Chunk(m)| - 1].role.User?
  {
    ResultsAnswer(m.reply.tools, m.reply.content);
  }

  lemma {:induction false} StepPieceIs(prompt: string, moves: nat -> Move, n: nat, k: nat)
    requires k < n
    ensures StepPieces(prompt, moves, n)[k] == (if k == 0 then [Prompt(prompt)] else []) + Chunk(moves(k))
    ensures StepPieces(prompt, moves, n)[..k] == StepPieces(prompt, moves, k)
  {
    hide Chunk;
    if k < n - 1 {
      StepPieceIs(prompt, moves, n - 1, k);
      assert StepPieces(prompt, moves, n)[..k] == StepPieces(prompt, moves, n - 1)[..k];
    } else {
      assert StepPieces(prompt, moves, n)[..k] == StepPieces(prompt, moves, k);
    }
  }

  // ----- when the log can still be replayed ---------------------------------

  lemma {:induction false} MiddleSurvives(history: seq<Msg>, prompt: string, moves: nat -> Move, n: nat, kept: nat -> bool)
    requires Replayable(history) && kept(0)
    requires forall k :: 0 <= k < n ==> Continues(moves(k))
    ensures n > 0 ==> AwaitsModel(history + Surviving(StepPieces(prompt, moves, n), kept))
  {
    hide AwaitsModel, Replayable, Chunk, Continues;
    if n > 0 {
      var k := n - 1;
      var before := Surviving(StepPieces(prompt, moves, k), kept);
      assert StepPieces(prompt, moves, n)[..k] == StepPieces(prompt, moves, k);
      assert Continues(moves(k));
      MiddleSurvives(history, prompt, moves, k, kept);
      if k == 0 {
        AskedNext(history, Prompt(prompt).content);
        ChunkContinues(history + [Prompt(prompt)], moves(0));
        assert history + ([] + ([Prompt(prompt)] + Chunk(moves(0)))) == history + [Prompt(prompt)] + Chunk(moves(0));
      } else if kept(k) {
        ChunkContinues(history + before, moves(k));
        assert history + (before + ([] + Chunk(moves(k)))) == history + before + Chunk(moves(k));
      } else {
        assert before + [] == before;
      }
    }
  }

  /** Whatever is added to a replayable history must begin with the user and end with the model. */
  lemma EndsMatter(history: seq<Msg>, more: seq<Msg>)
    requires Replayable(history) && Replayable(history + more) && more != []
    ensures more[0].role.User? && more[|more| - 1].role.Assistant?
  {
    var all := history + more;
    assert all[|history|] == more[0] && all[|all| - 1] == more[|more| - 1];
  }

  /** What survives begins with the first piece that does. */
  lemma {:induction false} SurvivingStarts(pieces: seq<seq<Msg>>, kept: nat -> bool)
    requires !kept(0) && !NoneKept(|pieces|, kept)
    requires forall k :: 0 < k < |pieces| ==> pieces[k] != [] && pieces[k][0].role.Assistant?
    ensures Surviving(pieces, kept) != [] && Surviving(pieces, kept)[0].role.Assistant?
  {
    var k := |pieces| - 1;
    if NoneKept(k, kept) {
      NothingSurvives(pieces[..k], kept);
    } else {
      SurvivingStarts(pieces[..k], kept);
    }
  }

  lemma {:induction false} NothingSurvives(pieces: seq<seq<Msg>>, kept: nat -> bool)
    requires NoneKept(|pieces|, kept)
    ensures Surviving(pieces, kept) == []
  {
    if pieces != [] {
      NothingSurvives(pieces[..|pieces| - 1], kept);
    }
  }

  lemma {:induction false} SurvivingEnds(pieces: seq<seq<Msg>>, kept: nat -> bool)
    requires !NoneKept(|pieces|, kept)
    requires forall k :: 0 <= k < |pieces| ==> pieces[k] != [] && pieces[k][|pieces[k]| - 1].role.User?
    ensures Surviving(pieces, kept) != [] && Surviving(pieces, kept)[|Surviving(pieces, kept)| - 1].role.User?
  {
    var k := |pieces| - 1;
    if kept(k) {
      assert (Surviving(pieces[..k], kept) + pieces[k])[|Surviving(pieces, kept)| - 1] == pieces[k][|pieces[k]| - 1];
    } else {
      SurvivingEnds(pieces[..k], kept);
      assert Surviving(pieces[..k], kept) + [] == Surviving(pieces[..k], kept);
    }
  }

  lemma FinalPieceFacts(prompt: string, moves: nat -> Move, max: int)
    ensures var e := End(moves, max, 0);
            var first := if e.exit.Answered? then e.steps == 1 else e.steps == 0;
            var final: seq<Msg> := FinalPiece(prompt, moves, max);
            && |final| == (if first then 2 else 1) && (first ==> final[0] == Prompt(prompt))
            && final[|final| - 1].role.Assistant? && Uses(final[|final| - 1].content) == []
  {
    hide End, Chunk, Uses, Accepted, Continues;
    EndFacts(moves, max, 0);
    NoteCallsNothing();
    var e := End(moves, max, 0);
    if e.exit.Answered? {
      AnsweredChunk(moves(e.steps - 1));
    }
  }

  lemma NoteCallsNothing()
    ensures Uses(INTERRUPTED_NOTE.content) == []
  {}

  lemma AnsweredChunk(m: Move)
    requires m.reply.Says? && Accepted(m.steers) == [] && Uses(m.reply.content) == []
    ensures Chunk(m) == [Msg(Assistant, m.reply.content)]
  {}

  lemma SurvivingSnoc(pieces: seq<seq<Msg>>, last: seq<Msg>, kept: nat -> bool)
    ensures Surviving(pieces + [last], kept) == Surviving(pieces, kept) + (if kept(|pieces|) then last else [])
  {
    assert (pieces + [last])[..|pieces|] == pieces;
  }

  /** Keeping the first checkpoint and the last is enough, whichever of those between are lost. */
  lemma EndsAreEnough(history: seq<Msg>, prompt: string, moves: nat -> Move, max: int, kept: nat -> bool)
    requires Replayable(history)
    requires var pieces := Pieces(history, prompt, moves, max); kept(0) && kept(|pieces| - 1)
    ensures Replayable(history + Surviving(Pieces(history, prompt, moves, max), kept))
  {
    hide AwaitsModel, Replayable, Chunk, End, Continues, Pieces, FinalPiece, Uses, StepPieces, Surviving;
    var e := End(moves, max, 0);
    var n := if e.exit.Answered? then e.steps - 1 else e.steps;
    assert e.exit.Answered? ==> e.steps > 0;
    var final := FinalPiece(prompt, moves, max);
    PiecesShape(history, prompt, moves, max);
    FinalPieceFacts(prompt, moves, max);
    MiddleSurvives(history, prompt, moves, n, kept);
    SurvivingSnoc(StepPieces(prompt, moves, n), final, kept);
    if n == 0 {
      NoSteps(prompt, moves);
    }
    TurnCompleted(history, prompt, Surviving(StepPieces(prompt, moves, n), kept), final, n == 0);
  }

  lemma TurnCompleted(history: seq<Msg>, prompt: string, before: seq<Msg>, final: seq<Msg>, whole: bool)
    requires Replayable(history) && |final| == (if whole then 2 else 1)
    requires final[|final| - 1].role.Assistant? && Uses(final[|final| - 1].content) == []
    requires if whole then before == [] && final[0] == Prompt(prompt) else AwaitsModel(history + before)
    ensures Replayable(history + (before + final))
  {
    hide AwaitsModel, Replayable, Uses;
    if whole {
      WholeTurn(history, prompt, final);
      assert before + final == final;
    } else {
      LastWord(history + before, final);
      assert history + (before + final) == history + before + final;
    }
  }

  lemma NoSteps(prompt: string, moves: nat -> Move)
    ensures StepPieces(prompt, moves, 0) == [] && forall kept :: Surviving([], kept) == []
  {}

  lemma LastWord(ms: seq<Msg>, final: seq<Msg>)
    requires AwaitsModel(ms) && |final| == 1 && final[0].role.Assistant? && Uses(final[0].content) == []
    ensures Replayable(ms + final)
  {
    hide AwaitsModel, Replayable;
    RepliedNext(ms, final[0].content);
    assert final == [Msg(Assistant, final[0].content)];
  }

  lemma WholeTurn(ms: seq<Msg>, prompt: string, final: seq<Msg>)
    requires Replayable(ms) && |final| == 2 && final[0] == Prompt(prompt)
    requires final[1].role.Assistant? && Uses(final[1].content) == []
    ensures Replayable(ms + final)
  {
    hide AwaitsModel, Replayable;
    AskedNext(ms, Prompt(prompt).content);
    LastWord(ms + [final[0]], final[1..]);
    assert ms + [final[0]] + final[1..] == ms + final;
  }

  lemma FirstIsNeeded(history: seq<Msg>, prompt: string, moves: nat -> Move, max: int, kept: nat -> bool)
    requires Replayable(history) && !kept(0)
    requires !NoneKept(|Pieces(history, prompt, moves, max)|, kept)
    ensures !Replayable(history + Surviving(Pieces(history, prompt, moves, max), kept))
  {
    hide AwaitsModel, Replayable, Chunk, End, Continues, Pieces, FinalPiece, NoneKept, Surviving;
    var e := End(moves, max, 0);
    var n := if e.exit.Answered? then e.steps - 1 else e.steps;
    PiecesShape(history, prompt, moves, max);
    FinalPieceFacts(prompt, moves, max);
    var pieces: seq<seq<Msg>> := Pieces(history, prompt, moves, max);
    forall k: nat | 0 < k < |pieces| ensures pieces[k] != [] && pieces[k][0].role.Assistant? {
      if k < n {
        assert Continues(moves(k));
        StepPieceIs(prompt, moves, n, k);
        ChunkEnds(moves(k));
        assert pieces[k] == [] + Chunk(moves(k));
      }
    }
    SurvivingStarts(pieces, kept);
    if Replayable(history + Surviving(pieces, kept)) {
      EndsMatter(history, Surviving(pieces, kept));
      assert false;
    }
  }

  lemma LastIsNeeded(history: seq<Msg>, prompt: string, moves: nat -> Move, max: int, kept: nat -> bool)
    requires Replayable(history)
    requires var n := |Pieces(history, prompt, moves, max)|; n > 0 && !kept(n - 1) && !NoneKept(n, kept)
    ensures !Replayable(history + Surviving(Pieces(history, prompt, moves, max), kept))
  {
    hide AwaitsModel, Replayable, Chunk, End, Continues, Pieces, FinalPiece, Surviving;
    var e := End(moves, max, 0);
    var n := if e.exit.Answered? then e.steps - 1 else e.steps;
    PiecesShape(history, prompt, moves, max);
    var steps: seq<seq<Msg>> := StepPieces(prompt, moves, n);
    SurvivingSnoc(steps, FinalPiece(prompt, moves, max), kept);
    forall k | 0 <= k < n ensures steps[k] != [] && steps[k][|steps[k]| - 1].role.User? {
      assert Continues(moves(k));
      StepPieceIs(prompt, moves, n, k);
      ChunkEnds(moves(k));
      var front := if k == 0 then [Prompt(prompt)] else [];
      assert (front + Chunk(moves(k)))[|front| + |Chunk(moves(k))| - 1] == Chunk(moves(k))[|Chunk(moves(k))| - 1];
    }
    SurvivingEnds(steps, kept);
    assert Surviving(steps, kept) + [] == Surviving(steps, kept);
    if Replayable(history + Surviving(steps, kept)) {
      EndsMatter(history, Surviving(steps, kept));
      assert false;
    }
  }

  /**
   When checkpoints fail whole, what is on disk can be replayed exactly when none of the run's
   were written, or both the first and the last were.
   */
  lemma ReplayableExactlyWhen(history: seq<Msg>, prompt: string, moves: nat -> Move, max: int, kept: nat -> bool)
    requires Replayable(history)
    ensures var n := |Pieces(history, prompt, moves, max)|;
            && n > 0
            && (Replayable(history + Surviving(Pieces(history, prompt, moves, max), kept))
                <==> NoneKept(n, kept) || (kept(0) && kept(n - 1)))
  {
    hide Replayable, Pieces, Surviving, NoneKept;
    PiecesShape(history, prompt, moves, max);
    var pieces: seq<seq<Msg>> := Pieces(history, prompt, moves, max);
    if NoneKept(|pieces|, kept) {
      NothingSurvives(pieces, kept);
      assert history + [] == history;
    } else if !kept(0) {
      FirstIsNeeded(history, prompt, moves, max, kept);
    } else if !kept(|pieces| - 1) {
      LastIsNeeded(history, prompt, moves, max, kept);
    } else {
      EndsAreEnough(history, prompt, moves, max, kept);
    }
  }

  /** A log whose appends fail whole holds what survives of the run's checkpoints. */
  lemma {:induction false} KeptIsSurviving(pieces: seq<seq<Msg>>, faults: nat -> Fault, kept: nat -> bool)
    requires forall k :: 0 <= k < |pieces| ==> Flushed(faults(k), |pieces[k]|) == if kept(k) then |pieces[k]| else 0
    ensures Kept(pieces, faults) == Surviving(pieces, kept)
  {
    if pieces != [] {
      var k := |pieces| - 1;
      KeptIsSurviving(pieces[..k], faults, kept);
      assert pieces[k][..|pieces[k]|] == pieces[k] && pieces[k][..0] == [];
    }
  }

  // ----- instances -----------------------------------------------------------

  /** A model that says nothing and calls no tools, steered once after its first reply. */
  function SteeredOnce(): nat -> Move {
    i => Move(if i == 0 then ["go on"] else [], None, Says([], Toolbox({}, _ => ToolOutcome("", None), out => out)))
  }

  lemma TwoCheckpoints(prompt: string)
    ensures |Pieces([], prompt, SteeredOnce(), 2)| == 2
  {
    var moves := SteeredOnce();
    assert Accepted(moves(0).steers) == ["go on"] by {
      assert ["go on"][..0] == [];
    }
    assert Continues(moves(0));
    assert End(moves, 2, 1) == Ending(2, Answered);
    assert End(moves, 2, 0) == Ending(2, Answered);
  }

  /** Losing the first of a run's two checkpoints, or the last, leaves a log that cannot be replayed. */
  lemma LostCheckpointBreaksTheLog(prompt: string, lost: nat, faults: nat -> Fault)
    requires lost < 2 && faults == (k => if k == lost then FailsAt(0, 0) else NoFault)
    ensures !Replayable(Kept(Pieces([], prompt, SteeredOnce(), 2), faults))
  {
    hide Replayable, Pieces, Kept, Surviving;
    var pieces: seq<seq<Msg>> := Pieces([], prompt, SteeredOnce(), 2);
    var kept: nat -> bool := k => k != lost;
    TwoCheckpoints(prompt);
    assert Replayable([]) by {
      NothingIsReplayable();
    }
    KeptIsSurviving(pieces, faults, kept);
    ReplayableExactlyWhen([], prompt, SteeredOnce(), 2, kept);
    assert [] + Surviving(pieces, kept) == Surviving(pieces, kept);
    assert kept(1 - lost);
  }

  lemma NothingIsReplayable()
    ensures Replayable([])
  {}

  // ----- runs that are recorded ---------------------------------------------

  ghost predicate Flawless(faults: nat -> Fault) {
    forall k: nat :: !faults(k).FailsAt?
  }

  lemma FlawlessKeepsAll(pieces: seq<seq<Msg>>, codec: Codec, faults: nat -> Fault)
    requires Flawless(faults)
    ensures Kept(pieces, faults) == Flatten(pieces) && NoneTorn(pieces, codec, faults)
  {
    AllKept(pieces, faults);
  }

  /**
   Any number of runs over one log, each starting from what the log holds: in the end the log
   holds the whole conversation, and reading the file back gives that very log unless some
   line is too long to be read.
   */
  method Converse(h: Harness, turns: seq<Turn>, faults: nat -> (nat -> Fault))
    requires h.Valid() && !h.running && h.log != null && Lawful(h.log.codec)
    requires h.log.entries == [] && h.log.Intact()
    requires forall k :: 0 <= k < |turns| ==> turns[k].max == h.maxIterations
    requires forall k: nat :: Flawless(faults(k))
    modifies h, h.log
    ensures MessagesOf(h.log.entries) == Conversation(turns) && Replayable(Conversation(turns))
    ensures Scannable(Complete(h.log.file)) <==> Reopened(h.log.codec, h.log.file) == Opened(h.log.entries)
  {
    hide Replayable, RunMessages;
    var i := 0;
    while i < |turns|
      invariant 0 <= i <= |turns|
      invariant h.Valid() && !h.running && h.log.Intact()
      invariant MessagesOf(h.log.entries) == Conversation(turns[..i])
    {
      var history := h.log.Messages();
      OneMoreTurn(turns, i);
      OneTurn(h, history, turns[i], faults(i));
      i := i + 1;
    }
    assert turns[..i] == turns;
    ConversationIsReplayable(turns);
    IntactReopens(h.log.codec, h.log.file, h.log.entries);
  }

  lemma OneMoreTurn(turns: seq<Turn>, i: nat)
    requires i < |turns|
    ensures Conversation(turns[..i + 1]) == RunMessages(Conversation(turns[..i]), turns[i].prompt, turns[i].moves, turns[i].max)
  {
    assert turns[..i + 1][..i] == turns[..i];
  }

  method OneTurn(h: Harness, history: seq<Msg>, turn: Turn, faults: nat -> Fault)
    requires h.Valid() && !h.running && h.log != null && Lawful(h.log.codec) && h.log.Intact()
    requires turn.max == h.maxIterations && Flawless(faults) && history == MessagesOf(h.log.entries)
    modifies h, h.log
    ensures h.Valid() && !h.running && h.log.Intact()
    ensures MessagesOf(h.log.entries) == RunMessages(history, turn.prompt, turn.moves, turn.max)
  {
    hide Flawless, Kept, NoneTorn, Flatten, Added, MessagesOf, EntriesFor, Pieces;
    ghost var before := h.log.entries;
    var res := h.Run(history, turn.prompt, turn.moves, faults);
    FlawlessKeepsAll(h.trace.checkpoints, h.log.codec, faults);
    MessagesConcat(before, Kept(h.trace.checkpoints, faults));
  }
}
