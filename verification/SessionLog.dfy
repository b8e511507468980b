/** The append-only conversation log: entries in memory, one JSON line each in a file. */
module SessionLogs {
  /*
   The file is a byte sequence. A write may fail before any byte of an entry, or after some
   of them; the entry codec is any function whose lines are newline-free and decode back.
   */

  import opened Prelude
  import opened Bytes
  import opened Transcripts

  /** One record; only records carrying a message are conversation. */
  datatype Entry = Entry(message: Option<Msg>)

  datatype Codec = Codec(enc: Msg -> seq<byte>, dec: seq<byte> -> Option<Entry>)

  ghost predicate Lawful(codec: Codec) {
    forall m :: NoNewline(codec.enc(m)) && codec.enc(m) != [] && codec.dec(codec.enc(m)) == Some(Entry(Some(m)))
  }

  /** The scanner's buffer: a longer line makes Open fail. */
  const MAX_LINE := 16 * 1024 * 1024

  datatype OpenResult = Opened(entries: seq<Entry>) | TooLong

  /** The records of the lines that can be read; unreadable ones are skipped. */
  function Decoded(codec: Codec, lines: seq<seq<byte>>): seq<Entry> {
    if lines == [] then []
    else
      Decoded(codec, lines[..|lines| - 1])
      + (match codec.dec(lines[|lines| - 1]) case Some(e) => [e] case None => [])
  }

  predicate Scannable(lines: seq<seq<byte>>) {
    forall i :: 0 <= i < |lines| ==> |lines[i]| < MAX_LINE
  }

  /** What reading the file back gives. */
  function Reopened(codec: Codec, file: seq<byte>): OpenResult {
    if Scannable(Lines(file)) then Opened(Decoded(codec, Lines(file))) else TooLong
  }

  function MessagesOf(entries: seq<Entry>): seq<Msg> {
    if entries == [] then []
    else MessagesOf(entries[..|entries| - 1])
         + (match entries[|entries| - 1].message case Some(m) => [m] case None => [])
  }

  function EntriesFor(msgs: seq<Msg>): seq<Entry> {
    seq(|msgs|, i requires 0 <= i < |msgs| => Entry(Some(msgs[i])))
  }

  /** The bytes of whole lines. */
  function Written(codec: Codec, msgs: seq<Msg>): seq<byte> {
    if msgs == [] then []
    else Written(codec, msgs[..|msgs| - 1]) + codec.enc(msgs[|msgs| - 1]) + [NL]
  }

  /** The unfinished line at the end of a file, empty when the last line is complete. */
  function Fragment(file: seq<byte>): seq<byte> {
    Split(file)[|Split(file)| - 1]
  }

  /** The complete lines of a file. */
  function Complete(file: seq<byte>): seq<seq<byte>> {
    Split(file)[..|Split(file)| - 1]
  }

  // ----- reading back what was appended -------------------------------------

  /**
   Appending one message after whatever the file ends with: it is read back exactly when
   the unfinished line in front of it and its own line still decode to it together.
   */
  lemma AppendedLine(codec: Codec, file: seq<byte>, m: Msg)
    requires NoNewline(codec.enc(m))
    ensures var file' := file + codec.enc(m) + [NL];
            && Fragment(file') == [] && Complete(file') == Complete(file) + [Fragment(file) + codec.enc(m)]
            && Lines(file') == Complete(file')
            && (Decoded(codec, Lines(file')) == Decoded(codec, Complete(file)) + [Entry(Some(m))]
                <==> codec.dec(Fragment(file) + codec.enc(m)) == Some(Entry(Some(m))))
  {
    SplitAppendLine(file, codec.enc(m));
    var parts := Split(file);
    var file' := file + codec.enc(m) + [NL];
    assert Split(file')[..|parts|] == Complete(file) + [Fragment(file) + codec.enc(m)];
    assert Lines(file')[..|parts| - 1] == Complete(file);
    DecodedSnoc(codec, Complete(file), Fragment(file) + codec.enc(m), Entry(Some(m)));
  }

  lemma DecodedSnoc(codec: Codec, lines: seq<seq<byte>>, line: seq<byte>, e: Entry)
    ensures Decoded(codec, lines + [line]) == Decoded(codec, lines) + [e] <==> codec.dec(line) == Some(e)
    ensures codec.dec(line) == None ==> Decoded(codec, lines + [line]) == Decoded(codec, lines)
  {
    var d := Decoded(codec, lines);
    assert (lines + [line])[..|lines|] == lines;
    assert (d + [e])[|d|] == e;
    match codec.dec(line)
    case Some(e') => assert (d + [e'])[|d|] == e';
    case None => assert |d + []| == |d|;
  }

  /** Whole lines after a complete file are read back as they were written. */
  lemma {:induction false} AppendedLines(codec: Codec, file: seq<byte>, msgs: seq<Msg>)
    requires Lawful(codec) && Fragment(file) == []
    ensures Fragment(file + Written(codec, msgs)) == []
    ensures Decoded(codec, Complete(file + Written(codec, msgs))) == Decoded(codec, Complete(file)) + EntriesFor(msgs)
  {
    if msgs == [] {
      assert file + Written(codec, msgs) == file;
    } else {
      var n := |msgs| - 1;
      AppendedLines(codec, file, msgs[..n]);
      var before := file + Written(codec, msgs[..n]);
      assert file + Written(codec, msgs) == before + codec.enc(msgs[n]) + [NL];
      assert EntriesFor(msgs) == EntriesFor(msgs[..n]) + [Entry(Some(msgs[n]))];
      hide Fragment, Complete, Decoded, Written, EntriesFor;
      AppendedWhole(codec, before, msgs[n]);
    }
  }

  lemma AppendedWhole(codec: Codec, file: seq<byte>, m: Msg)
    requires Lawful(codec) && Fragment(file) == []
    ensures var file' := file + codec.enc(m) + [NL];
            && Fragment(file') == []
            && Decoded(codec, Complete(file')) == Decoded(codec, Complete(file)) + [Entry(Some(m))]
  {
    hide Split, Decoded, Complete, Fragment;
    assert [] + codec.enc(m) == codec.enc(m);
    AppendedLine(codec, file, m);
  }

  lemma {:induction false} MessagesConcat(entries: seq<Entry>, msgs: seq<Msg>)
    ensures MessagesOf(entries + EntriesFor(msgs)) == MessagesOf(entries) + msgs
  {
    if msgs == [] {
      assert entries + EntriesFor(msgs) == entries;
    } else {
      var n := |msgs| - 1;
      MessagesConcat(entries, msgs[..n]);
      assert (entries + EntriesFor(msgs))[..|entries| + n] == entries + EntriesFor(msgs[..n]);
      assert msgs == msgs[..n] + [msgs[n]];
    }
  }

  // ----- the log object ------------------------------------------------------

  /** How one Append goes wrong: entry k fails after `torn` of its bytes, or the final sync does. */
  datatype Fault = NoFault | FailsAt(k: nat, torn: nat) | SyncFails

  /** How many of n entries a fault lets through. */
  function Flushed(fault: Fault, n: nat): nat {
    match fault
    case FailsAt(k, _) => if k < n then k else n
    case _ => n
  }

  predicate Succeeds(fault: Fault, n: nat) {
    n == 0 || fault.NoFault? || (fault.FailsAt? && fault.k >= n)
  }

  /** The bytes a failing write leaves behind. */
  function Torn(codec: Codec, msgs: seq<Msg>, fault: Fault): seq<byte> {
    match fault
    case FailsAt(k, torn) =>
      if k < |msgs| && torn < |codec.enc(msgs[k])| + 1 then (codec.enc(msgs[k]) + [NL])[..torn] else []
    case _ => []
  }

  /**
   How a write ends: in full, unless an entry fails, which then leaves no more than a part of its
   line behind, or the final sync does; there is nothing to fail where there is nothing to write.
   */
  ghost predicate Lands(codec: Codec, msgs: seq<Msg>, fault: Fault, ok: bool, n: nat, tail: seq<byte>) {
    && n <= |msgs|
    && (n < |msgs| ==> fault.FailsAt? && fault.k == n && !ok && |tail| <= |codec.enc(msgs[n])| && tail <= codec.enc(msgs[n]))
    && (n < |msgs| && fault.FailsAt? && fault.torn <= |codec.enc(msgs[n])| ==> |tail| == fault.torn)
    && (n == |msgs| ==> tail == [] && (fault.FailsAt? ==> fault.k >= n) && (ok <==> !(fault.SyncFails? && msgs != [])))
  }

  lemma FaultLands(codec: Codec, msgs: seq<Msg>, fault: Fault)
    ensures Lands(codec, msgs, fault, Succeeds(fault, |msgs|), Flushed(fault, |msgs|), Torn(codec, msgs, fault))
  {
    var n := Flushed(fault, |msgs|);
    if n < |msgs| {
      var line := codec.enc(msgs[n]);
      assert fault.torn <= |line| ==> (line + [NL])[..fault.torn] == line[..fault.torn];
    }
  }

  class Session {
    const codec: Codec
    var entries: seq<Entry>
    var file: seq<byte>

    /** The file has no unfinished line and holds exactly the entries in memory. */
    ghost predicate Intact()
      reads this
    {
      Fragment(file) == [] && Decoded(codec, Complete(file)) == entries
    }

    constructor (codec: Codec, file: seq<byte>, entries: seq<Entry>)
      ensures this.codec == codec && this.file == file && this.entries == entries
    {
      this.codec, this.file, this.entries := codec, file, entries;
    }

    /** Open: a file that is not there reads as empty; a line too long for the scanner is an error. */
    static method Open(codec: Codec, file: seq<byte>) returns (s: Session?)
      ensures s == null <==> Reopened(codec, file) == TooLong
      ensures s != null ==> fresh(s) && s.codec == codec && s.file == file
      ensures s != null ==> Reopened(codec, file) == Opened(s.entries)
    {
      var lines := Lines(file);
      var entries := [];
      var i := 0;
      while i < |lines|
        invariant 0 <= i <= |lines|
        invariant Scannable(lines[..i])
        invariant entries == Decoded(codec, lines[..i])
      {
        if |lines[i]| >= MAX_LINE {
          return null;
        }
        assert lines[..i + 1][..i] == lines[..i];
        match codec.dec(lines[i]) {
          case Some(e) => entries := entries + [e];
          case None =>
        }
        i := i + 1;
      }
      assert lines[..i] == lines;
      s := new Session(codec, file, entries);
    }

    method Messages() returns (msgs: seq<Msg>)
      ensures msgs == MessagesOf(entries)
    {
      msgs := [];
      var i := 0;
      while i < |entries|
        invariant 0 <= i <= |entries|
        invariant msgs == MessagesOf(entries[..i])
      {
        assert entries[..i + 1][..i] == entries[..i];
        if entries[i].message.Some? {
          msgs := msgs + [entries[i].message.value];
        }
        i := i + 1;
      }
      assert entries[..i] == entries;
    }

    method Len() returns (n: nat)
      ensures n == |MessagesOf(entries)|
    {
      n := 0;
      var i := 0;
      while i < |entries|
        invariant 0 <= i <= |entries|
        invariant n == |MessagesOf(entries[..i])|
      {
        assert entries[..i + 1][..i] == entries[..i];
        if entries[i].message.Some? {
          n := n + 1;
        }
        i := i + 1;
      }
      assert entries[..i] == entries;
    }

    /**
     A failed write stops the messages after it; the ones before it stay, in the file and
     in memory. An intact log stays intact unless a line was torn.
     */
    method Append(msgs: seq<Msg>, fault: Fault) returns (ok: bool)
      requires Lawful(codec)
      modifies this
      ensures ok <==> Succeeds(fault, |msgs|)
      ensures entries == old(entries) + EntriesFor(msgs[..Flushed(fault, |msgs|)])
      ensures file == old(file) + Written(codec, msgs[..Flushed(fault, |msgs|)]) + Torn(codec, msgs, fault)
      ensures old(Intact()) && Torn(codec, msgs, fault) == [] ==> Intact()
      ensures exists n: nat, tail ::
                && Lands(codec, msgs, fault, ok, n, tail)
                && entries == old(entries) + EntriesFor(msgs[..n]) && file == old(file) + Written(codec, msgs[..n]) + tail
    {
      FaultLands(codec, msgs, fault);
      var i := 0;
      while i < |msgs|
        invariant 0 <= i <= Flushed(fault, |msgs|)
        invariant entries == old(entries) + EntriesFor(msgs[..i])
        invariant file == old(file) + Written(codec, msgs[..i])
      {
        if fault.FailsAt? && fault.k == i {
          var line := codec.enc(msgs[i]) + [NL];
          file := file + (if fault.torn < |line| then line[..fault.torn] else []);
          FlushedIsIntact(msgs[..i], old(file), old(entries));
          assert Torn(codec, msgs, fault) == [] ==> file == old(file) + Written(codec, msgs[..i]);
          return false;
        }
        assert msgs[..i + 1][..i] == msgs[..i];
        assert EntriesFor(msgs[..i + 1]) == EntriesFor(msgs[..i]) + [Entry(Some(msgs[i]))];
        assert file + (codec.enc(msgs[i]) + [NL]) == old(file) + (Written(codec, msgs[..i]) + codec.enc(msgs[i]) + [NL]);
        file := file + (codec.enc(msgs[i]) + [NL]);
        entries := entries + [Entry(Some(msgs[i]))];
        i := i + 1;
      }
      FlushedIsIntact(msgs[..i], old(file), old(entries));
      assert file == old(file) + Written(codec, msgs[..i]) + [];
      return |msgs| == 0 || !fault.SyncFails?;
    }

    lemma FlushedIsIntact(msgs: seq<Msg>, file0: seq<byte>, entries0: seq<Entry>)
      requires Lawful(codec)
      ensures Fragment(file0) == [] && Decoded(codec, Complete(file0)) == entries0 ==>
                && Fragment(file0 + Written(codec, msgs)) == []
                && Decoded(codec, Complete(file0 + Written(codec, msgs))) == entries0 + EntriesFor(msgs)
    {
      if Fragment(file0) == [] {
        AppendedLines(codec, file0, msgs);
      }
    }
  }

  /** Reopening an intact log gives the entries in memory, exactly when every line fits the scanner. */
  lemma IntactReopens(codec: Codec, file: seq<byte>, entries: seq<Entry>)
    requires Fragment(file) == [] && Decoded(codec, Complete(file)) == entries
    ensures Reopened(codec, file) == Opened(entries) <==>
            forall i :: 0 <= i < |Complete(file)| ==> |Complete(file)[i]| < 16_777_216
  {
    assert Lines(file) == Complete(file);
  }

  /** An instance: one message too long for the scanner is appended like any other, and no Open succeeds again. */
  lemma LongMessageLocksTheLog(codec: Codec, file: seq<byte>, m: Msg)
    requires Lawful(codec) && Fragment(file) == [] && |codec.enc(m)| >= MAX_LINE
    ensures var file' := file + codec.enc(m) + [NL];
            Fragment(file') == [] && Reopened(codec, file') == TooLong
  {
    var n := |Complete(file)|;
    hide Fragment, Complete, Decoded, Lines;
    AppendedLine(codec, file, m);
    assert [] + codec.enc(m) == codec.enc(m);
    var file' := file + codec.enc(m) + [NL];
    assert Lines(file')[n] == codec.enc(m);
  }

  /**
   A torn write costs a later message: the next Append succeeds and keeps its message in
   memory, but its line is glued to the fragment, and reading the file back skips both.
   */
  lemma TornWriteLosesTheNext(codec: Codec, file: seq<byte>, lost: Msg, torn: nat, next: Msg)
    requires Lawful(codec) && Fragment(file) == [] && 0 < torn <= |codec.enc(lost)|
    requires codec.dec(codec.enc(lost)[..torn] + codec.enc(next)) == None
    ensures Torn(codec, [lost], FailsAt(0, torn)) == codec.enc(lost)[..torn]
    ensures var file' := file + codec.enc(lost)[..torn] + codec.enc(next) + [NL];
            Decoded(codec, Lines(file')) == Decoded(codec, Complete(file))
  {
    var frag := codec.enc(lost)[..torn];
    assert (codec.enc(lost) + [NL])[..torn] == frag;
    hide Split, Complete, Fragment, Decoded, Lines;
    FragmentExtends(file, frag);
    AppendedLine(codec, file + frag, next);
    DecodedSnoc(codec, Complete(file), frag + codec.enc(next), Entry(None));
  }

  lemma FragmentExtends(file: seq<byte>, frag: seq<byte>)
    requires Fragment(file) == [] && NoNewline(frag)
    ensures Fragment(file + frag) == frag && Complete(file + frag) == Complete(file)
  {
    SplitExtend(file, frag);
    assert [] + frag == frag;
  }
}
