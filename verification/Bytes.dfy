/**
 Go strings as byte sequences, with strings.Split and strings.Join on newlines, and what the two do
 to each other's results.
 */
module Bytes {
  type byte = b: int | 0 <= b < 256

  const NL: byte := 10

  predicate NoNewline(s: seq<byte>) {
    forall i :: 0 <= i < |s| ==> s[i] != NL
  }

  /** strings.Split(s, "\n"): never empty. */
  function Split(s: seq<byte>): (parts: seq<seq<byte>>)
    ensures |parts| >= 1
  {
    if s == [] then [[]]
    else
      var parts := Split(s[..|s| - 1]);
      var last := s[|s| - 1];
      if last == NL then parts + [[]]
      else parts[|parts| - 1 := parts[|parts| - 1] + [last]]
  }

  /** strings.Join(parts, "\n"). */
  function Join(parts: seq<seq<byte>>): seq<byte> {
    if parts == [] then []
    else if |parts| == 1 then parts[0]
    else Join(parts[..|parts| - 1]) + [NL] + parts[|parts| - 1]
  }

  /** The lines of s: a trailing newline ends a line rather than starting an empty one. */
  function Lines(s: seq<byte>): seq<seq<byte>> {
    var parts := Split(s);
    if parts[|parts| - 1] == [] then parts[..|parts| - 1] else parts
  }

  predicate AllNoNewline(parts: seq<seq<byte>>) {
    forall i :: 0 <= i < |parts| ==> NoNewline(parts[i])
  }

  lemma {:induction false} SplitHasNoNewline(s: seq<byte>)
    ensures AllNoNewline(Split(s))
  {
    if s != [] {
      SplitHasNoNewline(s[..|s| - 1]);
    }
  }

  /** Adding newline-free bytes extends the last part. */
  lemma {:induction false} SplitExtend(s: seq<byte>, t: seq<byte>)
    requires NoNewline(t)
    ensures Split(s + t) == Split(s)[|Split(s)| - 1 := Split(s)[|Split(s)| - 1] + t]
  {
    var parts := Split(s);
    if t == [] {
      assert s + t == s && parts[|parts| - 1] + t == parts[|parts| - 1];
    } else {
      var n := |t| - 1;
      assert (s + t)[..|s + t| - 1] == s + t[..n] && (s + t)[|s + t| - 1] == t[n];
      SplitExtend(s, t[..n]);
      assert parts[|parts| - 1] + t[..n] + [t[n]] == parts[|parts| - 1] + t;
    }
  }

  /** Adding a newline-free line and its newline. */
  lemma SplitAppendLine(s: seq<byte>, line: seq<byte>)
    requires NoNewline(line)
    ensures Split(s + line + [NL]) == Split(s)[|Split(s)| - 1 := Split(s)[|Split(s)| - 1] + line] + [[]]
  {
    SplitExtend(s, line);
    assert (s + line + [NL])[..|s + line|] == s + line;
  }

  lemma {:induction false} JoinSplit(s: seq<byte>)
    ensures Join(Split(s)) == s
  {
    if s != [] {
      var n := |s| - 1;
      JoinSplit(s[..n]);
      var parts := Split(s[..n]);
      assert s == s[..n] + [s[n]];
      if s[n] == NL {
        assert Split(s)[..|parts|] == parts;
      } else {
        JoinExtend(parts, [s[n]]);
      }
    }
  }

  lemma JoinExtend(parts: seq<seq<byte>>, t: seq<byte>)
    requires parts != []
    ensures Join(parts[|parts| - 1 := parts[|parts| - 1] + t]) == Join(parts) + t
  {
    var n := |parts| - 1;
    if n > 0 {
      var parts' := parts[n := parts[n] + t];
      assert parts'[..n] == parts[..n];
      assert Join(parts[..n]) + [NL] + (parts[n] + t) == Join(parts[..n]) + [NL] + parts[n] + t;
    }
  }

  lemma {:induction false} SplitJoin(parts: seq<seq<byte>>)
    requires parts != [] && AllNoNewline(parts)
    ensures Split(Join(parts)) == parts
  {
    var n := |parts| - 1;
    if n == 0 {
      SplitExtend([], parts[0]);
      assert [] + parts[0] == parts[0];
      assert Split([])[0 := [] + parts[0]] == parts;
    } else {
      SplitJoin(parts[..n]);
      var s := Join(parts[..n]);
      SplitNewline(s);
      hide Split, Join;
      SplitExtend(s + [NL], parts[n]);
      assert [] + parts[n] == parts[n];
      assert (parts[..n] + [[]])[n := parts[n]] == parts;
      JoinSnoc(parts);
    }
  }

  lemma SplitNewline(s: seq<byte>)
    ensures Split(s + [NL]) == Split(s) + [[]]
  {
    var t := s + [NL];
    assert t[..|t| - 1] == s && t[|t| - 1] == NL;
  }

  lemma JoinSnoc(parts: seq<seq<byte>>)
    requires |parts| > 1
    ensures Join(parts) == Join(parts[..|parts| - 1]) + [NL] + parts[|parts| - 1]
  {
  }
}
