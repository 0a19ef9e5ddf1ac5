/**
 The line-buffering bridge from ffmpeg's stderr to the log (internal/ffmpeg/writer.go,
 zapWriter): bytes arrive in arbitrary pieces and leave as whole lines.
 */
module LineSplitter {
  import opened Frames
  import opened Sequences

  const NEWLINE: Byte := 10
  const CARRIAGE_RETURN: Byte := 13

  /** Position of the first newline, or -1. */
  function FirstNewline(s: Bytes): (i: int)
    ensures -1 <= i < |s|
  {
    if s == [] then -1
    else if s[0] == NEWLINE then 0
    else
      var i := FirstNewline(s[1..]);
      if i < 0 then -1 else i + 1
  }

  lemma {:induction false} FirstNewlineIsFirst(s: Bytes)
    ensures var i := FirstNewline(s);
            if i < 0 then 10 !in s else s[i] == 10 && 10 !in s[..i]
  {
    if s != [] && s[0] != NEWLINE {
      FirstNewlineIsFirst(s[1..]);
      assert s == [s[0]] + s[1..];
      var i := FirstNewline(s);
      if i >= 0 {
        assert s[..i] == [s[0]] + s[1..][..i - 1];
      }
    }
  }

  /** strings.TrimRight(s, "\r") */
  function TrimRight(s: Bytes): Bytes {
    if s != [] && s[|s| - 1] == CARRIAGE_RETURN then TrimRight(s[..|s| - 1]) else s
  }

  /** Trimming removes carriage returns only, and all of them, from the end. */
  lemma {:induction false} TrimRightTrims(s: Bytes)
    ensures var t := TrimRight(s);
            && t <= s && (t != [] ==> t[|t| - 1] != 13)
            && forall i :: |t| <= i < |s| ==> s[i] == 13
  {
    if s != [] && s[|s| - 1] == CARRIAGE_RETURN {
      TrimRightTrims(s[..|s| - 1]);
    }
  }

  // ----- Splitting a whole text at once -----

  /** The complete lines of a text, without their newlines. */
  function Lines(text: Bytes): seq<Bytes>
    decreases |text|
  {
    var i := FirstNewline(text);
    if i < 0 then [] else [text[..i]] + Lines(text[i + 1..])
  }

  /** The text after its last newline. */
  function Rest(text: Bytes): Bytes
    decreases |text|
  {
    var i := FirstNewline(text);
    if i < 0 then text else Rest(text[i + 1..])
  }

  /** Cutting off the first line. */
  lemma CutFirst(text: Bytes)
    ensures var i := FirstNewline(text);
            if i < 0 then Lines(text) == [] && Rest(text) == text
            else Lines(text) == [text[..i]] + Lines(text[i + 1..]) && Rest(text) == Rest(text[i + 1..])
  {
  }

  function Unsplit(lines: seq<Bytes>, rest: Bytes): Bytes {
    if lines == [] then rest else lines[0] + [NEWLINE] + Unsplit(lines[1..], rest)
  }

  lemma UnsplitCons(line: Bytes, lines: seq<Bytes>, rest: Bytes)
    ensures Unsplit([line] + lines, rest) == line + [NEWLINE] + Unsplit(lines, rest)
  {
    assert ([line] + lines)[1..] == lines;
  }

  /** Lines and Rest take a text apart at its newlines, and lose nothing. */
  lemma {:induction false} SplitRoundTrip(text: Bytes)
    ensures Unsplit(Lines(text), Rest(text)) == text
    decreases |text|
  {
    FirstNewlineIsFirst(text);
    var i := FirstNewline(text);
    if i >= 0 {
      var after := text[i + 1..];
      SplitRoundTrip(after);
      UnsplitCons(text[..i], Lines(after), Rest(after));
      assert text == text[..i] + [NEWLINE] + after;
    }
  }

  /** No line, nor the rest, contains a newline: every newline is a cut. */
  lemma {:induction false} EveryNewlineCuts(text: Bytes)
    ensures NEWLINE !in Rest(text) && forall line :: line in Lines(text) ==> NEWLINE !in line
    decreases |text|
  {
    FirstNewlineIsFirst(text);
    var i := FirstNewline(text);
    if i >= 0 {
      EveryNewlineCuts(text[i + 1..]);
    }
  }

  /** The log entries for some lines: trimmed, prefixed, empty ones dropped. */
  function Entries(prefix: Bytes, lines: seq<Bytes>): seq<Bytes> {
    if lines == [] then []
    else
      var line := TrimRight(lines[|lines| - 1]);
      Entries(prefix, lines[..|lines| - 1]) + if line == [] then [] else [prefix + line]
  }

  lemma {:induction false} EntriesAppend(prefix: Bytes, a: seq<Bytes>, b: seq<Bytes>)
    ensures Entries(prefix, a + b) == Entries(prefix, a) + Entries(prefix, b)
  {
    if b == [] {
      assert a + b == a;
    } else {
      EntriesAppend(prefix, a, b[..|b| - 1]);
      assert (a + b)[..|a + b| - 1] == a + b[..|b| - 1];
    }
  }

  /**
   A line becomes at most one message: none if it has nothing but carriage returns, else the
   prefix and the line up to its last other byte.
   */
  lemma EntryOfLine(prefix: Bytes, line: Bytes)
    ensures |Entries(prefix, [line])| == if exists i :: 0 <= i < |line| && line[i] != 13 then 1 else 0
    ensures forall n :: 0 <= n < |line| && line[n] != 13 && (forall i :: n < i < |line| ==> line[i] == 13) ==>
              Entries(prefix, [line]) == [prefix + line[..n + 1]]
  {
    NoEntries(prefix);
    OneEntryMore(prefix, [], line);
    assert [] + [line] == [line];
    TrimRightTrims(line);
    var t := TrimRight(line);
    forall n | 0 <= n < |line| && line[n] != 13 && (forall i :: n < i < |line| ==> line[i] == 13)
      ensures t == line[..n + 1]
    {
      assert t[|t| - 1] == line[|t| - 1];
    }
  }

  lemma NoEntries(prefix: Bytes)
    ensures Entries(prefix, []) == []
  {
  }

  lemma OneEntryMore(prefix: Bytes, lines: seq<Bytes>, line: Bytes)
    ensures Entries(prefix, lines + [line])
         == Entries(prefix, lines) + if TrimRight(line) == [] then [] else [prefix + TrimRight(line)]
  {
    assert (lines + [line])[..|lines|] == lines;
  }

  // ----- Splitting as the pieces arrive -----

  class LineWriter {
    const prefix: Bytes
    var buf: Bytes
    /** The messages logged so far. */
    var log: seq<Bytes>

    constructor (prefix: Bytes)
      ensures this.prefix == prefix && buf == [] && log == []
    {
      this.prefix := prefix;
      buf, log := [], [];
    }

    method Write(p: Bytes) returns (n: nat)
      modifies this
      ensures n == |p|
      ensures log == old(log) + Entries(prefix, Lines(old(buf) + p))
      ensures buf == Rest(old(buf) + p)
    {
      hide Lines, Rest, Entries, FirstNewline, TrimRight;
      buf := buf + p;
      NoEntries(prefix);
      ghost var whole := buf;
      ghost var done: seq<Bytes> := [];
      while true
        invariant log == old(log) + Entries(prefix, done)
        invariant done + Lines(buf) == Lines(whole)
        invariant Rest(buf) == Rest(whole)
        decreases |buf|
      {
        var s := buf;
        var idx := FirstNewline(s);
        CutFirst(s);
        if idx < 0 {
          break;
        }
        var line := TrimRight(s[..idx]);
        if line != [] {
          log := log + [prefix + line];
        }
        buf := s[idx + 1..];
        OneEntryMore(prefix, done, s[..idx]);
        done := done + [s[..idx]];
      }
      assert done == Lines(whole);
      return |p|;
    }
  }

  // ----- However the bytes are cut -----

  /** The first newline of a text stays the first when more follows. */
  lemma {:induction false} FirstNewlineInPrefix(s: Bytes, t: Bytes)
    requires FirstNewline(s) >= 0
    ensures FirstNewline(s + t) == FirstNewline(s)
  {
    if s[0] != NEWLINE {
      assert (s + t)[1..] == s[1..] + t;
      FirstNewlineInPrefix(s[1..], t);
    }
  }

  /** Splitting a then b, keeping the unfinished line between them, is splitting a + b. */
  lemma {:induction false} SplitsAnywhere(a: Bytes, b: Bytes)
    ensures Lines(a + b) == Lines(a) + Lines(Rest(a) + b)
    ensures Rest(a + b) == Rest(Rest(a) + b)
    decreases |a|
  {
    var i := FirstNewline(a);
    if i >= 0 {
      var after := a[i + 1..];
      FirstNewlineInPrefix(a, b);
      assert (a + b)[..i] == a[..i];
      assert (a + b)[i + 1..] == after + b;
      SplitsAnywhere(after, b);
      assert Lines(a + b) == [a[..i]] + (Lines(after) + Lines(Rest(after) + b));
    }
  }

  /**
   Incremental splitting is batch splitting: after any sequence of Write calls the log
   holds the entries of the complete lines of the concatenated bytes, and the buffer what
   follows the last newline.  Where the bytes were cut makes no difference.
   */
  method WriteAll(prefix: Bytes, pieces: seq<Bytes>) returns (log: seq<Bytes>, rest: Bytes)
    ensures log == Entries(prefix, Lines(Flatten(pieces)))
    ensures rest == Rest(Flatten(pieces))
  {
    var w := new LineWriter(prefix);
    for k := 0 to |pieces|
      invariant w.prefix == prefix
      invariant w.log == Entries(prefix, Lines(Flatten(pieces[..k])))
      invariant w.buf == Rest(Flatten(pieces[..k]))
    {
      ghost var before := Flatten(pieces[..k]);
      assert pieces[..k + 1][..k] == pieces[..k];
      assert Flatten(pieces[..k + 1]) == before + pieces[k];
      SplitsAnywhere(before, pieces[k]);
      EntriesAppend(prefix, Lines(before), Lines(Rest(before) + pieces[k]));
      var n := w.Write(pieces[k]);
    }
    assert pieces[..|pieces|] == pieces;
    return w.log, w.buf;
  }
}
