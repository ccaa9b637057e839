/** The incremental line splitter logLineWriter of internal/dockerwatcher/watcher.go. Its output
    must not depend on how the stream is cut into writes, not even inside a character. */
module LogLines {
  import opened Basics
  import opened Bytes

  /** strings.IndexByte(s, '\n'), or the length when there is none. */
  function LineLength(s: Bytes): (n: nat)
    ensures n <= |s|
    ensures n < |s| ==> s[n] == NEWLINE
    ensures forall i :: 0 <= i < n ==> s[i] != NEWLINE
  {
    if s == [] || s[0] == NEWLINE then 0 else 1 + LineLength(s[1..])
  }

  /** The complete lines of a stream, without their newlines. */
  function Lines(s: Bytes): seq<Bytes>
    decreases |s|
  {
    var n := LineLength(s);
    if n == |s| then [] else [s[..n]] + Lines(s[n + 1..])
  }

  /** What follows the last newline. */
  function Rest(s: Bytes): (r: Bytes)
    ensures NEWLINE !in r
    decreases |s|
  {
    var n := LineLength(s);
    if n == |s| then s else Rest(s[n + 1..])
  }

  /** The message logged for a line, if any. */
  function Message(line: Bytes): seq<Bytes> {
    var m := TrimReturns(line);
    if TrimSpace(m) == [] then [] else [m]
  }

  function Messages(lines: seq<Bytes>): seq<Bytes> {
    if lines == [] then [] else Message(lines[0]) + Messages(lines[1..])
  }

  lemma {:induction false} MessagesAdd(a: seq<Bytes>, b: seq<Bytes>)
    ensures Messages(a + b) == Messages(a) + Messages(b)
  {
    if a == [] {
      assert a + b == b;
    } else {
      assert (a + b)[1..] == a[1..] + b;
      MessagesAdd(a[1..], b);
    }
  }

  function Rejoin(lines: seq<Bytes>): Bytes {
    if lines == [] then [] else lines[0] + [NEWLINE] + Rejoin(lines[1..])
  }

  /** The lines and the rest are the stream: nothing is lost, and no line holds a newline. */
  lemma {:induction false} LinesAreTheStream(s: Bytes)
    ensures Rejoin(Lines(s)) + Rest(s) == s
    ensures forall i :: 0 <= i < |Lines(s)| ==> NEWLINE !in Lines(s)[i]
  {
    LinesRejoin(s);
    LinesHoldNoNewline(s);
  }

  lemma {:induction false} LinesRejoin(s: Bytes)
    ensures Rejoin(Lines(s)) + Rest(s) == s
    decreases |s|
  {
    var n := LineLength(s);
    if n < |s| {
      var later := s[n + 1..];
      assert s == s[..n] + [NEWLINE] + later;
      LinesRejoin(later);
      assert Lines(s)[1..] == Lines(later);
      Regroup(s[..n] + [NEWLINE], Rejoin(Lines(later)), Rest(later));
    }
  }

  lemma {:induction false} LinesHoldNoNewline(s: Bytes)
    ensures forall i :: 0 <= i < |Lines(s)| ==> NEWLINE !in Lines(s)[i]
    decreases |s|
  {
    var n := LineLength(s);
    if n < |s| {
      LinesHoldNoNewline(s[n + 1..]);
    }
  }

  /** Splitting in two steps: what the first part leaves over is put before the second. */
  lemma {:induction false} SplitInTwo(a: Bytes, b: Bytes)
    ensures Lines(a + b) == Lines(a) + Lines(Rest(a) + b)
    ensures Rest(a + b) == Rest(Rest(a) + b)
    decreases |a|
  {
    var n := LineLength(a);
    if n < |a| {
      SplitInTwo(a[n + 1..], b);
      AfterFirstLine(a, b, a[n + 1..]);
    } else {
      NoLine(a);
      assert [] + Lines(a + b) == Lines(a + b);
    }
  }

  lemma {:induction false} AfterFirstLine(a: Bytes, b: Bytes, later: Bytes)
    requires LineLength(a) < |a| && later == a[LineLength(a) + 1..]
    requires Lines(later + b) == Lines(later) + Lines(Rest(later) + b) && Rest(later + b) == Rest(Rest(later) + b)
    ensures Lines(a + b) == Lines(a) + Lines(Rest(a) + b) && Rest(a + b) == Rest(Rest(a) + b)
  {
    FirstLineOfSum(a, b);
    FirstLine(a);
    MoveFirst([a[..LineLength(a)]], Lines(later + b), Lines(later), Lines(Rest(later) + b));
  }

  lemma {:induction false} MoveFirst(first: seq<Bytes>, all: seq<Bytes>, front: seq<Bytes>, back: seq<Bytes>)
    requires all == front + back
    ensures first + all == first + front + back
  {
    Regroup(first, front, back);
  }

  lemma {:induction false} NoLine(s: Bytes)
    requires LineLength(s) == |s|
    ensures Lines(s) == [] && Rest(s) == s
  {
  }

  lemma {:induction false} FirstLine(s: Bytes)
    requires LineLength(s) < |s|
    ensures var n := LineLength(s); Lines(s) == [s[..n]] + Lines(s[n + 1..]) && Rest(s) == Rest(s[n + 1..])
  {
  }

  lemma {:induction false} FirstLineOfSum(a: Bytes, b: Bytes)
    requires LineLength(a) < |a|
    ensures var n := LineLength(a);
            Lines(a + b) == [a[..n]] + Lines(a[n + 1..] + b) && Rest(a + b) == Rest(a[n + 1..] + b)
  {
    var n := LineLength(a);
    SameFirstLine(a, b);
    CutSum(a, b, n);
    CutSum(a, b, n + 1);
    FirstLine(a + b);
  }

  lemma {:induction false} SameFirstLine(a: Bytes, b: Bytes)
    requires LineLength(a) < |a|
    ensures LineLength(a + b) == LineLength(a)
  {
    if a[0] != NEWLINE {
      assert (a + b)[1..] == a[1..] + b;
      SameFirstLine(a[1..], b);
    }
  }

  /** A line worth logging as it is: not blank, and without returns at its end. */
  predicate Plain(line: Bytes) {
    NEWLINE !in line && TrimSpace(line) != [] && line[|line| - 1] != RETURN
  }

  /** Lines go through unchanged: of a text made of plain lines exactly these are logged, in order, and
      nothing is left over. */
  lemma {:induction false} PlainLinesAreLogged(lines: seq<Bytes>)
    requires forall i :: 0 <= i < |lines| ==> Plain(lines[i])
    ensures Lines(Rejoin(lines)) == lines && Rest(Rejoin(lines)) == [] && Messages(lines) == lines
  {
    RejoinedIsSplit(lines);
    PlainMessages(lines);
  }

  lemma {:induction false} RejoinedIsSplit(lines: seq<Bytes>)
    requires forall i :: 0 <= i < |lines| ==> NEWLINE !in lines[i]
    ensures Lines(Rejoin(lines)) == lines && Rest(Rejoin(lines)) == []
  {
    if lines != [] {
      RejoinedIsSplit(lines[1..]);
      OneLineBefore(lines[0], Rejoin(lines[1..]));
      FirstOf(lines);
    }
  }

  lemma {:induction false} FirstOf(lines: seq<Bytes>)
    requires lines != []
    ensures lines == [lines[0]] + lines[1..]
  {
  }

  lemma {:induction false} OneLineBefore(line: Bytes, rest: Bytes)
    requires NEWLINE !in line
    ensures Lines(line + [NEWLINE] + rest) == [line] + Lines(rest) && Rest(line + [NEWLINE] + rest) == Rest(rest)
  {
    var s := line + [NEWLINE] + rest;
    LengthOfFirst(line, rest);
    assert s[..|line|] == line && s[|line| + 1..] == rest;
    FirstLine(s);
  }

  lemma {:induction false} PlainMessages(lines: seq<Bytes>)
    requires forall i :: 0 <= i < |lines| ==> Plain(lines[i])
    ensures Messages(lines) == lines
  {
    if lines != [] {
      PlainMessages(lines[1..]);
      PlainMessage(lines[0]);
      FirstOf(lines);
    }
  }

  lemma {:induction false} PlainMessage(line: Bytes)
    requires Plain(line)
    ensures Message(line) == [line]
  {
  }

  lemma {:induction false} LengthOfFirst(line: Bytes, rest: Bytes)
    requires NEWLINE !in line
    ensures LineLength(line + [NEWLINE] + rest) == |line| < |line + [NEWLINE] + rest|
  {
    var s := line + [NEWLINE] + rest;
    if line != [] {
      assert s[0] == line[0] != NEWLINE && s[1..] == line[1..] + [NEWLINE] + rest;
      LengthOfFirst(line[1..], rest);
    }
  }

  /** Returns at the end of a line are dropped, and a blank line is not logged. */
  lemma {:induction false} ReturnsAndBlanks(line: Bytes)
    ensures Message(line + [RETURN]) == Message(line)
    ensures TrimSpace(TrimReturns(line)) == [] ==> Message(line) == []
  {
    var s := line + [RETURN];
    assert s[..|s| - 1] == line;
  }

  /** The messages logged and the buffer left by a sequence of writes, starting from buffer `buf`. */
  function WriteAll(buf: Bytes, writes: seq<Bytes>): (seq<Bytes>, Bytes)
    decreases |writes|
  {
    if writes == [] then ([], buf)
    else
      var (later, left) := WriteAll(Rest(buf + writes[0]), writes[1..]);
      (Messages(Lines(buf + writes[0])) + later, left)
  }

  /** However the stream is cut, the writer logs and keeps what one write of the whole would. */
  lemma {:induction false} ChunkIndependence(buf: Bytes, writes: seq<Bytes>)
    requires NEWLINE !in buf
    ensures WriteAll(buf, writes) == (Messages(Lines(buf + Concat(writes))), Rest(buf + Concat(writes)))
    decreases |writes|
  {
    if writes == [] {
      assert buf + Concat(writes) == buf;
      assert LineLength(buf) == |buf|;
    } else {
      var all := buf + Concat(writes);
      var head := buf + writes[0];
      assert all == head + Concat(writes[1..]);
      SplitInTwo(head, Concat(writes[1..]));
      MessagesAdd(Lines(head), Lines(Rest(head) + Concat(writes[1..])));
      ChunkIndependence(Rest(head), writes[1..]);
    }
  }

  lemma {:induction false} MoveOne(lines: seq<Bytes>, taken: seq<Bytes>, left: seq<Bytes>, line: Bytes,
                                   later: seq<Bytes>)
    requires lines == taken + left && left == [line] + later
    ensures lines == taken + [line] + later
  {
    Regroup(taken, [line], later);
  }

  /** Taking one line off the buffer. */
  lemma {:induction false} TakeLine(all: Bytes, taken: seq<Bytes>, buf: Bytes, i: nat)
    requires i == LineLength(buf) < |buf| && Lines(all) == taken + Lines(buf) && Rest(all) == Rest(buf)
    ensures Lines(all) == taken + [buf[..i]] + Lines(buf[i + 1..]) && Rest(all) == Rest(buf[i + 1..])
  {
    MoveOne(Lines(all), taken, Lines(buf), buf[..i], Lines(buf[i + 1..]));
  }

  /** The messages of one more line. */
  lemma {:induction false} MessagesOfOneMore(logged: seq<Bytes>, taken: seq<Bytes>, line: Bytes)
    ensures logged + Messages(taken + [line]) == logged + Messages(taken) + Message(line)
  {
    MessagesAdd(taken, [line]);
    MessagesOfOne(line);
    Regroup(logged, Messages(taken), Message(line));
  }

  lemma {:induction false} MessagesOfOne(line: Bytes)
    ensures Messages([line]) == Message(line)
  {
    assert [line][1..] == [];
    assert Message(line) + [] == Message(line);
  }

  class LogLineWriter {
    var buf: Bytes
    /** The messages passed to logFn. */
    var logged: seq<Bytes>

    constructor ()
      ensures buf == [] && logged == []
    {
      buf, logged := [], [];
    }

    method Write(p: Bytes) returns (n: nat)
      modifies this
      ensures n == |p|
      ensures logged == old(logged) + Messages(Lines(old(buf) + p))
      ensures buf == Rest(old(buf) + p) && NEWLINE !in buf
    {
      buf := buf + p;
      ghost var all := buf;
      ghost var taken: seq<Bytes> := [];
      while true
        invariant Lines(all) == taken + Lines(buf) && Rest(all) == Rest(buf)
        invariant logged == old(logged) + Messages(taken)
        decreases |buf|
      {
        var i := LineLength(buf);
        if i == |buf| {
          break;
        }
        ghost var line := buf[..i];
        TakeLine(all, taken, buf, i);
        MessagesOfOneMore(old(logged), taken, line);
        Log(buf[..i]);
        taken := taken + [line];
        buf := buf[i + 1..];
      }
      assert taken + [] == taken;
      return |p|;
    }

    /** Logs a line without its returns, unless it is blank. */
    method Log(raw: Bytes)
      modifies this`logged
      ensures logged == old(logged) + Message(raw)
    {
      var line := TrimReturns(raw);
      if TrimSpace(line) != [] {
        logged := logged + [line];
      }
    }

    method Flush()
      modifies this
      ensures buf == []
      ensures logged == old(logged) + if TrimSpace(old(buf)) == [] then [] else [TrimSpace(old(buf))]
    {
      var line := TrimSpace(buf);
      if line != [] {
        logged := logged + [line];
      }
      buf := [];
    }
  }
}
