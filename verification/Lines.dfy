// Text files as bytes, and the lines a reader sees in them.

module Lines {
  import opened Sequences

  type Byte = b: int | 0 <= b < 256
  type Bytes = seq<Byte>

  const LF: Byte := 10
  const CR: Byte := 13

  // A line's text, without the newline that ends it.
  ghost predicate OneLine(l: Bytes) {
    LF !in l
  }

  // White space as it is encoded: in one byte, in two and in three.
  predicate IsSpace(b: Byte) {
    b == 32 || 9 <= b <= 13
  }

  predicate IsSpace2(a: Byte, b: Byte) {
    a == 0xC2 && (b == 0x85 || b == 0xA0)
  }

  predicate IsSpace3(a: Byte, b: Byte, c: Byte) {
    || (a == 0xE1 && b == 0x9A && c == 0x80)
    || (a == 0xE2 && b == 0x80 && (0x80 <= c <= 0x8A || c == 0xA8 || c == 0xA9 || c == 0xAF))
    || (a == 0xE2 && b == 0x81 && c == 0x9F)
    || (a == 0xE3 && b == 0x80 && c == 0x80)
  }

  // How many bytes the white space that begins or ends a line takes.
  function SpaceAtStart(l: Bytes): (n: nat)
    ensures n <= |l|
  {
    if |l| >= 1 && IsSpace(l[0]) then 1
    else if |l| >= 2 && IsSpace2(l[0], l[1]) then 2
    else if |l| >= 3 && IsSpace3(l[0], l[1], l[2]) then 3
    else 0
  }

  function SpaceAtEnd(l: Bytes): (n: nat)
    ensures n <= |l|
  {
    var k := |l|;
    if k >= 1 && IsSpace(l[k - 1]) then 1
    else if k >= 2 && IsSpace2(l[k - 2], l[k - 1]) then 2
    else if k >= 3 && IsSpace3(l[k - 3], l[k - 2], l[k - 1]) then 3
    else 0
  }

  // A line without the white space at its ends.
  function TrimStart(l: Bytes): Bytes
    decreases |l|
  {
    var n := SpaceAtStart(l);
    if n > 0 then TrimStart(l[n..]) else l
  }

  function TrimEnd(l: Bytes): Bytes
    decreases |l|
  {
    var n := SpaceAtEnd(l);
    if n > 0 then TrimEnd(l[..|l| - n]) else l
  }

  function Trim(l: Bytes): Bytes {
    TrimStart(TrimEnd(l))
  }

  // The number of bytes up to and including the first newline, or all of them.
  function FirstLineLength(file: Bytes): (n: nat)
    ensures n <= |file|
    ensures file != [] ==> n > 0
    ensures forall i :: 0 <= i < n - 1 ==> file[i] != LF
    ensures n < |file| ==> file[n - 1] == LF
  {
    if file == [] then 0
    else if file[0] == LF then 1
    else 1 + FirstLineLength(file[1..])
  }

  // A file cut after every newline; each piece keeps its terminator.
  function RawLines(file: Bytes): seq<Bytes> {
    if file == [] then []
    else
      var n := FirstLineLength(file);
      [file[..n]] + RawLines(file[n..])
  }

  function Flatten(pieces: seq<Bytes>): Bytes {
    if pieces == [] then [] else pieces[0] + Flatten(pieces[1..])
  }

  // A line without its ending: a newline, and a carriage return before it.
  // A carriage return that no newline follows is text.
  function Strip(raw: Bytes): Bytes {
    if raw == [] || raw[|raw| - 1] != LF then raw
    else if |raw| >= 2 && raw[|raw| - 2] == CR then raw[..|raw| - 2]
    else raw[..|raw| - 1]
  }

  function StripAll(raws: seq<Bytes>): (lines: seq<Bytes>)
    ensures |lines| == |raws|
    ensures forall i :: 0 <= i < |raws| ==> lines[i] == Strip(raws[i])
  {
    seq(|raws|, i requires 0 <= i < |raws| => Strip(raws[i]))
  }

  // What iterating over a text's lines yields.
  function LinesOf(file: Bytes): (lines: seq<Bytes>)
    ensures |lines| == |RawLines(file)|
  {
    StripAll(RawLines(file))
  }

  // Each line followed by a newline, as one buffer.
  function Unlines(lines: seq<Bytes>): Bytes {
    if lines == [] then [] else lines[0] + [LF] + Unlines(lines[1..])
  }

  // The last n elements, or all of them when there are fewer.
  function Last<T>(s: seq<T>, n: nat): (t: seq<T>)
    ensures |t| == if n < |s| then n else |s|
  {
    if n < |s| then s[|s| - n..] else s
  }

  lemma {:induction false} FlattenRawLines(file: Bytes)
    ensures Flatten(RawLines(file)) == file
  {
    hide FirstLineLength;
    if file != [] {
      var n := FirstLineLength(file);
      FlattenRawLines(file[n..]);
      assert RawLines(file)[1..] == RawLines(file[n..]);
      assert file == file[..n] + file[n..];
    }
  }

  lemma FirstLineUnique(l: Bytes, rest: Bytes)
    requires OneLine(l)
    ensures FirstLineLength(l + [LF] + rest) == |l| + 1
  {
    var f := l + [LF] + rest;
    var n := FirstLineLength(f);
    assert f[|l|] == LF;
    assert forall i :: 0 <= i < |l| ==> f[i] == l[i] && l[i] in l;
  }

  lemma RawLinesCons(l: Bytes, rest: Bytes)
    requires OneLine(l)
    ensures RawLines(l + [LF] + rest) == [l + [LF]] + RawLines(rest)
  {
    FirstLineUnique(l, rest);
    var f := l + [LF] + rest;
    assert f[..|l| + 1] == l + [LF];
    assert f[|l| + 1..] == rest;
  }

  lemma RawLinesOfFragment(l: Bytes)
    requires OneLine(l) && l != []
    ensures RawLines(l) == [l]
  {
    var n := FirstLineLength(l);
    assert n == |l|;
    assert l[..n] == l && l[n..] == [];
  }

  lemma StripTerminated(l: Bytes)
    requires l == [] || l[|l| - 1] != CR
    ensures Strip(l + [LF]) == l
  {
    var raw := l + [LF];
    assert raw[..|raw| - 1] == l;
  }

  // Lines already written stay as they are, whatever follows them.
  lemma {:induction false} RawLinesAfterUnlines(lines: seq<Bytes>, rest: Bytes)
    requires forall l :: l in lines ==> OneLine(l)
    ensures RawLines(Unlines(lines) + rest) == Terminated(lines) + RawLines(rest)
  {
    hide RawLines, Strip, FirstLineLength;
    if lines == [] {
      assert Unlines(lines) + rest == rest;
      assert Terminated(lines) + RawLines(rest) == RawLines(rest);
    } else {
      var tail := Unlines(lines[1..]) + rest;
      RawLinesAfterUnlines(lines[1..], rest);
      RawLinesCons(lines[0], tail);
      UnlinesCons(lines, rest);
      TerminatedCons(lines, RawLines(rest));
    }
  }

  lemma NothingWritten()
    ensures Unlines([]) == []
  {
  }

  lemma UnlinesCons(lines: seq<Bytes>, rest: Bytes)
    requires lines != []
    ensures Unlines(lines) + rest == lines[0] + [LF] + (Unlines(lines[1..]) + rest)
  {
  }

  lemma TerminatedCons(lines: seq<Bytes>, more: seq<Bytes>)
    requires lines != []
    ensures Terminated(lines) + more == [lines[0] + [LF]] + (Terminated(lines[1..]) + more)
  {
  }

  function Terminated(lines: seq<Bytes>): (raws: seq<Bytes>)
    ensures |raws| == |lines|
    ensures forall i :: 0 <= i < |lines| ==> raws[i] == lines[i] + [LF]
  {
    seq(|lines|, i requires 0 <= i < |lines| => lines[i] + [LF])
  }

  lemma {:induction false} UnlinesConcat(a: seq<Bytes>, b: seq<Bytes>)
    ensures Unlines(a + b) == Unlines(a) + Unlines(b)
  {
    if a == [] {
      assert a + b == b;
      assert Unlines(a) + Unlines(b) == Unlines(b);
    } else {
      UnlinesConcat(a[1..], b);
      UnlinesCons(a, Unlines(b));
      assert (a + b)[1..] == a[1..] + b;
    }
  }

  // Writing lines and reading them back is the identity, for lines that hold
  // no newline and do not end in a carriage return.
  lemma {:induction false} LinesOfUnlines(lines: seq<Bytes>)
    requires forall l :: l in lines ==> OneLine(l) && (l == [] || l[|l| - 1] != CR)
    ensures LinesOf(Unlines(lines)) == lines
  {
    RawLinesAfterUnlines(lines, []);
    assert Unlines(lines) + [] == Unlines(lines);
    assert Terminated(lines) + [] == Terminated(lines);
    forall i | 0 <= i < |lines|
      ensures LinesOf(Unlines(lines))[i] == lines[i]
    {
      assert lines[i] in lines;
      StripTerminated(lines[i]);
    }
  }

  // Lines that end in a carriage return and a newline read as they would with
  // the newline alone.
  lemma {:induction false} CarriageReturns(lines: seq<Bytes>, ended: seq<Bytes>)
    requires |ended| == |lines| && forall i :: 0 <= i < |lines| ==> ended[i] == lines[i] + [CR]
    requires forall l :: l in lines ==> OneLine(l)
    ensures LinesOf(Unlines(ended)) == lines
  {
    forall l | l in ended
      ensures OneLine(l)
    {
      var i :| 0 <= i < |ended| && l == ended[i];
      assert lines[i] in lines;
    }
    RawLinesAfterUnlines(ended, []);
    assert Unlines(ended) + [] == Unlines(ended);
    assert Terminated(ended) + [] == Terminated(ended);
    hide RawLines, Unlines;
    forall i | 0 <= i < |lines|
      ensures LinesOf(Unlines(ended))[i] == lines[i]
    {
      StripBoth(lines[i]);
    }
  }

  lemma StripBoth(l: Bytes)
    ensures Strip(l + [CR] + [LF]) == l
  {
    var raw := l + [CR] + [LF];
    assert raw[..|raw| - 2] == l;
  }

  // A prefix of bytes is a prefix of lines: two files of whole lines compare
  // by bytes exactly as their lines do.
  lemma {:induction false} UnlinesPrefix(a: seq<Bytes>, b: seq<Bytes>)
    requires forall l :: l in a ==> OneLine(l)
    requires forall l :: l in b ==> OneLine(l)
    ensures Unlines(a) <= Unlines(b) <==> a <= b
  {
    hide OneLine;
    if a == [] {
    } else if b == [] {
      assert |Unlines(a)| > 0;
    } else {
      UnlinesPrefix(a[1..], b[1..]);
      FirstLinesPrefix(a[0], Unlines(a[1..]), b[0], Unlines(b[1..]));
      assert a == [a[0]] + a[1..] && b == [b[0]] + b[1..];
    }
  }

  lemma FirstLinesPrefix(a: Bytes, more: Bytes, b: Bytes, next: Bytes)
    requires OneLine(a) && OneLine(b)
    ensures a + [LF] + more <= b + [LF] + next <==> a == b && more <= next
  {
    var x, y := a + [LF] + more, b + [LF] + next;
    if x <= y {
      var rest := y[|a| + 1..];
      assert y == a + [LF] + rest;
      FirstLineUnique(a, rest);
      FirstLineUnique(b, next);
      assert a == y[..|a|] == b;
      assert more == x[|a| + 1..] && next == rest;
    }
  }

  // ── reading a file from the middle ─────────────────────────────────

  // Reading from inside a file and throwing away the first piece leaves the
  // last lines of the whole file; the line that holds the first byte read is
  // not among them.
  lemma {:induction false} SuffixLines(file: Bytes, from: nat) returns (k: nat)
    requires from < |file|
    ensures k < |RawLines(file)|
    ensures RawLines(file[from..]) != []
    ensures RawLines(file[from..])[1..] == RawLines(file)[k + 1..]
    ensures |Flatten(RawLines(file)[k..])| >= |file| - from
    decreases |file|
  {
    hide FirstLineLength, Flatten, RawLines;
    var n := FirstLineLength(file);
    var rest := file[n..];
    var later := RawLines(rest);
    RawLinesHead(file);
    assert ([file[..n]] + later)[1..] == later;
    if from < n {
      k := 0;
      FlattenRawLines(file);
      assert RawLines(file)[0..] == RawLines(file);
      PieceThenRest(file, from, n);
      assert ([file[from..n]] + later)[1..] == later;
    } else {
      assert file[from..] == rest[from - n..];
      var j := SuffixLines(rest, from - n);
      k := j + 1;
      assert ([file[..n]] + later)[k..] == later[j..];
      assert ([file[..n]] + later)[k + 1..] == later[j + 1..];
    }
  }

  lemma RawLinesHead(file: Bytes)
    requires file != []
    ensures var n := FirstLineLength(file); RawLines(file) == [file[..n]] + RawLines(file[n..])
  {
  }

  lemma {:induction false} FirstLineTail(file: Bytes, from: nat)
    requires from < FirstLineLength(file)
    ensures from < |file| && FirstLineLength(file[from..]) == FirstLineLength(file) - from
  {
    if from == 0 {
      assert file[0..] == file;
    } else {
      FirstLineTail(file[1..], from - 1);
      assert file[from..] == file[1..][from - 1..];
    }
  }

  // The first piece of a suffix that starts inside the first line is the rest
  // of that line.
  lemma PieceThenRest(file: Bytes, from: nat, n: nat)
    requires n == FirstLineLength(file) && from < n
    ensures RawLines(file[from..]) == [file[from..n]] + RawLines(file[n..])
  {
    hide FirstLineLength, RawLines;
    FirstLineTail(file, from);
    var t := file[from..];
    RawLinesHead(t);
    assert t[..n - from] == file[from..n];
    assert t[n - from..] == file[n..];
  }

  lemma {:induction false} FlattenConcat(a: seq<Bytes>, b: seq<Bytes>)
    ensures Flatten(a + b) == Flatten(a) + Flatten(b)
  {
    if a == [] {
      assert a + b == b;
    } else {
      FlattenConcat(a[1..], b);
      assert (a + b)[1..] == a[1..] + b && (a + b)[0] == a[0];
      FlattenHead(a);
      FlattenHead(a + b);
      hide Flatten;
      Assoc(a[0], Flatten(a[1..]), Flatten(b));
    }
  }

  lemma FlattenHead(pieces: seq<Bytes>)
    requires pieces != []
    ensures Flatten(pieces) == pieces[0] + Flatten(pieces[1..])
  {
  }
}
