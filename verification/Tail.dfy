// Reading the last lines of a file without reading the file.

module Tail {
  import opened Lines

  // How much of the end is read on the first attempt.
  const TAIL_WINDOW: nat := 64 * 1024
  const U64_MAX: nat := 0xFFFF_FFFF_FFFF_FFFF

  function SaturatingSub(a: nat, b: nat): nat {
    if a < b then 0 else a - b
  }

  function SaturatingDouble(a: nat): nat {
    if 2 * a > U64_MAX then U64_MAX else 2 * a
  }

  // The bytes, terminators included, of the last `want` lines of a file.
  ghost function TailBytes(file: Bytes, want: nat): Bytes {
    Flatten(Last(RawLines(file), want))
  }

  // The lines of the part of a file from `from` on, without the first one
  // unless the part is the whole file.
  function WindowLines(file: Bytes, from: nat): seq<Bytes>
    requires from <= |file|
  {
    var lines := LinesOf(file[from..]);
    if from > 0 && lines != [] then lines[1..] else lines
  }

  // What is kept of a window is the end of the whole file's lines. The line
  // that holds the window's first byte, number k, is the last one not kept.
  lemma {:induction false} WindowIsSuffix(file: Bytes, from: nat) returns (k: nat)
    requires 0 < from < |file|
    ensures k < |RawLines(file)|
    ensures WindowLines(file, from) == LinesOf(file)[k + 1..]
    ensures |Flatten(RawLines(file)[k..])| >= |file| - from
  {
    k := SuffixLines(file, from);
    var part := RawLines(file[from..]);
    assert StripAll(part)[1..] == StripAll(part[1..]);
    assert LinesOf(file)[k + 1..] == StripAll(RawLines(file)[k + 1..]);
  }

  lemma WholeWindow(file: Bytes)
    ensures WindowLines(file, 0) == LinesOf(file)
  {
    assert file[0..] == file;
  }

  lemma NoLines()
    ensures LinesOf([]) == []
  {
  }

  lemma LastOfSuffix<T>(s: seq<T>, k: nat, n: nat)
    requires k <= |s|
    ensures n <= |s| - k ==> Last(s[k..], n) == Last(s, n)
    ensures n >= |s| - k ==> s[k..] == Last(s, n)[|Last(s, n)| - (|s| - k)..]
  {
  }

  lemma TailBytesReachBack(file: Bytes, k: nat, want: nat)
    requires k <= |RawLines(file)|
    requires want >= |RawLines(file)| - k
    ensures |TailBytes(file, want)| >= |Flatten(RawLines(file)[k..])|
  {
    var kept := Last(RawLines(file), want);
    var cut := |kept| - (|RawLines(file)| - k);
    LastOfSuffix(RawLines(file), k, want);
    assert kept == kept[..cut] + kept[cut..];
    FlattenConcat(kept[..cut], kept[cut..]);
  }

  lemma WindowLinesMeaning(file: Bytes, from: nat, want: nat)
    requires from < |file|
    ensures |WindowLines(file, from)| >= want || from == 0
            ==> Last(WindowLines(file, from), want) == Last(LinesOf(file), want)
    ensures |WindowLines(file, from)| < want && from > 0
            ==> |TailBytes(file, want)| >= |file| - from
  {
    hide LinesOf, RawLines, Flatten, TailBytes, WindowLines;
    if from == 0 {
      WholeWindow(file);
    } else {
      var k := WindowIsSuffix(file, from);
      if |WindowLines(file, from)| >= want {
        LastOfSuffix(LinesOf(file), k + 1, want);
      } else {
        TailBytesReachBack(file, k, want);
      }
    }
  }

  // The last `want` lines. `read` counts the bytes fetched from the file.
  method TailLines(file: Bytes, want: nat) returns (out: seq<Bytes>, ghost read: nat)
    requires |file| <= U64_MAX
    ensures out == Last(LinesOf(file), want)
    ensures read <= TAIL_WINDOW || read < 4 * |TailBytes(file, want)|
  {
    hide LinesOf, RawLines, Flatten, TailBytes;
    read := 0;
    var len := |file|;
    if len == 0 {
      NoLines();
      return [], 0;
    }
    var window := TAIL_WINDOW;
    ghost var tried := 0;
    while true
      invariant if tried == 0 then window == TAIL_WINDOW && read == 0
                else TAIL_WINDOW <= tried < len && window == SaturatingDouble(tried)
                     && read == 2 * tried - TAIL_WINDOW && |TailBytes(file, want)| >= tried
      decreases len - tried
    {
      var from := SaturatingSub(len, window);
      var buf := file[from..];
      read := read + |buf|;
      var lines := LinesOf(buf);
      if from > 0 && lines != [] {
        lines := lines[1..];
      }
      assert lines == WindowLines(file, from);
      WindowLinesMeaning(file, from, want);
      if |lines| >= want || from == 0 {
        return lines[SaturatingSub(|lines|, want)..], read;
      }
      tried := window;
      window := SaturatingDouble(window);
    }
  }
}
