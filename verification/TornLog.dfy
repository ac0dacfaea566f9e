// An append-only log whose writer may die in the middle of any append.

module TornLog {
  import opened Wrappers
  import opened Lines
  import opened Codec

  // One append of whole lines in a single write, of which the first `reached`
  // bytes reached the file. A crash is a write that is not complete.
  datatype Write = Write(lines: seq<Bytes>, reached: nat)
  {
    ghost predicate Valid() {
      && reached <= |Unlines(lines)|
      && forall l :: l in lines ==> LF !in l && CR !in l
    }

    ghost predicate Crashed() {
      reached < |Unlines(lines)|
    }

    // The lines that reached the file with their newlines, and what reached it
    // of the line after them.
    ghost function Whole(): nat
      requires Valid()
    {
      WholeLines(lines, reached)
    }

    ghost function Rest(): Bytes
      requires Valid()
    {
      Fragment(lines, reached)
    }
  }

  function WholeLines(lines: seq<Bytes>, k: nat): (n: nat)
    ensures n <= |lines|
  {
    if lines == [] || k <= |lines[0]| then 0
    else 1 + WholeLines(lines[1..], k - |lines[0]| - 1)
  }

  function Fragment(lines: seq<Bytes>, k: nat): Bytes {
    if lines == [] then []
    else if k <= |lines[0]| then lines[0][..k]
    else Fragment(lines[1..], k - |lines[0]| - 1)
  }

  lemma {:induction false} CutMeaning(lines: seq<Bytes>, k: nat)
    requires k <= |Unlines(lines)|
    ensures var n := WholeLines(lines, k);
            && Unlines(lines)[..k] == Unlines(lines[..n]) + Fragment(lines, k)
            && (Fragment(lines, k) != [] ==> n < |lines| && Fragment(lines, k) <= lines[n])
            && (k == |Unlines(lines)| ==> n == |lines| && Fragment(lines, k) == [])
            && (k < |Unlines(lines)| ==> n < |lines|)
  {
    var n := WholeLines(lines, k);
    if lines == [] {
    } else {
      var later := lines[1..];
      var head := lines[0] + [LF];
      UnlinesHead(lines);
      if k <= |lines[0]| {
        assert n == 0 && lines[..n] == [];
        hide Unlines;
        assert (head + Unlines(later))[..k] == lines[0][..k];
        assert Unlines([]) == [] by {
          NothingWritten();
        }
      } else {
        CutMeaning(later, k - |head|);
        assert lines[..n] == [lines[0]] + later[..n - 1];
        UnlinesHead(lines[..n]);
        assert lines[..n][1..] == later[..n - 1];
        hide Unlines;
        assert (head + Unlines(later))[..k] == head + Unlines(later)[..k - |head|];
      }
    }
  }

  // The bytes of the file after these writes.
  function FileAfter(ws: seq<Write>): Bytes {
    if ws == [] then []
    else
      var b := Unlines(ws[0].lines);
      b[..if ws[0].reached <= |b| then ws[0].reached else |b|] + FileAfter(ws[1..])
  }

  ghost predicate AllValid(ws: seq<Write>) {
    forall w :: w in ws ==> w.Valid()
  }

  // The lines that survive, when the file before these writes ends in `torn`,
  // a piece of a line with no newline. A piece swallows the first line that is
  // completed after it.
  ghost function Kept(ws: seq<Write>, torn: Bytes): seq<Bytes>
    requires AllValid(ws)
  {
    if ws == [] then []
    else
      var w := ws[0];
      var n := w.Whole();
      if n == 0 then Kept(ws[1..], torn + w.Rest())
      else w.lines[if torn == [] then 0 else 1..n] + Kept(ws[1..], w.Rest())
  }

  // The lines that are a piece with a line glued to it.
  ghost function Glued(ws: seq<Write>, torn: Bytes): seq<Bytes>
    requires AllValid(ws)
  {
    if ws == [] then []
    else
      var w := ws[0];
      var n := w.Whole();
      if n == 0 then Glued(ws[1..], torn + w.Rest())
      else (if torn == [] then [] else [torn + w.lines[0]]) + Glued(ws[1..], w.Rest())
  }

  // The piece the file ends in.
  ghost function LastPiece(ws: seq<Write>, torn: Bytes): Bytes
    requires AllValid(ws)
  {
    if ws == [] then torn
    else LastPiece(ws[1..], if ws[0].Whole() == 0 then torn + ws[0].Rest() else ws[0].Rest())
  }

  // Lines that were to be written and that no reader will see: the first line
  // after a crash, and what a crash kept from being written.
  ghost function Lost(ws: seq<Write>, torn: Bytes): seq<Bytes>
    requires AllValid(ws)
  {
    if ws == [] then []
    else
      var w := ws[0];
      var n := w.Whole();
      if n == 0 then w.lines + Lost(ws[1..], torn + w.Rest())
      else (if torn == [] then [] else [w.lines[0]]) + w.lines[n..] + Lost(ws[1..], w.Rest())
  }

  ghost function Crashes(ws: seq<Write>): nat {
    if ws == [] then 0 else (if ws[0].Crashed() then 1 else 0) + Crashes(ws[1..])
  }

  function AllLines(ws: seq<Write>): seq<Bytes> {
    if ws == [] then [] else ws[0].lines + AllLines(ws[1..])
  }

  // s is made of a and b, each kept in its own order.
  ghost predicate Merges<T(!new)>(s: seq<T>, a: seq<T>, b: seq<T>)
    decreases |s|
  {
    if s == [] then a == [] && b == []
    else
      || (a != [] && s[0] == a[0] && Merges(s[1..], a[1..], b))
      || (b != [] && s[0] == b[0] && Merges(s[1..], a, b[1..]))
  }

  lemma {:induction false} MergesLeft<T(!new)>(p: seq<T>, s: seq<T>, a: seq<T>, b: seq<T>)
    requires Merges(s, a, b)
    ensures Merges(p + s, p + a, b)
    decreases |p|
  {
    if p == [] {
      assert p + s == s && p + a == a;
    } else {
      MergesLeft(p[1..], s, a, b);
      assert (p + s)[1..] == p[1..] + s && (p + a)[1..] == p[1..] + a;
    }
  }

  lemma {:induction false} MergesRight<T(!new)>(p: seq<T>, s: seq<T>, a: seq<T>, b: seq<T>)
    requires Merges(s, a, b)
    ensures Merges(p + s, a, p + b)
    decreases |p|
  {
    if p == [] {
      assert p + s == s && p + b == b;
    } else {
      MergesRight(p[1..], s, a, b);
      assert (p + s)[1..] == p[1..] + s && (p + b)[1..] == p[1..] + b;
    }
  }

  // The lines of the file that end in a newline, in terms of the lines that
  // were to be written.
  ghost function Body(ws: seq<Write>, torn: Bytes): seq<Bytes>
    requires AllValid(ws)
  {
    if ws == [] then []
    else
      var w := ws[0];
      var n := w.Whole();
      if n == 0 then Body(ws[1..], torn + w.Rest())
      else [torn + w.lines[0]] + (w.lines[1..n] + Body(ws[1..], w.Rest()))
  }

  function Piece(torn: Bytes): seq<Bytes> {
    if torn == [] then [] else [torn]
  }

  lemma UnlinesGlued(torn: Bytes, lines: seq<Bytes>)
    requires lines != []
    ensures torn + Unlines(lines) == Unlines([torn + lines[0]] + lines[1..])
  {
    var head, later := torn + lines[0], lines[1..];
    UnlinesHead(lines);
    UnlinesHead([head] + later);
    assert ([head] + later)[1..] == later;
    hide Unlines;
    Regroup(torn, lines[0], [LF], Unlines(later));
  }

  lemma Regroup<T>(a: seq<T>, b: seq<T>, c: seq<T>, d: seq<T>)
    ensures a + (b + c + d) == a + b + c + d
  {
  }

  lemma UnlinesHead(lines: seq<Bytes>)
    requires lines != []
    ensures Unlines(lines) == lines[0] + [LF] + Unlines(lines[1..])
  {
  }

  lemma FragmentPlain(w: Write)
    requires w.Valid()
    ensures LF !in w.Rest() && CR !in w.Rest()
    ensures w.Rest() != [] ==> w.Crashed()
    ensures w.Whole() == 0 && w.lines != [] ==> w.Crashed()
    ensures !w.Crashed() ==> w.Whole() == |w.lines|
  {
    CutMeaning(w.lines, w.reached);
    if w.Rest() != [] {
      assert w.lines[w.Whole()] in w.lines;
      assert forall i :: 0 <= i < |w.Rest()| ==> w.Rest()[i] == w.lines[w.Whole()][i];
    }
  }

  lemma PieceAlone(torn: Bytes)
    requires LF !in torn
    ensures LinesOf(torn) == Piece(torn)
  {
    if torn != [] {
      RawLinesOfFragment(torn);
      assert StripAll([torn]) == [torn];
    }
  }

  // The bytes of the file, read line by line, are exactly those lines.
  lemma {:induction false} ReadsBytes(ws: seq<Write>, torn: Bytes)
    requires AllValid(ws) && LF !in torn && CR !in torn
    ensures LinesOf(torn + FileAfter(ws)) == Body(ws, torn) + Piece(LastPiece(ws, torn))
    decreases |ws|
  {
    hide LinesOf, Fragment, WholeLines, Unlines;
    if ws == [] {
      assert torn + FileAfter(ws) == torn;
      PieceAlone(torn);
    } else {
      var w := ws[0];
      assert w in ws && w.Valid();
      assert AllValid(ws[1..]);
      var n, rest := w.Whole(), w.Rest();
      FragmentPlain(w);
      WriteThenRest(w, torn, FileAfter(ws[1..]));
      assert FileAfter(ws) == Unlines(w.lines)[..w.reached] + FileAfter(ws[1..]);
      if n == 0 {
        ReadsBytes(ws[1..], torn + rest);
      } else {
        ReadsBytes(ws[1..], rest);
        AroundTheRest(torn + w.lines[0], w.lines[1..n], Body(ws[1..], rest), Piece(LastPiece(ws[1..], rest)));
      }
    }
  }

  lemma AroundTheRest<T>(x: T, s: seq<T>, b: seq<T>, p: seq<T>)
    ensures [x] + (s + b) + p == [x] + s + (b + p)
  {
  }

  lemma WriteThenRest(w: Write, torn: Bytes, more: Bytes)
    requires w.Valid() && LF !in torn && CR !in torn
    ensures var n := w.Whole();
            var file := torn + (Unlines(w.lines)[..w.reached] + more);
            if n == 0 then file == torn + w.Rest() + more
            else LinesOf(file) == [torn + w.lines[0]] + w.lines[1..n] + LinesOf(w.Rest() + more)
  {
    var n, rest := w.Whole(), w.Rest();
    CutMeaning(w.lines, w.reached);
    hide LinesOf, Fragment, WholeLines;
    var file := torn + (Unlines(w.lines)[..w.reached] + more);
    if n == 0 {
      assert w.lines[..0] == [];
      assert [] + rest == rest;
      assert torn + (rest + more) == torn + rest + more;
    } else {
      UnlinesGlued(torn, w.lines[..n]);
      var g := [torn + w.lines[0]] + w.lines[1..n];
      assert w.lines[..n][1..] == w.lines[1..n];
      assert file == (torn + Unlines(w.lines[..n])) + (rest + more);
      LinesThenRest(g, rest + more);
    }
  }

  lemma LinesThenRest(g: seq<Bytes>, rest: Bytes)
    requires forall l :: l in g ==> LF !in l && CR !in l
    ensures LinesOf(Unlines(g) + rest) == g + LinesOf(rest)
  {
    RawLinesAfterUnlines(g, rest);
    var lines := LinesOf(Unlines(g) + rest);
    forall i | 0 <= i < |g|
      ensures lines[i] == g[i]
    {
      assert g[i] in g;
      StripTerminated(g[i]);
    }
    assert lines == lines[..|g|] + lines[|g|..];
    assert lines[..|g|] == g;
    assert lines[|g|..] == LinesOf(rest);
  }

  // Every line read is one that was kept or a glued line; the glued ones and
  // the piece at the end are no more than the crashes.
  lemma {:induction false} BodyIsKeptAndGlued(ws: seq<Write>, torn: Bytes)
    requires AllValid(ws)
    ensures Merges(Body(ws, torn), Kept(ws, torn), Glued(ws, torn))
    decreases |ws|
  {
    if ws != [] {
      var w := ws[0];
      assert w in ws && w.Valid();
      assert AllValid(ws[1..]);
      var n, rest := w.Whole(), w.Rest();
      if n == 0 {
        BodyIsKeptAndGlued(ws[1..], torn + rest);
      } else {
        BodyIsKeptAndGlued(ws[1..], rest);
        var b, k, g := Body(ws[1..], rest), Kept(ws[1..], rest), Glued(ws[1..], rest);
        MergesLeft(w.lines[1..n], b, k, g);
        FirstOfWrite(w, n, torn, w.lines[1..n] + b, k, g);
      }
    }
  }

  // The first line of a write is kept as it is, or is glued to a piece.
  lemma FirstOfWrite(w: Write, n: nat, torn: Bytes, s: seq<Bytes>, k: seq<Bytes>, g: seq<Bytes>)
    requires 0 < n <= |w.lines|
    requires Merges(s, w.lines[1..n] + k, g)
    ensures Merges([torn + w.lines[0]] + s, w.lines[if torn == [] then 0 else 1..n] + k,
                   (if torn == [] then [] else [torn + w.lines[0]]) + g)
  {
    if torn == [] {
      assert torn + w.lines[0] == w.lines[0];
      MergesLeft([w.lines[0]], s, w.lines[1..n] + k, g);
      assert w.lines[0..n] + k == [w.lines[0]] + (w.lines[1..n] + k);
      assert [] + g == g;
    } else {
      MergesRight([torn + w.lines[0]], s, w.lines[1..n] + k, g);
    }
  }

  lemma {:induction false} GluedNoMoreThanCrashes(ws: seq<Write>, torn: Bytes)
    requires AllValid(ws)
    ensures |Glued(ws, torn)| + |Piece(LastPiece(ws, torn))| <= Crashes(ws) + |Piece(torn)|
    decreases |ws|
  {
    if ws != [] {
      var w := ws[0];
      assert w in ws && w.Valid();
      assert AllValid(ws[1..]);
      FragmentPlain(w);
      GluedNoMoreThanCrashes(ws[1..], if w.Whole() == 0 then torn + w.Rest() else w.Rest());
    }
  }

  // Every line is kept or lost, and the order is the order of writing.
  lemma {:induction false} KeptAndLost(ws: seq<Write>, torn: Bytes)
    requires AllValid(ws)
    ensures Merges(AllLines(ws), Kept(ws, torn), Lost(ws, torn))
    decreases |ws|
  {
    if ws != [] {
      var w := ws[0];
      assert w in ws && w.Valid();
      assert AllValid(ws[1..]);
      var n, rest := w.Whole(), w.Rest();
      if n == 0 {
        KeptAndLost(ws[1..], torn + rest);
        MergesRight(w.lines, AllLines(ws[1..]), Kept(ws[1..], torn + rest), Lost(ws[1..], torn + rest));
      } else {
        KeptAndLost(ws[1..], rest);
        LinesOfWrite(w, n, torn, AllLines(ws[1..]), Kept(ws[1..], rest), Lost(ws[1..], rest));
      }
    }
  }

  lemma LinesOfWrite(w: Write, n: nat, torn: Bytes, more: seq<Bytes>, k: seq<Bytes>, l: seq<Bytes>)
    requires 0 < n <= |w.lines|
    requires Merges(more, k, l)
    ensures Merges(w.lines + more, w.lines[if torn == [] then 0 else 1..n] + k,
                   (if torn == [] then [] else [w.lines[0]]) + w.lines[n..] + l)
  {
    hide Merges;
    var a, b, d := w.lines[..if torn == [] then 0 else 1], w.lines[if torn == [] then 0 else 1..n], w.lines[n..];
    assert w.lines == a + b + d;
    assert a == if torn == [] then [] else [w.lines[0]];
    MergesThree(a, b, d, more, k, l);
  }

  lemma MergesThree<T(!new)>(a: seq<T>, b: seq<T>, d: seq<T>, more: seq<T>, k: seq<T>, l: seq<T>)
    requires Merges(more, k, l)
    ensures Merges(a + b + d + more, b + k, a + d + l)
  {
    hide Merges;
    MergesRight(d, more, k, l);
    MergesLeft(b, d + more, k, d + l);
    MergesRight(a, b + (d + more), b + k, d + l);
    assert a + b + d + more == a + (b + (d + more));
    assert a + d + l == a + (d + l);
  }

  // With no crash at all, nothing is lost.
  lemma {:induction false} NoCrashNothingLost(ws: seq<Write>)
    requires AllValid(ws) && Crashes(ws) == 0
    ensures Kept(ws, []) == AllLines(ws) && Lost(ws, []) == [] && LastPiece(ws, []) == []
    decreases |ws|
  {
    if ws != [] {
      hide WholeLines, Fragment, Unlines;
      var w := ws[0];
      assert w in ws && w.Valid();
      assert AllValid(ws[1..]);
      FragmentPlain(w);
      assert w.Rest() == [] && [] + w.Rest() == [] && w.lines[..|w.lines|] == w.lines;
      NoCrashNothingLost(ws[1..]);
    }
  }

  // What a reader takes from the log: the values of the kept lines in order,
  // among them those of glued lines that happen to be values; and then that of
  // the unfinished last line, if it is one.
  lemma {:induction false} ReaderSees<M(!new)>(c: Codec<M>, ws: seq<Write>) returns (body: seq<M>)
    requires AllValid(ws)
    ensures Merges(body, Parse(c, Kept(ws, [])), Parse(c, Glued(ws, [])))
    ensures ParseFile(c, FileAfter(ws)) == body + Parse(c, Piece(LastPiece(ws, [])))
    ensures |Glued(ws, [])| + |Piece(LastPiece(ws, []))| <= Crashes(ws)
  {
    hide Merges, Parse, LinesOf;
    ReadsBytes(ws, []);
    assert [] + FileAfter(ws) == FileAfter(ws);
    BodyIsKeptAndGlued(ws, []);
    GluedNoMoreThanCrashes(ws, []);
    ParseMerged(c, Body(ws, []), Kept(ws, []), Glued(ws, []));
    ParseConcat(c, Body(ws, []), Piece(LastPiece(ws, [])));
    body := Parse(c, Body(ws, []));
  }

  // When no glued line is a value it is the kept ones, and no more.
  lemma {:induction false} ReaderSeesKept<M(!new)>(c: Codec<M>, ws: seq<Write>)
    requires AllValid(ws)
    requires Parse(c, Glued(ws, [])) == []
    ensures ParseFile(c, FileAfter(ws)) == Parse(c, Kept(ws, [])) + Parse(c, Piece(LastPiece(ws, [])))
  {
    hide Parse;
    var body := ReaderSees(c, ws);
    MergesNothing(body, Parse(c, Kept(ws, [])));
  }

  lemma {:induction false} MergesNothing<T(!new)>(s: seq<T>, a: seq<T>)
    requires Merges(s, a, [])
    ensures s == a
  {
    if s != [] {
      MergesNothing(s[1..], a[1..]);
    }
  }

  lemma {:induction false} ParseMerged<M(!new)>(c: Codec<M>, s: seq<Bytes>, a: seq<Bytes>, b: seq<Bytes>)
    requires Merges(s, a, b)
    ensures Merges(Parse(c, s), Parse(c, a), Parse(c, b))
    decreases |s|
  {
    if s != [] {
      ParseHead(c, s);
      if a != [] && s[0] == a[0] && Merges(s[1..], a[1..], b) {
        ParseMerged(c, s[1..], a[1..], b);
        ParseHead(c, a);
        hide Parse, Merges;
        MergesLeft(Parsed(c, s[0]), Parse(c, s[1..]), Parse(c, a[1..]), Parse(c, b));
      } else {
        ParseMerged(c, s[1..], a, b[1..]);
        ParseHead(c, b);
        hide Parse, Merges;
        MergesRight(Parsed(c, s[0]), Parse(c, s[1..]), Parse(c, a), Parse(c, b[1..]));
      }
    }
  }

  // ── which of its lines are text ────────────────────────────────────

  lemma {:induction false} MergesMembers<T(!new)>(s: seq<T>, a: seq<T>, b: seq<T>)
    requires Merges(s, a, b)
    ensures forall x :: x in s <==> x in a || x in b
    decreases |s|
  {
    if s != [] {
      if a != [] && s[0] == a[0] && Merges(s[1..], a[1..], b) {
        MergesMembers(s[1..], a[1..], b);
        assert s == [s[0]] + s[1..] && a == [a[0]] + a[1..];
      } else {
        MergesMembers(s[1..], a, b[1..]);
        assert s == [s[0]] + s[1..] && b == [b[0]] + b[1..];
      }
    }
  }

  lemma {:induction false} WrittenLines(ws: seq<Write>, l: Bytes)
    requires l in AllLines(ws)
    ensures exists w :: w in ws && l in w.lines
    decreases |ws|
  {
    if l !in ws[0].lines {
      WrittenLines(ws[1..], l);
    }
  }

  // When what was written is text, every line of the file is, but for glued
  // ones and the last piece: a crash may have cut a character in two.
  lemma {:induction false} AllText<M(!new)>(c: Codec<M>, ws: seq<Write>)
    requires AllValid(ws) && forall w, l :: w in ws && l in w.lines ==> c.isText(l)
    ensures (forall l :: l in LinesOf(FileAfter(ws)) ==> c.isText(l))
            <==> forall l :: l in Glued(ws, []) + Piece(LastPiece(ws, [])) ==> c.isText(l)
  {
    hide Merges, LinesOf;
    ReadsBytes(ws, []);
    assert [] + FileAfter(ws) == FileAfter(ws);
    BodyIsKeptAndGlued(ws, []);
    MergesMembers(Body(ws, []), Kept(ws, []), Glued(ws, []));
    KeptAndLost(ws, []);
    MergesMembers(AllLines(ws), Kept(ws, []), Lost(ws, []));
    forall l | l in Kept(ws, [])
      ensures c.isText(l)
    {
      WrittenLines(ws, l);
    }
  }

  // A crash can cost a line of an append that finished: the first one after
  // the piece, whatever it is.
  lemma {:induction false} NextLineIsLost(first: Bytes, second: Bytes, cut: nat)
    requires LF !in first && CR !in first && LF !in second && CR !in second
    requires 0 < cut <= |first|
    ensures var ws := [Write([first], cut), Write([second], |second| + 1)];
            AllValid(ws) && Crashes(ws) == 1
            && LinesOf(FileAfter(ws)) == [first[..cut] + second]
            && Lost(ws, []) == [first, second]
  {
    var w0, w1 := Write([first], cut), Write([second], |second| + 1);
    var ws, piece := [w0, w1], first[..cut];
    TornInside(first, cut);
    WrittenWhole(second);
    assert ws[1..] == [w1] && [w1][1..] == [] && [] + piece == piece;
    hide WholeLines, Fragment, Unlines, LinesOf, FileAfter;
    AfterTorn(w1, second, piece);
    ReadsBytes(ws, []);
    assert [] + FileAfter(ws) == FileAfter(ws);
    assert Body(ws, []) == Body([w1], piece) && LastPiece(ws, []) == LastPiece([w1], piece);
    assert Lost(ws, []) == [first] + Lost([w1], piece);
    assert Crashes(ws) == 1 + Crashes([w1]);
  }

  lemma TornInside(line: Bytes, cut: nat)
    requires LF !in line && CR !in line && cut <= |line|
    ensures var w := Write([line], cut);
            w.Valid() && w.Crashed() && w.Whole() == 0 && w.Rest() == line[..cut]
  {
    assert Unlines([line]) == line + [LF];
  }

  lemma WrittenWhole(line: Bytes)
    requires LF !in line && CR !in line
    ensures var w := Write([line], |line| + 1);
            w.Valid() && !w.Crashed() && w.Whole() == 1 && w.Rest() == []
  {
    assert Unlines([line]) == line + [LF];
    assert [line][1..] == [];
    assert WholeLines([line], |line| + 1) == 1 + WholeLines([], 0);
    assert Fragment([line], |line| + 1) == Fragment([], 0);
  }

  // One whole line, written after a piece.
  lemma AfterTorn(w: Write, line: Bytes, piece: Bytes)
    requires w == Write([line], |line| + 1) && piece != []
    requires w.Valid() && !w.Crashed() && w.Whole() == 1 && w.Rest() == []
    ensures AllValid([w]) && Body([w], piece) == [piece + line] && LastPiece([w], piece) == []
    ensures Lost([w], piece) == [line] && Crashes([w]) == 0
  {
    hide WholeLines, Fragment, Unlines;
    assert [w][1..] == [] && [line][1..1] == [] && [line][1..] == [];
    assert Body([w], piece) == [piece + line] + ([line][1..1] + Body([], []));
    assert Lost([w], piece) == [line] + [line][1..] + Lost([], []);
  }
}
