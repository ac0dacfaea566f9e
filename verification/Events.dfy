// Webhook redeliveries: which event ids count as seen.

module Events {
  import opened Wrappers
  import opened Lines
  import opened Tail

  // How many delivered event ids are remembered.
  const EVENTS_REMEMBERED: nat := 10_000
  // Past this many bytes the file is rewritten.
  const BIG: nat := EVENTS_REMEMBERED * 2 * 64

  // Reading a written line back can only lose white space at its end.
  lemma StripKeepsTrim(l: Bytes)
    ensures Trim(Strip(l + [LF])) == Trim(l)
  {
    var raw := l + [LF];
    assert raw[..|raw| - 1] == l;
    if l != [] && l[|l| - 1] == CR {
      assert raw[..|raw| - 2] == l[..|l| - 1];
    }
  }

  // Two lists of lines that agree once each line is trimmed.
  ghost predicate SameTrimmed(a: seq<Bytes>, b: seq<Bytes>) {
    |a| == |b| && forall i :: 0 <= i < |a| ==> Trim(a[i]) == Trim(b[i])
  }

  lemma ReadBackTrimmed(lines: seq<Bytes>)
    requires forall l :: l in lines ==> OneLine(l)
    ensures SameTrimmed(LinesOf(Unlines(lines)), lines)
    ensures forall l :: l in LinesOf(Unlines(lines)) ==> OneLine(l)
  {
    RawLinesAfterUnlines(lines, []);
    assert Unlines(lines) + [] == Unlines(lines);
    assert Terminated(lines) + [] == Terminated(lines);
    forall i | 0 <= i < |lines|
      ensures Trim(LinesOf(Unlines(lines))[i]) == Trim(lines[i])
      ensures OneLine(LinesOf(Unlines(lines))[i])
    {
      assert lines[i] in lines;
      StripKeepsTrim(lines[i]);
    }
  }

  // The lines an id makes in the file: one, unless it has newlines of its own.
  function Pieces(id: Bytes): (ps: seq<Bytes>)
    ensures ps != [] && forall l :: l in ps ==> OneLine(l)
    ensures OneLine(id) ==> ps == [id]
    decreases |id|
  {
    if LF !in id then [id]
    else
      var n := FirstLineLength(id);
      assert id[n - 1] == LF;
      [id[..n - 1]] + Pieces(id[n..])
  }

  lemma {:induction false} PiecesWritten(id: Bytes)
    ensures Unlines(Pieces(id)) == id + [LF]
    decreases |id|
  {
    hide FirstLineLength;
    if LF !in id {
      assert Unlines([id]) == id + [LF] + Unlines([]);
    } else {
      var n := FirstLineLength(id);
      assert id[n - 1] == LF;
      PiecesWritten(id[n..]);
      assert id == id[..n - 1] + [LF] + id[n..];
      assert Unlines(Pieces(id)) == id[..n - 1] + [LF] + Unlines(Pieces(id[n..]));
    }
  }

  ghost predicate AmongTrimmed(id: Bytes, lines: seq<Bytes>) {
    exists i :: 0 <= i < |lines| && Trim(lines[i]) == id
  }

  lemma SameTrimmedSameAnswer(id: Bytes, a: seq<Bytes>, b: seq<Bytes>)
    requires SameTrimmed(a, b)
    ensures AmongTrimmed(id, a) <==> AmongTrimmed(id, b)
  {
  }

  method AnyTrimmed(lines: seq<Bytes>, id: Bytes) returns (b: bool)
    ensures b <==> AmongTrimmed(id, lines)
  {
    for i := 0 to |lines|
      invariant !AmongTrimmed(id, lines[..i])
    {
      if Trim(lines[i]) == id {
        return true;
      }
    }
    assert lines[..|lines|] == lines;
    return false;
  }

  // The text of lines joined by newlines, with one more newline at the end.
  function Joined(lines: seq<Bytes>): Bytes {
    (if lines == [] then [] else if |lines| == 1 then lines[0] else lines[0] + JoinRest(lines[1..])) + [LF]
  }

  function JoinRest(lines: seq<Bytes>): Bytes {
    if lines == [] then [] else [LF] + lines[0] + JoinRest(lines[1..])
  }

  lemma {:induction false} JoinRestIsUnlines(lines: seq<Bytes>)
    ensures JoinRest(lines) + [LF] == [LF] + Unlines(lines)
  {
    if lines != [] {
      JoinRestIsUnlines(lines[1..]);
      calc {
        JoinRest(lines) + [LF];
        [LF] + lines[0] + (JoinRest(lines[1..]) + [LF]);
        [LF] + lines[0] + ([LF] + Unlines(lines[1..]));
        [LF] + Unlines(lines);
      }
    }
  }

  lemma JoinedIsUnlines(lines: seq<Bytes>)
    requires lines != []
    ensures Joined(lines) == Unlines(lines)
  {
    JoinRestIsUnlines(lines[1..]);
    if |lines| == 1 {
      assert lines[1..] == [];
    } else {
      calc {
        Joined(lines);
        lines[0] + (JoinRest(lines[1..]) + [LF]);
        lines[0] + ([LF] + Unlines(lines[1..]));
        Unlines(lines);
      }
    }
  }

  // The lines of the file are at least the ids that count, and may be older
  // ones too.
  ghost predicate Agree(kept: seq<Bytes>, ids: seq<Bytes>) {
    && (forall l :: l in ids ==> OneLine(l))
    && (forall l :: l in kept ==> OneLine(l))
    && |kept| <= |ids|
    && (|kept| >= EVENTS_REMEMBERED || |kept| == |ids|)
    && SameTrimmed(kept, Last(ids, |kept|))
  }

  lemma AgreeAppend(kept: seq<Bytes>, ids: seq<Bytes>, more: seq<Bytes>)
    requires Agree(kept, ids) && forall l :: l in more ==> OneLine(l)
    ensures Agree(kept + more, ids + more)
  {
    hide SameTrimmed;
    assert Last(ids + more, |kept| + |more|) == Last(ids, |kept|) + more;
    SameTrimmedAndMore(kept, Last(ids, |kept|), more);
  }

  lemma SameTrimmedAndMore(a: seq<Bytes>, b: seq<Bytes>, more: seq<Bytes>)
    requires SameTrimmed(a, b)
    ensures SameTrimmed(a + more, b + more)
  {
    hide Trim;
  }

  lemma AgreeTrim(kept: seq<Bytes>, ids: seq<Bytes>, keep: seq<Bytes>)
    requires Agree(kept, ids)
    requires keep == Last(LinesOf(Unlines(kept)), EVENTS_REMEMBERED)
    ensures Agree(keep, ids)
    ensures kept != [] ==> keep != []
    ensures SameTrimmed(keep, Last(ids, EVENTS_REMEMBERED))
  {
    ReadBackTrimmed(kept);
    LastLinesAgree(LinesOf(Unlines(kept)), kept, ids);
  }

  // The file of delivered ids, and what was put into it.
  class EventLog {
    var seen: Option<Bytes>
    var tmp: Option<Bytes>
    // The lines of every id remembered so far, oldest first.
    ghost var ids: seq<Bytes>
    // The lines the file holds now.
    ghost var kept: seq<Bytes>

    ghost predicate Valid()
      reads this
    {
      && Agree(kept, ids)
      && (seen.None? ==> ids == kept == [])
      && (seen.Some? ==> seen.value == Unlines(kept))
    }

    constructor ()
      ensures Valid() && ids == []
    {
      seen, tmp, ids, kept := None, None, [], [];
    }

    ghost predicate Fits(extra: nat)
      reads this
    {
      (if seen.None? then 0 else |seen.value|) + extra <= U64_MAX
    }

    // Whether an id has been delivered before.
    method EventSeen(id: Bytes) returns (b: bool)
      requires Valid() && Fits(0)
      ensures b <==> AmongTrimmed(id, Last(ids, EVENTS_REMEMBERED))
    {
      if seen.None? {
        return false;
      }
      var lines, _ := TailLines(seen.value, EVENTS_REMEMBERED);
      AgreeTrim(kept, ids, lines);
      SameTrimmedSameAnswer(id, lines, Last(ids, EVENTS_REMEMBERED));
      b := AnyTrimmed(lines, id);
    }

    // Remember an id. The process may die after any number of the file
    // operations; `alive` is how many it gets to finish.
    method RememberEvent(id: Bytes, alive: nat)
      requires Valid() && Fits(|id| + 1)
      modifies this
      ensures Valid()
      ensures ids == if alive == 0 then old(ids) else old(ids) + Pieces(id)
    {
      if alive == 0 {
        return;
      }
      Append(id);
      var big := |seen.value| > BIG;
      if big {
        Rewrite(alive - 1);
      }
    }

    // Keep only the ids that count, through a temporary and a rename.
    method Rewrite(alive: nat)
      requires Valid() && Fits(0) && seen.Some? && kept != []
      modifies this
      ensures Valid() && ids == old(ids)
      ensures alive >= 2 ==> |kept| == |Last(old(kept), EVENTS_REMEMBERED)|
    {
      var keep, _ := TailLines(seen.value, EVENTS_REMEMBERED);
      AgreeTrim(kept, ids, keep);
      JoinedIsUnlines(keep);
      if alive == 0 {
        return;
      }
      tmp := Some(Joined(keep));
      if alive == 1 {
        return;
      }
      seen, tmp := tmp, None;
      kept := keep;
    }

    method Append(id: Bytes)
      requires Valid() && Fits(|id| + 1)
      modifies this
      ensures Valid() && Fits(0) && seen.Some? && kept != []
      ensures ids == old(ids) + Pieces(id) && kept == old(kept) + Pieces(id)
    {
      hide Agree, Pieces, Unlines;
      PiecesWritten(id);
      UnlinesConcat(kept, Pieces(id));
      AgreeAppend(kept, ids, Pieces(id));
      NothingWritten();
      if seen.None? {
        seen := Some([]);
      }
      seen := Some(seen.value + (id + [LF]));
      ids := ids + Pieces(id);
      kept := kept + Pieces(id);
    }
  }

  lemma LastLinesAgree(lines: seq<Bytes>, kept: seq<Bytes>, ids: seq<Bytes>)
    requires SameTrimmed(lines, kept)
    requires |kept| <= |ids| && (|kept| >= EVENTS_REMEMBERED || |kept| == |ids|)
    requires SameTrimmed(kept, Last(ids, |kept|))
    ensures SameTrimmed(Last(lines, EVENTS_REMEMBERED), Last(ids, EVENTS_REMEMBERED))
  {
    hide Trim;
    var a, b := Last(lines, EVENTS_REMEMBERED), Last(ids, EVENTS_REMEMBERED);
    forall i | 0 <= i < |a|
      ensures Trim(a[i]) == Trim(b[i])
    {
      var j := |lines| - |a| + i;
      assert a[i] == lines[j];
      assert Trim(lines[j]) == Trim(kept[j]);
      assert b[i] == ids[|ids| - |kept| + j];
    }
  }

  // For ids that are trimmed, as a provider sends them, the answer is plain
  // membership among the last ids remembered.
  lemma {:induction false} TrimmedMembership(id: Bytes, ids: seq<Bytes>)
    requires forall e :: e in ids ==> Trim(e) == e
    ensures AmongTrimmed(id, ids) <==> id in ids
  {
    if id in ids {
      var i :| 0 <= i < |ids| && ids[i] == id;
      assert Trim(ids[i]) == id;
    }
  }

  // An id with white space at an end is never seen again.
  lemma {:induction false} UntrimmedNeverSeen(id: Bytes, ids: seq<Bytes>)
    requires Trim(id) != id
    ensures !AmongTrimmed(id, ids)
  {
    forall i | 0 <= i < |ids| && Trim(ids[i]) == id
      ensures false
    {
      TrimTwice(ids[i]);
    }
  }

  lemma {:induction false} TrimKeeps(l: Bytes)
    ensures forall b :: b in Trim(l) ==> b in l
  {
    TrimEndKeeps(l);
    TrimStartKeeps(TrimEnd(l));
  }

  lemma {:induction false} TrimEndKeeps(l: Bytes)
    ensures forall b :: b in TrimEnd(l) ==> b in l
    decreases |l|
  {
    hide SpaceAtEnd;
    var n := SpaceAtEnd(l);
    if n > 0 {
      TrimEndKeeps(l[..|l| - n]);
    }
  }

  lemma {:induction false} TrimStartKeeps(l: Bytes)
    ensures forall b :: b in TrimStart(l) ==> b in l
    decreases |l|
  {
    hide SpaceAtStart;
    var n := SpaceAtStart(l);
    if n > 0 {
      TrimStartKeeps(l[n..]);
    }
  }

  // Nor is one with a newline in it.
  lemma {:induction false} MultiLineNeverSeen(id: Bytes, lines: seq<Bytes>)
    requires !OneLine(id) && forall l :: l in lines ==> OneLine(l)
    ensures !AmongTrimmed(id, lines)
  {
    forall i | 0 <= i < |lines|
      ensures Trim(lines[i]) != id
    {
      assert lines[i] in lines;
      TrimKeeps(lines[i]);
    }
  }

  // So an id that was just remembered is recognised exactly when it is one line
  // without white space at its ends.
  lemma {:induction false} RecognisedExactly(id: Bytes)
    ensures AmongTrimmed(id, Pieces(id)) <==> OneLine(id) && Trim(id) == id
  {
    hide Trim;
    if !OneLine(id) {
      MultiLineNeverSeen(id, Pieces(id));
    } else if Trim(id) != id {
      UntrimmedNeverSeen(id, Pieces(id));
    } else {
      assert Trim(Pieces(id)[0]) == id;
    }
  }

  lemma {:induction false} TrimTwice(l: Bytes)
    ensures Trim(Trim(l)) == Trim(l)
  {
    hide SpaceAtStart, SpaceAtEnd;
    TrimEndEnds(l);
    var k := TrimStartSuffix(TrimEnd(l));
    SuffixEnds(TrimEnd(l), k);
  }

  lemma {:induction false} TrimEndEnds(l: Bytes)
    ensures SpaceAtEnd(TrimEnd(l)) == 0
    decreases |l|
  {
    hide SpaceAtEnd;
    var n := SpaceAtEnd(l);
    if n > 0 {
      TrimEndEnds(l[..|l| - n]);
    }
  }

  lemma {:induction false} TrimStartSuffix(l: Bytes) returns (k: nat)
    ensures k <= |l| && TrimStart(l) == l[k..] && SpaceAtStart(l[k..]) == 0
    decreases |l|
  {
    hide SpaceAtStart;
    var n := SpaceAtStart(l);
    if n > 0 {
      k := TrimStartSuffix(l[n..]);
      assert l[n..][k..] == l[n + k..];
      k := n + k;
    } else {
      k := 0;
      assert l[0..] == l;
    }
  }

  lemma SuffixEnds(l: Bytes, k: nat)
    requires k <= |l| && SpaceAtEnd(l) == 0
    ensures SpaceAtEnd(l[k..]) == 0
  {
    var t := l[k..];
    assert forall i :: 0 <= i < |t| ==> t[i] == l[k + i];
  }
}
