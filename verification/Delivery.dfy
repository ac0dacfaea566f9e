// Webhook events posted to an account, each perhaps many times: which posts
// start work.

module Delivery {
  import opened Lines
  import opened Events

  // How far a post got before its process died: through some of the routines
  // it was to run, or to the end, where the id is remembered.
  datatype Reached = During(ran: nat) | End

  // An event with an id, and how many routines it matches.
  datatype Post = Post(id: Bytes, hits: nat, reached: Reached)
  {
    // The routines run for it, when it is not known.
    function Runs(): seq<Work> {
      FirstOf(id, if reached.End? || reached.ran > hits then hits else reached.ran)
    }
  }

  datatype Work = Work(id: Bytes, routine: nat)

  // The first n routines run for an id.
  function FirstOf(id: Bytes, n: nat): (ws: seq<Work>)
    ensures |ws| == n && forall j :: 0 <= j < n ==> ws[j] == Work(id, j)
  {
    seq(n, j requires 0 <= j < n => Work(id, j))
  }

  // The lines of the ids remembered, and the work done, each oldest first.
  datatype State = State(ids: seq<Bytes>, work: seq<Work>)

  ghost predicate Known(s: State, id: Bytes) {
    AmongTrimmed(id, Lines.Last(s.ids, EVENTS_REMEMBERED))
  }

  ghost function Posted(s: State, p: Post): State {
    State(
      if p.reached.End? then s.ids + Pieces(p.id) else s.ids,
      if Known(s, p.id) then s.work else s.work + p.Runs())
  }

  ghost function After(posts: seq<Post>): State {
    if posts == [] then State([], [])
    else Posted(After(posts[..|posts| - 1]), posts[|posts| - 1])
  }

  // The account's gate: ask, work, remember.
  class Gate {
    const log: EventLog
    var work: seq<Work>

    constructor ()
      ensures fresh(log) && log.Valid() && State(log.ids, work) == After([])
    {
      log := new EventLog();
      work := [];
    }

    // The process lives through `ran` routines, and then through `alive` file
    // operations.
    method Receive(id: Bytes, hits: nat, ran: nat, alive: nat) returns (ghost p: Post)
      requires log.Valid() && log.Fits(|id| + 1)
      modifies this, log
      ensures log.Valid() && p.id == id && p.hits == hits
      ensures State(log.ids, work) == Posted(old(State(log.ids, work)), p)
      ensures var known := old(Known(State(log.ids, work), id));
              && p.reached == (if (!known && ran < hits) || alive == 0 then During(ran) else End)
              && |work| == |old(work)| + (if known then 0 else if ran < hits then ran else hits)
              && (forall j :: 0 <= j < |old(work)| ==> work[j] == old(work)[j])
              && (forall j :: |old(work)| <= j < |work| ==> work[j] == Work(id, j - |old(work)|))
    {
      hide AmongTrimmed, Pieces;
      var seen := log.EventSeen(id);
      var matched := if seen then 0 else hits;
      p := Post(id, hits, if ran < matched || alive == 0 then During(ran) else End);
      NoneRun(id);
      RunRoutines(id, matched, ran);
      if ran >= matched {
        log.RememberEvent(id, alive);
      }
    }

    // Run the routines an event matched, as far as the process lives.
    method RunRoutines(id: Bytes, matched: nat, ran: nat)
      modifies `work
      ensures work == old(work) + FirstOf(id, if ran < matched then ran else matched)
    {
      var j := 0;
      while j < matched && j < ran
        invariant j <= matched && j <= ran
        invariant work == old(work) + FirstOf(id, j)
      {
        assert FirstOf(id, j + 1) == FirstOf(id, j) + [Work(id, j)];
        work := work + [Work(id, j)];
        j := j + 1;
      }
    }
  }

  lemma NoneRun(id: Bytes)
    ensures FirstOf(id, 0) == []
  {
  }

  lemma AfterOneMore(posts: seq<Post>, p: Post)
    ensures After(posts + [p]) == Posted(After(posts), p)
  {
    assert (posts + [p])[..|posts|] == posts;
  }

  // Every routine that a post matched has been run for it.
  ghost predicate Done(p: Post, work: seq<Work>) {
    p.reached.End? && forall j :: 0 <= j < p.hits ==> Work(p.id, j) in work
  }

  // Remembering the one id makes the other known.
  ghost predicate Covers(id: Bytes, other: Bytes) {
    id == other || AmongTrimmed(other, Pieces(id))
  }

  // A line remembered comes from a post whose work is done.
  ghost predicate Sourced(l: Bytes, posts: seq<Post>, work: seq<Work>) {
    exists q, k :: q in posts && Done(q, work) && LineOf(q.id, k, l)
  }

  ghost predicate LineOf(id: Bytes, k: int, l: Bytes) {
    0 <= k < |Pieces(id)| && (Pieces(id)[k] == l || Trim(Pieces(id)[k]) == l)
  }

  lemma SourcedMore(l: Bytes, posts: seq<Post>, p: Post, work: seq<Work>, more: seq<Work>)
    requires Sourced(l, posts, work)
    ensures Sourced(l, posts + [p], work + more)
  {
    var q, k :| q in posts && Done(q, work) && LineOf(q.id, k, l);
    assert q in posts + [p] && Done(q, work + more);
  }

  // What is known is known because of such a post.
  lemma KnownBy(s: State, posts: seq<Post>, id: Bytes) returns (q: Post)
    requires Known(s, id) && forall l :: l in s.ids ==> Sourced(l, posts, s.work)
    ensures q in posts && Done(q, s.work) && AmongTrimmed(id, Pieces(q.id))
  {
    hide Pieces, Done;
    var last := Lines.Last(s.ids, EVENTS_REMEMBERED);
    var i :| 0 <= i < |last| && Trim(last[i]) == id;
    assert last[i] in s.ids;
    var k: int;
    q, k :| q in posts && Done(q, s.work) && LineOf(q.id, k, last[i]);
    TrimTwice(Pieces(q.id)[k]);
    assert Trim(Pieces(q.id)[k]) == id;
  }

  lemma {:induction false} EveryLineSourced(posts: seq<Post>)
    ensures forall l :: l in After(posts).ids ==> Sourced(l, posts, After(posts).work)
    decreases |posts|
  {
    if posts != [] {
      var before, p := posts[..|posts| - 1], posts[|posts| - 1];
      var s := After(before);
      EveryLineSourced(before);
      LinesOnly(before);
      assert posts == before + [p];
      AfterOneMore(before, p);
      var more := if Known(s, p.id) then [] else p.Runs();
      assert After(posts).work == s.work + more;
      forall l | l in After(posts).ids
        ensures Sourced(l, posts, After(posts).work)
      {
        if l in s.ids {
          SourcedMore(l, before, p, s.work, more);
        } else {
          NewLineSourced(s, before, p, l);
        }
      }
    }
  }

  lemma NewLineSourced(s: State, before: seq<Post>, p: Post, l: Bytes)
    requires p.reached.End? && l in Pieces(p.id)
    requires forall e :: e in s.ids ==> Sourced(e, before, s.work) && OneLine(e)
    ensures Sourced(l, before + [p], Posted(s, p).work)
  {
    hide Pieces;
    var k :| 0 <= k < |Pieces(p.id)| && Pieces(p.id)[k] == l;
    if Known(s, p.id) {
      var q := KnownBy(s, before, p.id);
      KnownIsOneLine(s, p.id);
      assert l == p.id;
      var j :| 0 <= j < |Pieces(q.id)| && Trim(Pieces(q.id)[j]) == p.id;
      assert q in before + [p] && LineOf(q.id, j, l);
    } else {
      var work := s.work + p.Runs();
      assert forall j :: 0 <= j < p.hits ==> p.Runs()[j] == Work(p.id, j) && p.Runs()[j] in work;
      assert p in before + [p] && Done(p, work) && LineOf(p.id, k, l);
    }
  }

  lemma KnownIsOneLine(s: State, id: Bytes)
    requires Known(s, id) && forall l :: l in s.ids ==> OneLine(l)
    ensures OneLine(id)
  {
    if !OneLine(id) {
      MultiLineNeverSeen(id, Lines.Last(s.ids, EVENTS_REMEMBERED));
    }
  }

  lemma {:induction false} LinesOnly(posts: seq<Post>)
    ensures forall l :: l in After(posts).ids ==> OneLine(l)
    decreases |posts|
  {
    hide Known, OneLine;
    if posts != [] {
      LinesOnly(posts[..|posts| - 1]);
    }
  }

  // A post that got to the end stands for work that was done in full: for this
  // post, or for one whose id makes this one known. Nothing is remembered
  // without its work.
  lemma {:induction false} RememberedWasWorked(posts: seq<Post>, p: Post) returns (q: Post)
    requires p in posts && p.reached.End?
    ensures q in posts && Done(q, After(posts).work) && Covers(q.id, p.id)
    decreases |posts|
  {
    var before, last := posts[..|posts| - 1], posts[|posts| - 1];
    var s := After(before);
    assert posts == before + [last];
    AfterOneMore(before, last);
    if p in before {
      q := RememberedWasWorked(before, p);
    } else if Known(s, p.id) {
      EveryLineSourced(before);
      q := KnownBy(s, before, p.id);
    } else {
      q := p;
      assert forall j :: 0 <= j < p.hits ==> p.Runs()[j] in After(posts).work;
    }
  }

  lemma {:induction false} IdsGrow(posts: seq<Post>, more: seq<Post>)
    ensures After(posts).ids <= After(posts + more).ids
    decreases |more|
  {
    hide Known, Pieces, After;
    if more == [] {
      assert posts + more == posts;
    } else {
      var front, last := more[..|more| - 1], more[|more| - 1];
      IdsGrow(posts, front);
      AfterOneMore(posts + front, last);
      assert posts + more == (posts + front) + [last];
    }
  }

  // After a post that got to the end, an id it makes known starts no work until
  // ten thousand lines, counting its own, have been remembered.
  lemma {:induction false} NoSecondWork(posts: seq<Post>, i: nat, p: Post)
    requires i < |posts| && posts[i].reached.End? && AmongTrimmed(p.id, Pieces(posts[i].id))
    requires |After(posts).ids| - |After(posts[..i]).ids| <= EVENTS_REMEMBERED
    ensures After(posts + [p]).work == After(posts).work
  {
    hide After, AmongTrimmed, Lines.Last, Pieces;
    LinesStay(posts, i);
    StillAmong(After(posts).ids, After(posts[..i]).ids, Pieces(posts[i].id), p.id);
    AfterOneMore(posts, p);
  }

  lemma LinesStay(posts: seq<Post>, i: nat)
    requires i < |posts| && posts[i].reached.End?
    ensures After(posts[..i]).ids + Pieces(posts[i].id) <= After(posts).ids
  {
    hide *;
    SplitAround(posts, i);
    LinesAdded(posts[..i], posts[i]);
    IdsGrow(posts[..i] + [posts[i]], posts[i + 1..]);
  }

  lemma SplitAround<T>(s: seq<T>, i: nat)
    requires i < |s|
    ensures s == (s[..i] + [s[i]]) + s[i + 1..]
  {
  }

  lemma LinesAdded(posts: seq<Post>, p: Post)
    requires p.reached.End?
    ensures After(posts + [p]).ids == After(posts).ids + Pieces(p.id)
  {
    hide After, Known, Pieces;
    AfterOneMore(posts, p);
  }

  lemma StillAmong(ids: seq<Bytes>, before: seq<Bytes>, ps: seq<Bytes>, id: Bytes)
    requires before + ps <= ids && |ids| - |before| <= EVENTS_REMEMBERED && AmongTrimmed(id, ps)
    ensures AmongTrimmed(id, Lines.Last(ids, EVENTS_REMEMBERED))
  {
    hide Trim;
    var k :| 0 <= k < |ps| && Trim(ps[k]) == id;
    var last := Lines.Last(ids, EVENTS_REMEMBERED);
    var at := |before| + k;
    assert ids[at] == (before + ps)[at] == ps[k];
    assert last[at - (|ids| - |last|)] == ids[at];
  }

  // An id that is not one line, or has white space at an end, starts its work
  // at every delivery.
  lemma {:induction false} AlwaysWorks(posts: seq<Post>, p: Post)
    requires !(OneLine(p.id) && Trim(p.id) == p.id)
    ensures After(posts + [p]).work == After(posts).work + p.Runs()
  {
    var lines := Lines.Last(After(posts).ids, EVENTS_REMEMBERED);
    LinesOnly(posts);
    AfterOneMore(posts, p);
    if OneLine(p.id) {
      UntrimmedNeverSeen(p.id, lines);
    } else {
      MultiLineNeverSeen(p.id, lines);
    }
  }

  // So a second delivery soon after the first does its work again exactly when
  // it has any to do and its id is not a trimmed line.
  lemma {:induction false} WorksAgainExactly(posts: seq<Post>, i: nat, p: Post)
    requires i < |posts| && posts[i].reached.End? && posts[i].id == p.id
    requires |After(posts).ids| - |After(posts[..i]).ids| <= EVENTS_REMEMBERED
    ensures After(posts + [p]).work == After(posts).work <==> (OneLine(p.id) && Trim(p.id) == p.id) || p.Runs() == []
  {
    hide AmongTrimmed, Trim;
    RecognisedExactly(p.id);
    if OneLine(p.id) && Trim(p.id) == p.id {
      NoSecondWork(posts, i, p);
    } else {
      AlwaysWorks(posts, p);
      assert |After(posts + [p]).work| == |After(posts).work| + |p.Runs()|;
    }
  }

  // ── when a delivery starts no work ─────────────────────────────────

  // Line number k of post i's id, which that post remembered.
  ghost predicate IsLine(posts: seq<Post>, i: nat, k: nat) {
    i < |posts| && posts[i].reached.End? && k < |Pieces(posts[i].id)|
  }

  // How many lines have been remembered since, counting that one.
  ghost function Since(posts: seq<Post>, i: nat, k: nat): int
    requires IsLine(posts, i, k)
  {
    |After(posts).ids| - |After(posts[..i]).ids| - k
  }

  // Some post remembered the id, trimmed, within the window.
  ghost predicate Covered(posts: seq<Post>, id: Bytes) {
    exists i: nat, k: nat :: IsLine(posts, i, k) && CoveredBy(posts, i, k, id)
  }

  ghost predicate CoveredBy(posts: seq<Post>, i: nat, k: nat, id: Bytes)
    requires IsLine(posts, i, k)
  {
    Trim(Pieces(posts[i].id)[k]) == id && Since(posts, i, k) <= EVENTS_REMEMBERED
  }

  lemma LinesAt(posts: seq<Post>, i: nat, k: nat)
    requires IsLine(posts, i, k)
    ensures 1 <= Since(posts, i, k) <= |After(posts).ids|
    ensures After(posts).ids[|After(posts).ids| - Since(posts, i, k)] == Pieces(posts[i].id)[k]
  {
    hide After, Pieces;
    LinesStay(posts, i);
    var before, ps := After(posts[..i]).ids, Pieces(posts[i].id);
    assert (before + ps)[|before| + k] == ps[k];
  }

  // Every line remembered is some post's.
  lemma {:induction false} LineOfPost(posts: seq<Post>, at: nat) returns (i: nat, k: nat)
    requires at < |After(posts).ids|
    ensures IsLine(posts, i, k) && at == |After(posts[..i]).ids| + k
    decreases |posts|
  {
    hide Known, Pieces;
    var front, last := posts[..|posts| - 1], posts[|posts| - 1];
    assert posts == front + [last];
    AfterOneMore(front, last);
    if at < |After(front).ids| {
      i, k := LineOfPost(front, at);
      assert front[..i] == posts[..i] && front[i] == posts[i];
    } else {
      i, k := |posts| - 1, at - |After(front).ids|;
    }
  }

  // A line is among the last n exactly when fewer than n follow it.
  lemma AmongLast(ids: seq<Bytes>, id: Bytes, n: nat)
    ensures AmongTrimmed(id, Lines.Last(ids, n)) <==> exists at :: 0 <= at < |ids| && Trim(ids[at]) == id && |ids| - at <= n
  {
    hide Trim;
    var last := Lines.Last(ids, n);
    var cut := |ids| - |last|;
    forall j | 0 <= j < |last|
      ensures last[j] == ids[cut + j]
    {
    }
    if AmongTrimmed(id, last) {
      var j :| 0 <= j < |last| && Trim(last[j]) == id;
      assert Trim(ids[cut + j]) == id;
    }
    if at :| 0 <= at < |ids| && Trim(ids[at]) == id && |ids| - at <= n {
      assert last[at - cut] == ids[at];
    }
  }

  lemma {:induction false} KnownExactly(posts: seq<Post>, id: Bytes)
    ensures Known(After(posts), id) <==> Covered(posts, id)
  {
    hide After, Pieces, Trim, Since, AmongTrimmed, Lines.Last;
    var ids := After(posts).ids;
    AmongLast(ids, id, EVENTS_REMEMBERED);
    if Known(After(posts), id) {
      var at :| 0 <= at < |ids| && Trim(ids[at]) == id && |ids| - at <= EVENTS_REMEMBERED;
      var i, k := LineOfPost(posts, at);
      SinceIs(posts, i, k);
      LinesAt(posts, i, k);
      assert CoveredBy(posts, i, k, id);
    }
    if Covered(posts, id) {
      var i: nat, k: nat :| IsLine(posts, i, k) && CoveredBy(posts, i, k, id);
      LinesAt(posts, i, k);
      var at := |ids| - Since(posts, i, k);
      assert Trim(ids[at]) == id;
    }
  }

  lemma SinceIs(posts: seq<Post>, i: nat, k: nat)
    requires IsLine(posts, i, k)
    ensures Since(posts, i, k) == |After(posts).ids| - |After(posts[..i]).ids| - k
  {
  }

  // A delivery that has work to do starts none if and only if, within the last
  // ten thousand lines, some post remembered a line that is its id once trimmed:
  // its own delivery, or that of an id with white space around it, or one line
  // of another.
  lemma {:induction false} StartsNoWorkExactly(posts: seq<Post>, p: Post)
    requires p.Runs() != []
    ensures After(posts + [p]).work == After(posts).work <==> Covered(posts, p.id)
  {
    hide Covered, Known, After;
    KnownExactly(posts, p.id);
    AfterOneMore(posts, p);
    assert |After(posts).work + p.Runs()| > |After(posts).work|;
  }

  // And a padded id takes the place of the id without: the first delivery of
  // that one, soon after, starts no work.
  lemma {:induction false} PaddedTakesTheIdsPlace(id: Bytes, padded: Bytes, hits: nat)
    requires Trim(padded) == id && padded != id && OneLine(padded)
    ensures |Pieces(padded)| == 1
    ensures After([Post(padded, hits, End), Post(id, hits, End)]).work == Post(padded, hits, End).Runs()
  {
    var p, q := Post(padded, hits, End), Post(id, hits, End);
    AlwaysWorks([], p);
    assert [] + [p] == [p] && [p] + [q] == [p, q] && [p][..0] == [];
    assert Trim(Pieces(padded)[0]) == id;
    AfterOneMore([], p);
    NoSecondWork([p], 0, q);
    assert After([p]).work == [] + p.Runs();
  }
}
