// The sidebar's rows, redrawn in place from a list of Bots.

module Roster {
  import opened Wrappers
  import opened Sequences

  datatype Bot = Bot(id: string, name: string, title: string, description: string, messages: nat, hidden: bool)

  // The avatar drawn for a Bot.
  datatype Mark = Mark(id: string, name: string)

  // What a row looks like.
  datatype Look = Look(open: bool, tip: string, mention: Option<string>, mark: Mark, caption: string, sub: string, hidden: bool)

  function SubOf(bot: Bot, counted: string): string {
    if bot.title != "" then bot.title
    else if bot.messages > 0 then counted + " messages"
    else "no messages yet"
  }

  // How a Bot's row should look. `counted` writes a number of messages.
  function LookOf(bot: Bot, openName: Option<string>, counted: nat -> string): Look {
    Look(openName == Some(bot.name),
         if bot.description != "" then bot.description else bot.name,
         Some(bot.id), Mark(bot.id, bot.name), bot.name, SubOf(bot, counted(bot.messages)), bot.hidden)
  }

  class Row {
    // The key a row is matched by.
    const name: string
    var open: bool
    var tip: string
    var mention: Option<string>
    var mark: Mark
    var caption: string
    var sub: string
    var hidden: bool

    function Looks(): Look
      reads this
    {
      Look(open, tip, mention, mark, caption, sub, hidden)
    }

    // The mark is drawn from the id it answers to.
    ghost predicate Valid()
      reads this
    {
      mention.Some? ==> mark == Mark(mention.value, name)
    }

    // A row, made once.
    constructor (bot: Bot)
      ensures Valid() && name == bot.name
    {
      name := bot.name;
      open, tip, mention, caption, sub, hidden := false, "", None, "", "", false;
      mark := Mark(bot.id, bot.name);
    }

    // Bring an existing row up to date.
    method Patch(bot: Bot, openName: Option<string>, counted: nat -> string)
      requires Valid() && bot.name == name
      modifies this
      ensures Valid() && Looks() == LookOf(bot, openName, counted)
      ensures caption == bot.name && mention == Some(bot.id) && mark == Mark(bot.id, bot.name) && hidden == bot.hidden
      ensures open <==> openName == Some(bot.name)
      ensures tip == bot.description || (bot.description == "" && tip == bot.name)
      ensures bot.title != "" ==> sub == bot.title
    {
      open := openName == Some(bot.name);
      tip := if bot.description != "" then bot.description else bot.name;
      if mention != Some(bot.id) {
        mention := Some(bot.id);
        mark := Mark(bot.id, bot.name);
      }
      caption := bot.name;
      sub := SubOf(bot, counted(bot.messages));
      if bot.hidden && !hidden {
        hidden := true;
      } else if !bot.hidden && hidden {
        hidden := false;
      }
    }
  }

  // The elements of s that are not in `gone`, in order.
  function Without<T(==)>(s: seq<T>, gone: set<T>): (t: seq<T>)
    ensures forall x :: x in t ==> x in s && x !in gone
    ensures forall x :: x in s && x !in gone ==> x in t
  {
    if s == [] then []
    else if s[0] in gone then Without(s[1..], gone)
    else [s[0]] + Without(s[1..], gone)
  }

  lemma WithoutFirst<T>(s: seq<T>, gone: set<T>)
    requires s != []
    ensures Without(s, gone) == (if s[0] in gone then [] else [s[0]]) + Without(s[1..], gone)
  {
  }

  lemma {:induction false} WithoutConcat<T>(a: seq<T>, b: seq<T>, gone: set<T>)
    ensures Without(a + b, gone) == Without(a, gone) + Without(b, gone)
  {
    if a == [] {
      assert a + b == b;
    } else {
      WithoutFirst(a, gone);
      WithoutFirst(a + b, gone);
      assert (a + b)[1..] == a[1..] + b && (a + b)[0] == a[0];
      hide Without;
      WithoutConcat(a[1..], b, gone);
      Assoc(if a[0] in gone then [] else [a[0]], Without(a[1..], gone), Without(b, gone));
    }
  }

  lemma {:induction false} WithoutTwice<T>(s: seq<T>, a: set<T>, b: set<T>)
    ensures Without(Without(s, a), b) == Without(s, a + b)
  {
    if s != [] {
      WithoutTwice(s[1..], a, b);
      assert ([s[0]] + Without(s[1..], a))[1..] == Without(s[1..], a);
    }
  }

  lemma {:induction false} WithoutNone<T>(s: seq<T>, gone: set<T>)
    requires forall x :: x in s ==> x !in gone
    ensures Without(s, gone) == s
  {
    if s != [] {
      assert s[0] in s;
      WithoutNone(s[1..], gone);
    }
  }

  ghost predicate DistinctNames(rows: seq<Row>) {
    forall i, j :: 0 <= i < j < |rows| ==> rows[i].name != rows[j].name
  }

  // The last row for each name, as a map filled from the front holds them.
  function ByName(rows: seq<Row>): map<string, Row> {
    if rows == [] then map[]
    else ByName(rows[..|rows| - 1])[rows[|rows| - 1].name := rows[|rows| - 1]]
  }

  lemma {:induction false} ByNameMeaning(rows: seq<Row>)
    ensures forall k :: k in ByName(rows) ==> ByName(rows)[k] in rows && ByName(rows)[k].name == k
    ensures forall r :: r in rows ==> r.name in ByName(rows)
  {
    if rows != [] {
      var last := |rows| - 1;
      ByNameMeaning(rows[..last]);
      assert rows == rows[..last] + [rows[last]];
    }
  }

  // The rows that share their name with a later one.
  ghost function Shadowed(rows: seq<Row>): seq<Row> {
    Without(rows, ByName(rows).Values)
  }

  lemma {:induction false} ByNameOfDistinct(rows: seq<Row>)
    requires DistinctNames(rows)
    ensures forall r :: r in rows ==> r.name in ByName(rows) && ByName(rows)[r.name] == r
  {
    if rows != [] {
      var last := |rows| - 1;
      ByNameOfDistinct(rows[..last]);
      forall r | r in rows
        ensures r.name in ByName(rows) && ByName(rows)[r.name] == r
      {
        var i :| 0 <= i < |rows| && rows[i] == r;
        if i < last {
          assert rows[..last][i] == r;
          assert rows[i].name != rows[last].name;
        }
      }
    }
  }

  // Two rows of one name, the first of them before the second.
  ghost predicate LaterNamesake(rows: seq<Row>, i: nat, j: nat) {
    i < j < |rows| && rows[i].name == rows[j].name
  }

  lemma {:induction false} ByNameIsLast(rows: seq<Row>, i: nat)
    requires i < |rows| && forall j :: !LaterNamesake(rows, i, j)
    ensures rows[i].name in ByName(rows) && ByName(rows)[rows[i].name] == rows[i]
  {
    var last := |rows| - 1;
    if i < last {
      assert !LaterNamesake(rows, i, last);
      forall j: nat
        ensures !LaterNamesake(rows[..last], i, j)
      {
        assert !LaterNamesake(rows, i, j);
      }
      ByNameIsLast(rows[..last], i);
    }
  }

  // A row is shadowed exactly when a later one has its name.
  lemma {:induction false} ShadowedExactly(rows: seq<Row>, i: nat)
    requires Distinct(rows) && i < |rows|
    ensures rows[i] in Shadowed(rows) <==> exists j :: LaterNamesake(rows, i, j)
  {
    ByNameMeaning(rows);
    if j :| LaterNamesake(rows, i, j) {
      var last := LastNamesake(rows, i, j);
      ByNameIsLast(rows, last);
      assert forall k :: k in ByName(rows) && ByName(rows)[k] == rows[i] ==> k == rows[i].name;
      assert ByName(rows)[rows[i].name] == rows[last] != rows[i];
    } else {
      ByNameIsLast(rows, i);
      assert rows[i].name in ByName(rows).Keys;
    }
  }

  lemma LastNamesake(rows: seq<Row>, i: nat, j: nat) returns (last: nat)
    requires LaterNamesake(rows, i, j)
    ensures LaterNamesake(rows, i, last) && forall k :: !LaterNamesake(rows, last, k)
    decreases |rows| - j
  {
    if k :| LaterNamesake(rows, j, k) {
      last := LastNamesake(rows, i, k);
    } else {
      last := j;
    }
  }

  // Rows are shadowed exactly when two of them share a name.
  lemma {:induction false} ShadowedMeaning(rows: seq<Row>)
    requires Distinct(rows)
    ensures Shadowed(rows) == [] <==> DistinctNames(rows)
  {
    ByNameMeaning(rows);
    assert Shadowed(rows) == [] || Shadowed(rows)[0] in Shadowed(rows);
    if DistinctNames(rows) {
      ByNameOfDistinct(rows);
      forall r | r in rows
        ensures r in ByName(rows).Values
      {
        assert r.name in ByName(rows).Keys;
      }
    } else {
      var i, j :| 0 <= i < j < |rows| && rows[i].name == rows[j].name;
      var r := if ByName(rows)[rows[i].name] == rows[i] then rows[j] else rows[i];
      forall k | k in ByName(rows)
        ensures ByName(rows)[k] != r
      {
      }
      assert r in Shadowed(rows);
    }
  }

  // ── the redraw ─────────────────────────────────────────────────────

  // The first Bot with each name.
  ghost predicate FirstOfName(bots: seq<Bot>, j: nat)
    requires j < |bots|
  {
    forall k :: 0 <= k < j ==> bots[k].name != bots[j].name
  }

  // Where the row drawn for a Bot comes from: the old row of that name, for the
  // first Bot that has the name, and a new row otherwise.
  ghost predicate RowFor(was: seq<Row>, bots: seq<Bot>, j: nat, r: Row)
    requires j < |bots|
  {
    && r.name == bots[j].name
    && (if bots[j].name in ByName(was) && FirstOfName(bots, j) then r == ByName(was)[bots[j].name] else r !in was)
  }

  // How far a redraw has come: the first rows are those of the first Bots, and
  // of the old rows these are used.
  ghost predicate Drawn(was: seq<Row>, placed: seq<Row>, bots: seq<Bot>, used: set<Row>) {
    && |placed| <= |bots|
    && (forall j :: 0 <= j < |placed| ==> RowFor(was, bots, j, placed[j]))
    && (forall r :: r in used ==> r in was && r in placed)
    && (forall r :: r in was && r in placed ==> r in used)
    && Distinct(placed)
  }

  // The old rows whose name no Bot so far has had.
  ghost predicate Unused(had: map<string, Row>, was: seq<Row>, bots: seq<Bot>, at: nat)
    requires at <= |bots|
  {
    && (forall k :: k in had <==> k in ByName(was) && forall j :: 0 <= j < at ==> bots[j].name != k)
    && (forall k :: k in had ==> had[k] == ByName(was)[k])
  }

  ghost predicate SameNames(rows: seq<Row>, bots: seq<Bot>) {
    |rows| == |bots| && forall i :: 0 <= i < |rows| ==> rows[i].name == bots[i].name
  }

  lemma DrawOne(was: seq<Row>, placed: seq<Row>, bots: seq<Bot>, used: set<Row>, had: map<string, Row>, li: Row)
    requires Drawn(was, placed, bots, used) && |placed| < |bots| && Unused(had, was, bots, |placed|)
    requires var name := bots[|placed|].name;
             li.name == name && (if name in had then li == had[name] else li !in was && li !in placed)
    ensures li !in placed
    ensures Drawn(was, placed + [li], bots, if li in was then used + {li} else used)
    ensures Unused(had - {bots[|placed|].name}, was, bots, |placed| + 1)
    ensures RowFor(was, bots, |placed|, li)
  {
    var at := |placed|;
    var name := bots[at].name;
    ByNameMeaning(was);
    assert name in ByName(was) && FirstOfName(bots, at) <==> name in had;
    assert forall j :: 0 <= j < at ==> RowFor(was, bots, j, placed[j]);
    assert RowFor(was, bots, at, li);
    var all := placed + [li];
    forall j | 0 <= j < |all|
      ensures RowFor(was, bots, j, all[j])
    {
      if j < at {
        assert RowFor(was, bots, j, placed[j]);
      }
    }
  }

  // What is left when every Bot has its row: the rows still in the map go, and
  // those that share a name with a later row stay.
  lemma LeftOver(was: seq<Row>, placed: seq<Row>, bots: seq<Bot>, used: set<Row>, had: map<string, Row>)
    requires Drawn(was, placed, bots, used) && |placed| == |bots| && Unused(had, was, bots, |bots|)
    ensures Without(placed + Without(was, used), had.Values) == placed + Shadowed(was)
  {
    ByNameMeaning(was);
    forall r | r in placed
      ensures r !in had.Values
    {
    }
    WithoutConcat(placed, Without(was, used), had.Values);
    WithoutNone(placed, had.Values);
    WithoutTwice(was, used, had.Values);
    AllAccounted(was, placed, bots, used, had);
  }

  lemma AllAccounted(was: seq<Row>, placed: seq<Row>, bots: seq<Bot>, used: set<Row>, had: map<string, Row>)
    requires Drawn(was, placed, bots, used) && |placed| == |bots| && Unused(had, was, bots, |bots|)
    ensures used + had.Values == ByName(was).Values
  {
    ByNameMeaning(was);
    forall r | r in used
      ensures r in ByName(was).Values
    {
      var j :| 0 <= j < |placed| && placed[j] == r;
      assert RowFor(was, bots, j, placed[j]);
      assert bots[j].name in ByName(was).Keys;
    }
    forall r | r in ByName(was).Values
      ensures r in used + had.Values
    {
      var k :| k in ByName(was) && ByName(was)[k] == r;
      if k in had {
        assert had[k] == r;
      } else {
        var j := FirstWith(bots, k);
        assert RowFor(was, bots, j, placed[j]);
        assert placed[j] == r;
      }
    }
  }

  lemma FirstWith(bots: seq<Bot>, k: string) returns (j: nat)
    requires exists i :: 0 <= i < |bots| && bots[i].name == k
    ensures j < |bots| && bots[j].name == k && FirstOfName(bots, j)
  {
    j := 0;
    while bots[j].name != k
      invariant j < |bots|
      invariant forall i :: 0 <= i < j ==> bots[i].name != k
      decreases |bots| - j
    {
      j := j + 1;
    }
  }

  ghost predicate Progress(was: seq<Row>, rows: seq<Row>, at: nat, bots: seq<Bot>, used: set<Row>, had: map<string, Row>) {
    && at <= |bots| && at <= |rows|
    && Drawn(was, rows[..at], bots, used)
    && Unused(had, was, bots, at)
    && rows[at..] == Without(was, used)
    && Distinct(rows)
  }

  lemma Begin(was: seq<Row>, bots: seq<Bot>)
    requires Distinct(was)
    ensures Progress(was, was, 0, bots, {}, ByName(was))
  {
    WithoutNone(was, {});
  }

  // When nothing has changed its place, the next Bot's row is where it should
  // be.
  lemma NextInOrder(was: seq<Row>, at: nat, bots: seq<Bot>, used: set<Row>, had: map<string, Row>)
    requires Progress(was, was, at, bots, used, had) && at < |bots|
    requires SameNames(was, bots) && DistinctNames(was)
    ensures at < |was| && bots[at].name in had && had[bots[at].name] == was[at]
  {
    ByNameOfDistinct(was);
    assert was[at] in was;
    assert forall j :: 0 <= j < at ==> was[j].name != was[at].name;
  }

  lemma Finish(was: seq<Row>, rows: seq<Row>, bots: seq<Bot>, used: set<Row>, had: map<string, Row>)
    requires Progress(was, rows, |bots|, bots, used, had)
    ensures Without(rows, had.Values) == rows[..|bots|] + Shadowed(was)
    ensures forall j :: 0 <= j < |bots| ==> RowFor(was, bots, j, rows[j])
    ensures SameNames(was, bots) && DistinctNames(was) && rows == was ==> Shadowed(was) == [] && Without(rows, had.Values) == rows
  {
    assert rows == rows[..|bots|] + rows[|bots|..];
    LeftOver(was, rows[..|bots|], bots, used, had);
    assert forall j :: 0 <= j < |bots| ==> RowFor(was, bots, j, rows[..|bots|][j]);
    if SameNames(was, bots) && DistinctNames(was) && rows == was {
      ShadowedMeaning(was);
    }
  }

  lemma {:induction false} DistinctWithout<T>(s: seq<T>, gone: set<T>)
    requires Distinct(s)
    ensures Distinct(Without(s, gone))
  {
    if s != [] {
      DistinctWithout(s[1..], gone);
      var rest := Without(s[1..], gone);
      forall i | 0 <= i < |rest|
        ensures rest[i] != s[0]
      {
        assert rest[i] in s[1..];
      }
    }
  }

  // Putting the next Bot's row in its place is one step of a redraw.
  lemma PlaceStep(was: seq<Row>, rows: seq<Row>, at: nat, bots: seq<Bot>, used: set<Row>, had: map<string, Row>, li: Row, out: seq<Row>)
    requires Progress(was, rows, at, bots, used, had) && at < |bots| && Distinct(was)
    requires var name := bots[at].name;
             li.name == name && (if name in had then li == had[name] else li !in was && li !in rows)
    requires out == rows[..at] + [li] + Without(rows[at..], {li})
    ensures li !in rows[..at]
    ensures Progress(was, out, at + 1, bots, if li in was then used + {li} else used, had - {bots[at].name})
  {
    var placed := rows[..at];
    DrawOne(was, placed, bots, used, had, li);
    assert out[..at + 1] == placed + [li];
    assert out[at + 1..] == Without(rows[at..], {li});
    WithoutTwice(was, used, {li});
    if li !in was {
      WithoutNone(rows[at..], {li});
    }
    PlacedDistinct(was, placed, li, used);
  }

  lemma PlacedDistinct(was: seq<Row>, placed: seq<Row>, li: Row, used: set<Row>)
    requires Distinct(was) && Distinct(placed) && li !in placed
    requires forall r :: r in was && r in placed ==> r in used
    ensures Distinct(placed + [li] + Without(Without(was, used), {li}))
  {
    var rest := Without(Without(was, used), {li});
    DistinctWithout(was, used);
    DistinctWithout(Without(was, used), {li});
    var all := placed + [li] + rest;
    forall i, j | 0 <= i < j < |all|
      ensures all[i] != all[j]
    {
      if j > |placed| {
        assert all[j] == rest[j - |placed| - 1] && all[j] in rest;
        if i > |placed| {
          assert all[i] == rest[i - |placed| - 1];
        } else if i < |placed| {
          assert all[i] in placed;
        }
      } else {
        assert all[i] in placed;
      }
    }
  }

  // A row still in the map is an old row of that name, not placed yet.
  lemma RowLeft(was: seq<Row>, rows: seq<Row>, at: nat, bots: seq<Bot>, used: set<Row>, had: map<string, Row>)
    requires Progress(was, rows, at, bots, used, had) && at < |bots| && bots[at].name in had
    requires forall r :: r in rows ==> r.Valid()
    ensures var li := had[bots[at].name];
            li in was && li in rows && li.Valid() && li.name == bots[at].name
  {
    ByNameMeaning(was);
    var li := had[bots[at].name];
    assert li in Without(was, used);
    assert li in rows[at..];
  }

  // A row that is in its place already need not be moved.
  lemma InPlace(rows: seq<Row>, at: nat, li: Row)
    requires at < |rows| && rows[at] == li && Distinct(rows)
    ensures rows == rows[..at] + [li] + Without(rows[at..], {li})
  {
    hide Without;
    var rest := rows[at..];
    assert forall k :: 0 <= k < |rest[1..]| ==> rest[1..][k] == rows[at + 1 + k];
    HeadGone(rest, li);
    SplitAround(rows, at, li, Without(rest, {li}));
  }

  lemma SplitAround<T>(rows: seq<T>, at: nat, li: T, rest: seq<T>)
    requires at <= |rows| && [li] + rest == rows[at..]
    ensures rows[..at] + [li] + rest == rows
  {
    assert rows[..at] + [li] + rest == rows[..at] + ([li] + rest);
  }

  lemma HeadGone(rest: seq<Row>, li: Row)
    requires rest != [] && rest[0] == li && li !in rest[1..]
    ensures [li] + Without(rest, {li}) == rest
  {
    WithoutNone(rest[1..], {li});
  }

  class Sidebar {
    var rows: seq<Row>
    // How many times a row has been put into the list or moved in it.
    ghost var moves: nat

    ghost predicate Valid()
      reads this, rows
    {
      Distinct(rows) && forall r :: r in rows ==> r.Valid()
    }

    constructor ()
      ensures Valid() && rows == []
    {
      rows, moves := [], 0;
    }

    // Put a row before the one at an index, out of its old place if it had one.
    method InsertBefore(li: Row, at: nat)
      requires at <= |rows| && li !in rows[..at]
      modifies this
      ensures rows == old(rows)[..at] + [li] + Without(old(rows)[at..], {li})
      ensures moves == old(moves) + 1
    {
      WithoutConcat(rows[..at], rows[at..], {li});
      WithoutNone(rows[..at], {li});
      assert rows == rows[..at] + rows[at..];
      var rest := Without(rows, {li});
      rows := rest[..at] + [li] + rest[at..];
      moves := moves + 1;
    }

    // Draw these Bots into the rows that are already there.
    //
    // The first rows are the Bots', in their order; what is left after them is
    // the old rows that shared their name with a later row.
    method RenderRoster(bots: seq<Bot>, openName: Option<string>, counted: nat -> string)
      requires Valid()
      modifies this, rows
      ensures Valid()
      ensures |rows| >= |bots| && rows[|bots|..] == Shadowed(old(rows))
      ensures forall j :: 0 <= j < |bots| ==> RowFor(old(rows), bots, j, rows[j])
      ensures forall j :: 0 <= j < |bots| ==> rows[j].Looks() == LookOf(bots[j], openName, counted)
      ensures SameNames(old(rows), bots) && DistinctNames(old(rows)) ==> rows == old(rows) && moves == old(moves)
    {
      hide *;
      ghost var was := rows;
      var had := KeyedRows(rows);
      var at := 0;
      ghost var used: set<Row> := {};
      DrawNothing(bots, openName, counted);
      Begin(was, bots);
      while at < |bots|
        invariant at <= |bots|
        invariant Progress(was, rows, at, bots, used, had)
        invariant Drawings(at, bots, openName, counted)
        invariant SameNames(was, bots) && DistinctNames(was) ==> rows == was && moves == old(moves)
      {
        if SameNames(was, bots) && DistinctNames(was) {
          NextInOrder(was, at, bots, used, had);
        }
        var li: Row;
        if bots[at].name in had {
          AllValid(at, bots, openName, counted);
          RowLeft(was, rows, at, bots, used, had);
          li := had[bots[at].name];
        } else {
          li := new Row(bots[at]);
        }
        had, used := DrawNext(li, was, used, had, at, bots, openName, counted);
        at := at + 1;
      }
      ghost var drawn := rows;
      Finish(was, drawn, bots, used, had);
      DrawnFacts(was, bots, used, had, openName, counted);
      RemoveAll(had);
      AllDrawn(drawn, had.Values);
    }

    lemma DrawNothing(bots: seq<Bot>, openName: Option<string>, counted: nat -> string)
      requires Valid()
      ensures Distinct(rows) && Drawings(0, bots, openName, counted)
    {
    }

    lemma AllValid(at: nat, bots: seq<Bot>, openName: Option<string>, counted: nat -> string)
      requires Drawings(at, bots, openName, counted)
      ensures forall r :: r in rows ==> r.Valid()
    {
    }

    lemma DrawnFacts(was: seq<Row>, bots: seq<Bot>, used: set<Row>, had: map<string, Row>, openName: Option<string>, counted: nat -> string)
      requires Progress(was, rows, |bots|, bots, used, had) && Drawings(|bots|, bots, openName, counted)
      ensures |rows| >= |bots| && Distinct(rows)
      ensures forall r :: r in rows ==> r.Valid()
      ensures forall j :: 0 <= j < |bots| ==> rows[j].Looks() == LookOf(bots[j], openName, counted)
    {
    }

    // The list is in order once the rows left in the map are gone.
    lemma AllDrawn(drawn: seq<Row>, gone: set<Row>)
      requires Distinct(drawn) && rows == Without(drawn, gone)
      requires forall r :: r in drawn ==> r.Valid()
      ensures Valid()
    {
      DistinctWithout(drawn, gone);
    }

    // The next Bot: the old row of its name if there is one left, or a new one.
    method DrawNext(li: Row, ghost was: seq<Row>, ghost used: set<Row>, had: map<string, Row>, at: nat, bots: seq<Bot>,
                    openName: Option<string>, counted: nat -> string)
      returns (left: map<string, Row>, ghost taken: set<Row>)
      requires Progress(was, rows, at, bots, used, had) && Drawings(at, bots, openName, counted)
      requires at < |bots| && Distinct(was)
      requires li.name == bots[at].name && li.Valid()
      requires if bots[at].name in had then li == had[bots[at].name] else li !in was && li !in rows
      modifies this, li
      ensures Progress(was, rows, at + 1, bots, taken, left) && Drawings(at + 1, bots, openName, counted)
      ensures at < |old(rows)| && old(rows)[at] == li ==> rows == old(rows) && moves == old(moves)
    {
      ghost var before := rows;
      var bot := bots[at];
      hide Distinct, RowFor, Unused, Drawn, LookOf;
      PlaceStep(was, before, at, bots, used, had, li, before[..at] + [li] + Without(before[at..], {li}));
      assert Distinct(rows) && Drawings(at, bots, openName, counted);
      hide Progress, Drawings;
      Draw(li, bot, at, bots, openName, counted);
      left := had - {bot.name};
      taken := if li in was then used + {li} else used;
    }

    // The first rows look as their Bots should.
    ghost predicate Drawings(at: nat, bots: seq<Bot>, openName: Option<string>, counted: nat -> string)
      reads this, rows
    {
      && at <= |rows| && at <= |bots|
      && (forall r :: r in rows ==> r.Valid())
      && (forall j :: 0 <= j < at ==> rows[j].Looks() == LookOf(bots[j], openName, counted))
    }

    // One Bot: its row is brought up to date and put in its place.
    method Draw(li: Row, bot: Bot, at: nat, ghost bots: seq<Bot>, openName: Option<string>, counted: nat -> string)
      requires Distinct(rows) && Drawings(at, bots, openName, counted)
      requires at < |bots| && bots[at] == bot && li.name == bot.name && li.Valid()
      requires li !in rows[..at]
      modifies this, li
      ensures rows == old(rows)[..at] + [li] + Without(old(rows)[at..], {li})
      ensures Drawings(at + 1, bots, openName, counted)
      ensures at < |old(rows)| && old(rows)[at] == li ==> rows == old(rows) && moves == old(moves)
    {
      hide LookOf, Without, Distinct, Row.Looks, Row.Valid;
      assert forall j :: 0 <= j < at ==> rows[j] in rows[..at];
      li.Patch(bot, openName, counted);
      assert forall j :: 0 <= j < at ==> rows[j].Looks() == LookOf(bots[j], openName, counted);
      if at < |rows| && rows[at] == li {
        InPlace(rows, at, li);
      } else {
        InsertBefore(li, at);
      }
    }

    method RemoveAll(had: map<string, Row>)
      modifies this
      ensures rows == Without(old(rows), had.Values) && moves == old(moves)
    {
      var left := had;
      WithoutNone(rows, {});
      while left != map[]
        invariant left.Keys <= had.Keys && forall k :: k in left ==> left[k] == had[k]
        invariant Without(rows, left.Values) == Without(old(rows), had.Values) && moves == old(moves)
        decreases |left|
      {
        var k :| k in left;
        var li := left[k];
        ghost var more := left - {k};
        assert left.Values == {li} + more.Values by {
          forall r | r in left.Values
            ensures r in {li} + more.Values
          {
            var j :| j in left && left[j] == r;
            assert j != k ==> j in more && more[j] == r;
          }
        }
        WithoutTwice(rows, {li}, more.Values);
        rows := Without(rows, {li});
        left := left - {k};
      }
      WithoutNone(rows, {});
    }

    method KeyedRows(rs: seq<Row>) returns (had: map<string, Row>)
      ensures had == ByName(rs)
    {
      had := map[];
      for i := 0 to |rs|
        invariant had == ByName(rs[..i])
      {
        assert rs[..i + 1][..i] == rs[..i];
        had := had[rs[i].name := rs[i]];
      }
      assert rs[..|rs|] == rs;
    }
  }

  // After Bots that share a name have been drawn, the next redraw, of any Bots,
  // leaves a row that belongs to none of them.
  lemma {:induction false} SharedNameLeavesARow(rows: seq<Row>, bots: seq<Bot>, i: nat, j: nat)
    requires Distinct(rows) && |rows| >= |bots|
    requires forall k :: 0 <= k < |bots| ==> rows[k].name == bots[k].name
    requires i < j < |bots| && bots[i].name == bots[j].name
    ensures Shadowed(rows) != []
  {
    ShadowedMeaning(rows);
    assert rows[i].name == rows[j].name;
  }
}
