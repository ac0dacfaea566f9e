// The Bots and groups of an account, at every point between two file
// operations.

module Account {
  import opened Wrappers
  import opened Characters
  import opened Sequences

  type BotId = string

  const MAX_BOTS: nat := 50
  const MIN_GROUP: nat := 2
  const MAX_GROUP: nat := 6

  datatype Bot = Bot(name: string, title: string, description: string)

  datatype StoreError =
    | BadName
    | Duplicate(name: string)
    | TooMany
    | NotFound(id: BotId)
    | BadGroupSize(got: nat)
    | Ambiguous(name: string, ids: set<BotId>)

  // ── ids from names ─────────────────────────────────────────────────

  predicate Plain(c: char) {
    'a' <= c <= 'z' || 'A' <= c <= 'Z' || '0' <= c <= '9'
  }

  // Letters and digits in lower case, with one dash for each run of anything
  // else; a dash is not written after a dash, nor first.
  function Slugged(s: string, afterDash: bool): string {
    if s == "" then ""
    else if Plain(s[0]) then [LowerChar(s[0])] + Slugged(s[1..], false)
    else if afterDash then Slugged(s[1..], true)
    else "-" + Slugged(s[1..], true)
  }

  function NoDashAtEnd(s: string): (out: string)
    ensures out <= s && (out == "" || out[|out| - 1] != '-')
  {
    if s != "" && s[|s| - 1] == '-' then NoDashAtEnd(s[..|s| - 1]) else s
  }

  function Slug(name: string): Result<BotId, StoreError> {
    var out := NoDashAtEnd(Slugged(name, true));
    if out == "" then Err(BadName) else Ok(out)
  }

  // Small letters, digits and single dashes, the first of them no dash after
  // a dash.
  predicate Tidy(s: string, afterDash: bool) {
    if s == "" then true
    else if s[0] == '-' then !afterDash && Tidy(s[1..], true)
    else Plain(s[0]) && LowerChar(s[0]) == s[0] && Tidy(s[1..], false)
  }

  lemma {:induction false} SluggedIsTidy(s: string, afterDash: bool)
    ensures Tidy(Slugged(s, afterDash), afterDash)
  {
    if s != "" {
      SluggedIsTidy(s[1..], if Plain(s[0]) then false else true);
      var rest := Slugged(s[1..], if Plain(s[0]) then false else true);
      assert ([LowerChar(s[0])] + rest)[1..] == rest && ("-" + rest)[1..] == rest;
    }
  }

  lemma {:induction false} TidyIsFixed(s: string, afterDash: bool)
    requires Tidy(s, afterDash)
    ensures Slugged(s, afterDash) == s
  {
    if s != "" {
      TidyIsFixed(s[1..], s[0] == '-');
      assert s == [s[0]] + s[1..];
    }
  }

  lemma {:induction false} TidyPrefix(s: string, n: nat, afterDash: bool)
    requires n <= |s| && Tidy(s, afterDash)
    ensures Tidy(s[..n], afterDash)
  {
    if n != 0 {
      TidyPrefix(s[1..], n - 1, s[0] == '-');
      assert s[..n][1..] == s[1..][..n - 1];
    }
  }

  // What is tidy holds small letters, digits and dashes, and no white space.
  lemma {:induction false} TidyPlain(s: string, afterDash: bool)
    requires Tidy(s, afterDash)
    ensures forall c :: c in s ==> ('a' <= c <= 'z' || '0' <= c <= '9' || c == '-') && !IsWhite(c)
  {
    if s != "" {
      TidyPlain(s[1..], s[0] == '-');
      assert s == [s[0]] + s[1..];
    }
  }

  // An id is tidy and has a dash at neither end, and it is its own id: a second
  // look-up through the slug finds the same Bot.
  lemma {:induction false} SlugOfSlug(name: string)
    requires Slug(name).Ok?
    ensures var id := Slug(name).value;
            id != "" && id[|id| - 1] != '-' && Tidy(id, true) && Slug(id) == Ok(id)
    ensures forall c :: c in Slug(name).value ==> 'a' <= c <= 'z' || '0' <= c <= '9' || c == '-'
  {
    var id := Slug(name).value;
    SluggedIsTidy(name, true);
    var raw := Slugged(name, true);
    TidyPrefix(raw, |id|, true);
    assert id == raw[..|id|];
    TidyIsFixed(id, true);
    TidyPlain(id, true);
  }

  lemma IdTrimmed(id: BotId)
    requires Tidy(id, true)
    ensures Trimmed(id) == id
  {
    TidyPlain(id, true);
    assert id != "" ==> id[0] in id && id[|id| - 1] in id;
  }

  // ── which name makes which id ──────────────────────────────────────

  // How many letters and digits a text begins with.
  function PlainLength(s: string): (n: nat)
    ensures n <= |s| && (forall i :: 0 <= i < n ==> Plain(s[i])) && (n < |s| ==> !Plain(s[n]))
  {
    if s == "" || !Plain(s[0]) then 0 else 1 + PlainLength(s[1..])
  }

  // The runs of letters and digits in a text, in order.
  function Runs(s: string): (ws: seq<string>)
    ensures forall w :: w in ws ==> w != "" && forall c :: c in w ==> Plain(c)
    decreases |s|
  {
    var n := PlainLength(s);
    if s == "" then []
    else if n == 0 then Runs(s[1..])
    else [s[..n]] + Runs(s[n..])
  }

  // Runs in small letters, with a dash between any two.
  function Dashed(ws: seq<string>): string {
    if ws == [] then ""
    else if |ws| == 1 then Lower(ws[0])
    else Lower(ws[0]) + "-" + Dashed(ws[1..])
  }

  // A run goes through as it is, in small letters.
  lemma {:induction false} SluggedRun(s: string, n: nat, afterDash: bool)
    requires n <= |s| && forall i :: 0 <= i < n ==> Plain(s[i])
    ensures Slugged(s, afterDash) == Lower(s[..n]) + Slugged(s[n..], if n > 0 then false else afterDash)
    decreases n
  {
    if n == 0 {
      assert s[0..] == s && s[..0] == "";
    } else {
      SluggedRun(s[1..], n - 1, false);
      assert s[1..][n - 1..] == s[n..] && s[1..][..n - 1] == s[1..n];
      assert Lower(s[..n]) == [LowerChar(s[0])] + Lower(s[1..n]);
    }
  }

  // Behind a dash, or at the start, a text makes its runs with dashes between,
  // and perhaps a dash more.
  lemma {:induction false} SluggedIsDashed(s: string)
    ensures Slugged(s, true) == Dashed(Runs(s)) || (Slugged(s, true) == Dashed(Runs(s)) + "-" && Runs(s) != [])
    decreases |s|
  {
    var n := PlainLength(s);
    hide PlainLength;
    if s != "" {
      if n == 0 {
        SluggedIsDashed(s[1..]);
      } else {
        SluggedRun(s, n, true);
        assert Runs(s) == [s[..n]] + Runs(s[n..]);
        hide Dashed, Lower, Slugged, Runs;
        if s[n..] != "" {
          SluggedIsDashed(s[n..][1..]);
        }
        RestDashed(s[..n], s[n..]);
      }
    }
  }

  lemma RestDashed(run: string, rest: string)
    requires rest == "" || !Plain(rest[0])
    requires rest != "" ==> var t := rest[1..];
             Slugged(t, true) == Dashed(Runs(t)) || (Slugged(t, true) == Dashed(Runs(t)) + "-" && Runs(t) != [])
    ensures var all, runs := Lower(run) + Slugged(rest, false), [run] + Runs(rest);
            all == Dashed(runs) || all == Dashed(runs) + "-"
  {
    if rest != "" {
      assert PlainLength(rest) == 0;
      hide Plain, LowerChar;
      assert Runs(rest) == Runs(rest[1..]);
      assert Slugged(rest, false) == "-" + Slugged(rest[1..], true);
    }
  }

  lemma {:induction false} DashedEnd(ws: seq<string>)
    requires ws != [] && forall w :: w in ws ==> w != "" && forall c :: c in w ==> Plain(c)
    ensures Dashed(ws) != "" && Dashed(ws)[|Dashed(ws)| - 1] != '-'
  {
    var w := ws[0];
    assert w in ws;
    if |ws| == 1 {
      assert w[|w| - 1] in w;
    } else {
      assert forall v :: v in ws[1..] ==> v in ws;
      DashedEnd(ws[1..]);
    }
  }

  // A name makes the id of its runs of letters and digits, in small letters,
  // in their order, with one dash wherever anything else lies between two of
  // them; and none when it has no letter or digit.
  lemma {:induction false} SlugMeaning(name: string)
    ensures Slug(name) == if Runs(name) == [] then Err(BadName) else Ok(Dashed(Runs(name)))
  {
    SluggedIsDashed(name);
    var runs, out := Runs(name), Dashed(Runs(name));
    hide Slugged, Runs, Plain;
    if runs != [] {
      DashedEnd(runs);
      hide Dashed;
      assert (out + "-")[..|out|] == out;
      assert NoDashAtEnd(out) == out && NoDashAtEnd(out + "-") == NoDashAtEnd(out);
    }
  }

  // ── who is meant ───────────────────────────────────────────────────

  // Every Bot a text can mean: by its id, by the id its name makes, or by the
  // name it displays.
  ghost function Meant(bots: map<BotId, Bot>, wanted: string): set<BotId> {
    (if wanted in bots then {wanted} else {})
    + (if Slug(wanted).Ok? && Slug(wanted).value in bots then {Slug(wanted).value} else {})
    + (set b | b in bots && SameLetters(bots[b].name, wanted))
  }

  // The one Bot meant; none, or more than one, is an error.
  ghost function Resolved(bots: map<BotId, Bot>, nameOrId: string): (r: Result<BotId, StoreError>)
    ensures r.Ok? ==> r.value in bots && Meant(bots, Trimmed(nameOrId)) == {r.value}
  {
    var hits := Meant(bots, Trimmed(nameOrId));
    if hits == {} then Err(NotFound(nameOrId))
    else
      var id :| id in hits;
      if hits == {id} then Ok(id) else Err(Ambiguous(nameOrId, hits))
  }

  // A text can mean a Bot in three ways.
  ghost predicate Means(bots: map<BotId, Bot>, wanted: string, b: BotId) {
    b in bots && (b == wanted || Slug(wanted) == Ok(b) || SameLetters(bots[b].name, wanted))
  }

  // It finds the one Bot it means; it finds none when it means none, and none
  // either when it means more than one.
  lemma {:induction false} ResolvedExactly(bots: map<BotId, Bot>, text: string)
    ensures var wanted := Trimmed(text);
            match Resolved(bots, text)
            case Ok(id) => Means(bots, wanted, id) && forall b :: Means(bots, wanted, b) ==> b == id
            case Err(NotFound(asked)) => asked == text && forall b :: !Means(bots, wanted, b)
            case Err(Ambiguous(asked, ids)) =>
              && asked == text && (forall b :: b in ids <==> Means(bots, wanted, b))
              && exists a, b :: a != b && Means(bots, wanted, a) && Means(bots, wanted, b)
            case _ => false
  {
    hide Slug, SameLetters, Trimmed;
    var hits := Meant(bots, Trimmed(text));
    assert forall b :: b in hits <==> Means(bots, Trimmed(text), b);
    hide Meant, Means;
    if hits != {} && Resolved(bots, text).Err? {
      var a :| a in hits;
      var others := hits - {a};
      assert hits == others + {a} && {} + {a} == {a};
      assert others != {};
    }
  }

  // A Bot's id finds it exactly when no other Bot displays that id as its name.
  lemma {:induction false} IdFinds(bots: map<BotId, Bot>, id: BotId)
    requires id in bots && Tidy(id, true) && Slug(id) == Ok(id)
    ensures Resolved(bots, id) == Ok(id) <==> forall b :: b in bots && SameLetters(bots[b].name, id) ==> b == id
  {
    hide Slug, SameLetters, Trimmed;
    IdTrimmed(id);
    var hits := Meant(bots, id);
    assert id in hits;
    if Resolved(bots, id) == Ok(id) {
      forall b | b in bots && SameLetters(bots[b].name, id)
        ensures b == id
      {
        assert b in hits;
      }
    }
    if forall b :: b in bots && SameLetters(bots[b].name, id) ==> b == id {
      assert hits == {id};
    }
  }

  // A name that two Bots display finds neither.
  lemma {:induction false} SharedNameFindsNobody(bots: map<BotId, Bot>, a: BotId, b: BotId, name: string)
    requires a in bots && b in bots && a != b
    requires SameLetters(bots[a].name, Trimmed(name)) && SameLetters(bots[b].name, Trimmed(name))
    ensures Resolved(bots, name) == Err(Ambiguous(name, Meant(bots, Trimmed(name))))
  {
    hide Slug, SameLetters, Trimmed;
    assert {a, b} <= Meant(bots, Trimmed(name));
  }

  lemma {:induction false} SameLettersSlugged(a: string, b: string, afterDash: bool)
    requires SameLetters(a, b)
    ensures Slugged(a, afterDash) == Slugged(b, afterDash)
  {
    if a != "" {
      assert LowerChar(a[0]) == LowerChar(b[0]);
      assert Plain(a[0]) == Plain(b[0]);
      SameLettersSlugged(a[1..], b[1..], !Plain(a[0]));
    }
  }

  // A new Bot can only share its name with one whose name no longer makes its
  // id: one that was renamed.
  lemma {:induction false} SharedOnlyAfterRename(bots: map<BotId, Bot>, name: string, b: BotId)
    requires Slug(name).Ok? && Slug(name).value !in bots
    requires b in bots && SameLetters(bots[b].name, name)
    ensures Slug(bots[b].name) != Ok(b)
  {
    SameLettersSlugged(bots[b].name, name, true);
  }

  // ── the account ────────────────────────────────────────────────────

  // A group's members: one to six, all different, all existing.
  ghost predicate MembersOk(members: seq<BotId>, bots: set<BotId>) {
    && 1 <= |members| <= MAX_GROUP
    && Distinct(members)
    && forall m :: m in members ==> m in bots
  }

  function WithoutMember(members: seq<BotId>, id: BotId): (out: seq<BotId>)
    ensures id !in out
    ensures forall m :: m in members && m != id ==> m in out
    ensures forall m :: m in out ==> m in members
    ensures |out| <= |members|
  {
    if members == [] then []
    else if members[0] == id then WithoutMember(members[1..], id)
    else [members[0]] + WithoutMember(members[1..], id)
  }

  lemma {:induction false} WithoutMemberDistinct(members: seq<BotId>, id: BotId)
    requires Distinct(members)
    ensures Distinct(WithoutMember(members, id))
  {
    if members != [] {
      var rest := WithoutMember(members[1..], id);
      WithoutMemberDistinct(members[1..], id);
      forall i | 0 <= i < |rest|
        ensures rest[i] != members[0]
      {
        assert rest[i] in members[1..];
      }
    }
  }

  lemma {:induction false} DistinctCount(s: seq<BotId>)
    requires Distinct(s)
    ensures |s| == |set m | m in s|
  {
    if s != [] {
      var last, front := s[|s| - 1], s[..|s| - 1];
      DistinctCount(front);
      assert (set m | m in s) == (set m | m in front) + {last};
    }
  }

  // The members asked for, each once, in the order they were first named.
  function Firsts(members: seq<BotId>): seq<BotId> {
    if members == [] then []
    else
      var front, last := Firsts(members[..|members| - 1]), members[|members| - 1];
      if last in front then front else front + [last]
  }

  function FirstMissing(members: seq<BotId>, bots: set<BotId>): Option<BotId> {
    if members == [] then None
    else if members[0] !in bots then Some(members[0])
    else FirstMissing(members[1..], bots)
  }

  ghost predicate FirstOut(members: seq<BotId>, bots: set<BotId>, i: int) {
    0 <= i < |members| && members[i] !in bots && forall k :: 0 <= k < i ==> members[k] in bots
  }

  lemma {:induction false} FirstMissingMeaning(members: seq<BotId>, bots: set<BotId>)
    ensures match FirstMissing(members, bots)
            case None => forall m :: m in members ==> m in bots
            case Some(m) => exists i :: FirstOut(members, bots, i) && members[i] == m
  {
    if members != [] {
      FirstMissingMeaning(members[1..], bots);
      if members[0] !in bots {
        assert FirstOut(members, bots, 0);
      } else if FirstMissing(members, bots).Some? {
        var i :| FirstOut(members[1..], bots, i) && members[1..][i] == FirstMissing(members, bots).value;
        assert FirstOut(members, bots, i + 1);
      }
    }
  }

  lemma {:induction false} FirstsMeaning(members: seq<BotId>)
    ensures Distinct(Firsts(members)) && forall m :: m in Firsts(members) <==> m in members
    ensures |Firsts(members)| == |set m | m in members|
  {
    if members != [] {
      var front := members[..|members| - 1];
      FirstsMeaning(front);
      assert members == front + [members[|members| - 1]];
    }
    DistinctCount(Firsts(members));
    assert (set m | m in Firsts(members)) == set m | m in members;
  }

  // Naming more members leaves the order of those named before.
  lemma {:induction false} FirstsPrefix(members: seq<BotId>, more: seq<BotId>)
    ensures Firsts(members) <= Firsts(members + more)
    decreases |more|
  {
    if more == [] {
      assert members + more == members;
    } else {
      var front := more[..|more| - 1];
      FirstsPrefix(members, front);
      assert (members + more)[..|members + more| - 1] == members + front;
    }
  }

  type Groups = map<BotId, seq<BotId>>

  // A group's record once a Bot is taken out of it: gone when nobody is left.
  function OneWithout(groups: Groups, g: BotId, id: BotId): Groups
    requires g in groups
  {
    var members := WithoutMember(groups[g], id);
    if members == [] then groups - {g} else groups[g := members]
  }

  // The groups once a Bot has been taken out of all of them.
  ghost function GroupsWithout(groups: Groups, id: BotId): Groups {
    map g | g in groups && WithoutMember(groups[g], id) != [] :: WithoutMember(groups[g], id)
  }

  // A Bot has been taken out of the groups that are not `left`.
  ghost predicate PartWay(was: Groups, now: Groups, left: set<BotId>, id: BotId) {
    && now.Keys <= was.Keys
    && (forall g :: g in left && g in was ==> g in now && now[g] == was[g])
    && (forall g :: g in was && g !in left ==>
          if WithoutMember(was[g], id) == [] then g !in now
          else g in now && now[g] == WithoutMember(was[g], id))
  }

  ghost predicate GroupsOk(groups: Groups, bots: set<BotId>) {
    forall g :: g in groups ==> MembersOk(groups[g], bots)
  }

  class Store {
    // Directories under bots/, and the profiles that can be read.
    var dirs: set<BotId>
    var bots: map<BotId, Bot>
    // Directories under groups/, and the profiles that can be read, each with
    // its members.
    var groupDirs: set<BotId>
    var groups: Groups

    ghost predicate Valid()
      reads this
    {
      && bots.Keys <= dirs
      && groups.Keys <= groupDirs
      && GroupsOk(groups, bots.Keys)
      && |bots| + |groups| <= MAX_BOTS
    }

    constructor ()
      ensures Valid() && bots == map[] && groups == map[] && dirs == {} && groupDirs == {}
    {
      dirs, bots, groupDirs, groups := {}, map[], {}, map[];
    }

    // Make a Bot. `alive` is how many file operations the process gets to do.
    method Create(name: string, title: string, description: string, alive: nat) returns (r: Result<BotId, StoreError>)
      requires Valid()
      modifies `dirs, `bots
      ensures Valid() && dirs >= old(dirs)
      ensures bots == old(bots) || (r.Ok? && bots == old(bots)[r.value := Bot(name, title, description)])
      ensures alive >= 2 && r.Ok? ==> r.value in bots
      ensures r == match Slug(name)
                   case Err(e) => Err(e)
                   case Ok(id) =>
                     if id in old(bots) then Err(Duplicate(name))
                     else if |old(bots)| + |old(groups)| >= MAX_BOTS then Err(TooMany)
                     else Ok(id)
    {
      var slug := Slug(name);
      if slug.Err? {
        return slug;
      }
      var id := slug.value;
      if id in bots {
        return Err(Duplicate(name));
      }
      if |bots| + |groups| >= MAX_BOTS {
        return Err(TooMany);
      }
      r := Ok(id);
      if alive == 0 {
        return;
      }
      dirs := dirs + {id};
      if alive == 1 {
        return;
      }
      MoreBots(groups, bots.Keys, bots.Keys + {id});
      bots := bots[id := Bot(name, title, description)];
    }

    // Copy a profile under another name.
    method Duplicated(id: BotId, name: string, alive: nat) returns (r: Result<BotId, StoreError>)
      requires Valid()
      modifies `dirs, `bots
      ensures Valid()
      ensures r == if id !in old(bots) then Err(NotFound(id))
                   else match Slug(name)
                        case Err(e) => Err(e)
                        case Ok(copy) =>
                          if copy in old(bots) then Err(Duplicate(name))
                          else if |old(bots)| + |groups| >= MAX_BOTS then Err(TooMany)
                          else Ok(copy)
      ensures bots == old(bots)
              || (id in old(bots) && r.Ok? && bots == old(bots)[r.value := old(bots)[id].(name := name)])
      ensures alive >= 2 && r.Ok? ==> r.value in bots
    {
      if id !in bots {
        return Err(NotFound(id));
      }
      r := Create(name, bots[id].title, bots[id].description, alive);
    }

    // Find the Bot a name or an id means.
    method Resolve(nameOrId: string) returns (r: Result<BotId, StoreError>)
      ensures r == Resolved(bots, nameOrId)
    {
      hide Slug, SameLetters, Trimmed;
      var wanted := Trimmed(nameOrId);
      var hits: set<BotId> := {};
      if wanted in bots {
        hits := hits + {wanted};
      }
      var slug := Slug(wanted);
      if slug.Ok? && slug.value in bots {
        hits := hits + {slug.value};
      }
      ghost var first := hits;
      var left := bots.Keys;
      while left != {}
        invariant left <= bots.Keys
        invariant hits == first + set b | b in bots && b !in left && SameLetters(bots[b].name, wanted)
        decreases left
      {
        var b :| b in left;
        left := left - {b};
        if SameLetters(bots[b].name, wanted) {
          hits := hits + {b};
        }
      }
      assert hits == Meant(bots, wanted);
      if hits == {} {
        return Err(NotFound(nameOrId));
      }
      var id :| id in hits;
      if hits == {id} {
        return Ok(id);
      }
      return Err(Ambiguous(nameOrId, hits));
    }

    // Call a Bot something else. Its id stays.
    method Rename(nameOrId: string, newName: string, alive: nat) returns (r: Result<(), StoreError>)
      requires Valid()
      modifies `bots
      ensures Valid()
      ensures r == if Trimmed(newName) == "" then Err(BadName)
                   else match Resolved(old(bots), nameOrId)
                        case Err(e) => Err(e)
                        case Ok(id) =>
                          match Slug(Trimmed(newName))
                          case Err(e) => Err(e)
                          case Ok(taken) => if taken != id && taken in old(bots) then Err(Duplicate(Trimmed(newName))) else Ok(())
      ensures var found := Resolved(old(bots), nameOrId);
              bots == if found.Ok? && r.Ok? && alive > 0
                      then old(bots)[found.value := old(bots)[found.value].(name := Trimmed(newName))] else old(bots)
    {
      hide Slug, Trimmed, Resolved, GroupsOk;
      var name := Trimmed(newName);
      if name == "" {
        return Err(BadName);
      }
      var found := Resolve(nameOrId);
      if found.Err? {
        return Err(found.error);
      }
      var id := found.value;
      var taken := Slug(name);
      if taken.Err? {
        return Err(taken.error);
      }
      if taken.value != id && taken.value in bots {
        return Err(Duplicate(name));
      }
      r := Ok(());
      if alive == 0 {
        return;
      }
      ghost var keys := bots.Keys;
      bots := bots[id := bots[id].(name := name)];
      assert bots.Keys == keys;
    }

    method CreateGroup(name: string, members: seq<BotId>, alive: nat) returns (r: Result<BotId, StoreError>)
      requires Valid()
      modifies `groupDirs, `groups
      ensures Valid()
      ensures r == match Slug(name)
                   case Err(e) => Err(e)
                   case Ok(id) =>
                     if id in old(groups) then Err(Duplicate(name))
                     else if !(MIN_GROUP <= |Firsts(members)| <= MAX_GROUP) then Err(BadGroupSize(|Firsts(members)|))
                     else if FirstMissing(Firsts(members), bots.Keys).Some? then
                       Err(NotFound(FirstMissing(Firsts(members), bots.Keys).value))
                     else if |bots| + |old(groups)| >= MAX_BOTS then Err(TooMany)
                     else Ok(id)
      ensures r.Ok? && alive >= 2 ==> r.value in groups
      ensures groups == old(groups)
              || (r.Ok? && groups == old(groups)[r.value := Firsts(members)])
    {
      hide GroupsOk, Firsts, FirstMissing, Slug, MembersOk;
      var slug := Slug(name);
      if slug.Err? {
        return slug;
      }
      var id := slug.value;
      if id in groups {
        return Err(Duplicate(name));
      }
      var deduped := Deduped(members);
      if |deduped| < MIN_GROUP || |deduped| > MAX_GROUP {
        return Err(BadGroupSize(|deduped|));
      }
      var missing := FindMissing(deduped);
      if missing.Some? {
        return Err(NotFound(missing.value));
      }
      if |bots| + |groups| >= MAX_BOTS {
        return Err(TooMany);
      }
      r := Ok(id);
      if alive == 0 {
        return;
      }
      groupDirs := groupDirs + {id};
      if alive == 1 {
        return;
      }
      MoreGroups(groups, bots.Keys, id, members);
      groups := groups[id := deduped];
    }

    method FindMissing(members: seq<BotId>) returns (missing: Option<BotId>)
      ensures missing == FirstMissing(members, bots.Keys)
    {
      for i := 0 to |members|
        invariant FirstMissing(members, bots.Keys) == FirstMissing(members[i..], bots.Keys)
      {
        assert members[i..][1..] == members[i + 1..];
        if members[i] !in bots {
          return Some(members[i]);
        }
      }
      missing := None;
    }

    method DeleteGroup(id: BotId) returns (r: Result<(), StoreError>)
      requires Valid()
      modifies `groupDirs, `groups
      ensures Valid()
      ensures groups == old(groups) - {id} && groupDirs == old(groupDirs) - {id}
      ensures r == if id in old(groupDirs) then Ok(()) else Err(NotFound(id))
    {
      hide GroupsOk;
      if id !in groupDirs {
        NothingLess(groups, groupDirs, id);
        return Err(NotFound(id));
      }
      FewerGroups(groups, id, bots.Keys);
      groupDirs, groups := groupDirs - {id}, groups - {id};
      return Ok(());
    }

    // Remove a Bot, from its groups first. A process that dies on the way has
    // taken it out of some of them and not removed it yet.
    method Delete(id: BotId, alive: nat) returns (r: Result<(), StoreError>)
      requires Valid()
      modifies this
      ensures Valid()
      ensures r == if id in old(dirs) then Ok(()) else Err(NotFound(id))
      ensures r.Err? ==> bots == old(bots) && groups == old(groups)
      ensures r.Ok? ==> exists left :: PartWay(old(groups), groups, left, id)
      ensures bots == old(bots) || (bots == old(bots) - {id} && groups == GroupsWithout(old(groups), id))
      ensures r.Ok? && alive > |old(groups)| ==> id !in bots
    {
      hide MembersOk, GroupsOk, PartWay, GroupsWithout, WithoutMember;
      if id !in dirs {
        return Err(NotFound(id));
      }
      r := Ok(());
      var left := groups.Keys;
      NoneTakenYet(groups, id);
      var done := 0;
      while left != {}
        invariant Valid() && bots == old(bots) && dirs == old(dirs)
        invariant done <= alive && done + |left| <= |old(groups)|
        invariant left <= groups.Keys
        invariant PartWay(old(groups), groups, left, id)
        decreases left
      {
        var g :| g in left;
        TakenOut(old(groups), groups, left, g, id, bots.Keys);
        left := left - {g};
        if id in groups[g] {
          if done == alive {
            return;
          }
          done := done + 1;
          TakeOut(g, id);
        }
      }
      AllTaken(old(groups), groups, id);
      if done < alive {
        RemoveDirectory(id, alive - done);
      }
    }

    // Rewrite one group, or remove it when nobody is left in it.
    method TakeOut(g: BotId, id: BotId)
      requires Valid() && g in groups && GroupsOk(OneWithout(groups, g, id), bots.Keys)
      modifies `groupDirs, `groups
      ensures Valid() && groups == OneWithout(old(groups), g, id)
    {
      hide GroupsOk;
      var members := WithoutMember(groups[g], id);
      if members == [] {
        FewerGroups(groups, g, bots.Keys);
        groupDirs := groupDirs - {g};
        groups := groups - {g};
      } else {
        ghost var keys := groups.Keys;
        groups := groups[g := members];
        assert groups.Keys == keys;
      }
    }

    // The profile goes, then what is left of the directory.
    method RemoveDirectory(id: BotId, alive: nat)
      requires Valid() && alive > 0 && forall g :: g in groups ==> id !in groups[g]
      modifies `dirs, `bots
      ensures Valid()
      ensures bots == old(bots) - {id}
      ensures dirs == if alive == 1 then old(dirs) else old(dirs) - {id}
    {
      FewerBots(bots, groups, id);
      bots := bots - {id};
      if alive > 1 {
        dirs := dirs - {id};
      }
    }
  }

  lemma MoreBots(groups: Groups, before: set<BotId>, after: set<BotId>)
    requires before <= after && GroupsOk(groups, before)
    ensures GroupsOk(groups, after)
  {
  }

  lemma MoreGroups(groups: Groups, bots: set<BotId>, id: BotId, members: seq<BotId>)
    requires GroupsOk(groups, bots) && id !in groups
    requires MIN_GROUP <= |Firsts(members)| <= MAX_GROUP && FirstMissing(Firsts(members), bots).None?
    ensures var more := groups[id := Firsts(members)];
            GroupsOk(more, bots) && |more| == |groups| + 1 && more.Keys == groups.Keys + {id}
  {
    hide Firsts, FirstMissing;
    FirstsMeaning(members);
    FirstMissingMeaning(Firsts(members), bots);
  }

  lemma FewerBots(bots: map<BotId, Bot>, groups: Groups, id: BotId)
    requires GroupsOk(groups, bots.Keys) && forall g :: g in groups ==> id !in groups[g]
    ensures (bots - {id}).Keys == bots.Keys - {id} && |bots - {id}| <= |bots|
    ensures GroupsOk(groups, (bots - {id}).Keys)
  {
    var fewer := bots - {id};
    assert fewer.Keys == bots.Keys - {id};
    SubsetSmaller(fewer.Keys, bots.Keys);
    assert |fewer| == |fewer.Keys| && |bots| == |bots.Keys|;
  }

  lemma FewerGroups(groups: Groups, g: BotId, bots: set<BotId>)
    requires GroupsOk(groups, bots)
    ensures GroupsOk(groups - {g}, bots)
    ensures (groups - {g}).Keys == groups.Keys - {g} && |groups - {g}| <= |groups|
  {
    var fewer := groups - {g};
    assert fewer.Keys == groups.Keys - {g};
    SubsetSmaller(fewer.Keys, groups.Keys);
    assert |fewer| == |fewer.Keys| && |groups| == |groups.Keys|;
  }

  lemma NothingLess(groups: Groups, dirs: set<BotId>, id: BotId)
    requires id !in groups && id !in dirs
    ensures groups - {id} == groups && dirs - {id} == dirs
  {
  }

  lemma NoneTakenYet(groups: Groups, id: BotId)
    ensures PartWay(groups, groups, groups.Keys, id) && |groups.Keys| == |groups|
  {
  }

  // Settling one more group, whether it has to be rewritten or never held the Bot.
  lemma TakenOut(was: Groups, now: Groups, left: set<BotId>, g: BotId, id: BotId, bots: set<BotId>)
    requires GroupsOk(now, bots) && g in left && left <= now.Keys && PartWay(was, now, left, id)
    ensures var next := OneWithout(now, g, id);
            && GroupsOk(next, bots) && PartWay(was, next, left - {g}, id) && left - {g} <= next.Keys
            && (id !in now[g] ==> next == now)
  {
    hide Distinct, MembersOk;
    assert MembersOk(now[g], bots);
    MembersWithout(now[g], id, bots);
  }

  lemma AllTaken(was: Groups, now: Groups, id: BotId)
    requires PartWay(was, now, {}, id)
    ensures now == GroupsWithout(was, id) && forall g :: g in now ==> id !in now[g]
  {
    assert now.Keys == GroupsWithout(was, id).Keys;
  }

  lemma MembersWithout(members: seq<BotId>, id: BotId, bots: set<BotId>)
    requires MembersOk(members, bots)
    ensures id !in members ==> WithoutMember(members, id) == members
    ensures WithoutMember(members, id) != [] ==> MembersOk(WithoutMember(members, id), bots)
    ensures members != []
  {
    WithoutMemberDistinct(members, id);
    if id !in members {
      NothingTaken(members, id);
    }
  }

  lemma {:induction false} NothingTaken(members: seq<BotId>, id: BotId)
    requires id !in members
    ensures WithoutMember(members, id) == members
  {
    if members != [] {
      NothingTaken(members[1..], id);
    }
  }

  method Deduped(members: seq<BotId>) returns (out: seq<BotId>)
    ensures out == Firsts(members)
  {
    out := [];
    for i := 0 to |members|
      invariant out == Firsts(members[..i])
    {
      assert members[..i + 1][..i] == members[..i];
      if members[i] !in out {
        out := out + [members[i]];
      }
    }
    assert members[..|members|] == members;
  }

  // Two Bots can come to display one name: the first is renamed to it, which
  // leaves its id where it was, and the second is made with it.
  method ShareAName(first: string, shared: string) returns (account: Store, a: BotId, b: BotId)
    requires Slug(first).Ok? && Slug(shared).Ok? && Slug(first) != Slug(shared) && Trimmed(shared) == shared
    ensures account.Valid() && a != b && a in account.bots && b in account.bots
    ensures account.bots[a].name == account.bots[b].name == shared
    ensures Resolved(account.bots, shared).Err?
  {
    hide Slug, Trimmed, Resolved, Tidy, SameLetters, GroupsOk;
    account := new Store();
    var made := account.Create(first, "", "", 2);
    SlugOfSlug(first);
    a := made.value;
    OnlyOne(account.bots, a);
    NotBlank(shared);
    var renamed := account.Rename(a, shared, 1);
    var again := account.Create(shared, "", "", 2);
    b := again.value;
    SameLettersItself(shared);
    SharedNameFindsNobody(account.bots, a, b, shared);
  }

  lemma OnlyOne(bots: map<BotId, Bot>, a: BotId)
    requires bots.Keys == {a} && Tidy(a, true) && Slug(a) == Ok(a)
    ensures Resolved(bots, a) == Ok(a)
  {
    hide Slug, Tidy;
    IdFinds(bots, a);
  }

  lemma NotBlank(name: string)
    requires Slug(name).Ok?
    ensures name != ""
  {
  }

  lemma SameLettersItself(name: string)
    ensures SameLetters(name, name)
  {
  }
}
