// Shrinking a conversation in place until it fits the context.

module Compaction {
  import opened Conversation
  import opened Utf8

  const DROPPED: string :=
    "[earlier result dropped to fit the context \U{2014} run the tool again if you still need it]"

  // How many bytes a text takes in UTF-8.
  function Bytes(s: string): nat {
    if s == [] then 0
    else
      var c := s[0] as int;
      (if c < 0x80 then 1 else if c < 0x800 then 2 else if c < 0x1_0000 then 3 else 4) + Bytes(s[1..])
  }

  function BlockSize(c: Content): nat {
    match c
    case Text(text) => Bytes(text)
    case ToolUse(_, _, input) => Bytes(input)
    case ToolResult(_, content, _) => Bytes(content)
  }

  function BlocksSize(cs: seq<Content>): nat {
    if cs == [] then 0 else BlockSize(cs[0]) + BlocksSize(cs[1..])
  }

  function Size(ms: seq<Message>): nat {
    if ms == [] then 0 else BlocksSize(ms[0].content) + Size(ms[1..])
  }

  // Everything written in a message: its texts, the arguments of its calls and
  // the texts of its results, one after the other.
  function WrittenIn(cs: seq<Content>): string {
    if cs == [] then ""
    else
      (match cs[0]
       case Text(text) => text
       case ToolUse(_, _, input) => input
       case ToolResult(_, content, _) => content) + WrittenIn(cs[1..])
  }

  function Written(ms: seq<Message>): string {
    if ms == [] then "" else WrittenIn(ms[0].content) + Written(ms[1..])
  }

  lemma {:induction false} BytesMeaning(s: string)
    ensures Bytes(s) == |EncodedText(s)|
  {
    if s != "" {
      BytesMeaning(s[1..]);
    }
  }

  lemma {:induction false} BytesConcat(a: string, b: string)
    ensures Bytes(a + b) == Bytes(a) + Bytes(b)
  {
    BytesMeaning(a);
    BytesMeaning(b);
    BytesMeaning(a + b);
    EncodedConcat(a, b);
  }

  lemma {:induction false} BlocksSizeMeaning(cs: seq<Content>)
    ensures BlocksSize(cs) == Bytes(WrittenIn(cs))
  {
    hide Bytes;
    if cs == [] {
      BytesMeaning("");
    } else {
      BlocksSizeMeaning(cs[1..]);
      match cs[0]
      case Text(text) => BytesConcat(text, WrittenIn(cs[1..]));
      case ToolUse(_, _, input) => BytesConcat(input, WrittenIn(cs[1..]));
      case ToolResult(_, content, _) => BytesConcat(content, WrittenIn(cs[1..]));
    }
  }

  // The size of a conversation is what all that is written in it takes in UTF-8.
  lemma {:induction false} SizeMeaning(ms: seq<Message>)
    ensures Size(ms) == |EncodedText(Written(ms))|
  {
    hide Bytes, EncodedText;
    if ms == [] {
      BytesMeaning("");
    } else {
      SizeMeaning(ms[1..]);
      BlocksSizeMeaning(ms[0].content);
      BytesMeaning(WrittenIn(ms[0].content));
      EncodedConcat(WrittenIn(ms[0].content), Written(ms[1..]));
    }
    NothingEncoded();
  }

  lemma NothingEncoded()
    ensures EncodedText("") == []
  {
  }

  // ── what one replacement does ──────────────────────────────────────

  function DropBlock(c: Content): Content {
    if c.ToolResult? then c.(content := DROPPED) else c
  }

  function DropBlocks(cs: seq<Content>): (out: seq<Content>)
    ensures |out| == |cs|
    ensures forall j :: 0 <= j < |cs| ==> out[j] == DropBlock(cs[j])
  {
    seq(|cs|, j requires 0 <= j < |cs| => DropBlock(cs[j]))
  }

  function DropMessage(m: Message): Message {
    Message(m.role, DropBlocks(m.content))
  }

  // The first p messages with every result replaced.
  function DropFirst(ms: seq<Message>, p: nat): (out: seq<Message>)
    requires p <= |ms|
    ensures |out| == |ms|
    ensures forall i :: 0 <= i < |ms| ==> out[i] == if i < p then DropMessage(ms[i]) else ms[i]
  {
    seq(|ms|, i requires 0 <= i < |ms| => if i < p then DropMessage(ms[i]) else ms[i])
  }

  // Results whose text is there, and results whose text is gone.
  function LiveBlocks(cs: seq<Content>): nat {
    if cs == [] then 0
    else (if cs[0].ToolResult? && cs[0].content != DROPPED then 1 else 0) + LiveBlocks(cs[1..])
  }

  function Live(ms: seq<Message>): nat {
    if ms == [] then 0 else LiveBlocks(ms[0].content) + Live(ms[1..])
  }

  // How many bytes the texts of the live results take.
  function LiveBytesIn(cs: seq<Content>): nat {
    if cs == [] then 0
    else (if cs[0].ToolResult? && cs[0].content != DROPPED then Bytes(cs[0].content) else 0) + LiveBytesIn(cs[1..])
  }

  function LiveBytes(ms: seq<Message>): nat {
    if ms == [] then 0 else LiveBytesIn(ms[0].content) + LiveBytes(ms[1..])
  }

  function ResultCount(ms: seq<Message>): nat {
    if ms == [] then 0 else |ResultIds(ms[0].content)| + ResultCount(ms[1..])
  }

  // ── what a compaction may change ───────────────────────────────────

  // The same block but for a result's text, which may be the placeholder now.
  predicate SameBlock(a: Content, b: Content) {
    a == b || (a.ToolResult? && b == a.(content := DROPPED))
  }

  ghost predicate SameMessage(a: Message, b: Message) {
    && a.role == b.role
    && |a.content| == |b.content|
    && forall j :: 0 <= j < |a.content| ==> SameBlock(a.content[j], b.content[j])
  }

  ghost predicate SameShape(a: seq<Message>, b: seq<Message>) {
    |a| == |b| && forall i :: 0 <= i < |a| ==> SameMessage(a[i], b[i])
  }

  // ── the compaction ─────────────────────────────────────────────────

  function StopAt(ms: seq<Message>, keepRecent: nat): nat {
    if keepRecent <= |ms| then |ms| - keepRecent else 0
  }

  // How many messages are gone through: none when the conversation fits, and
  // otherwise up to the first prefix that makes it fit, or all but the recent.
  function Reach(ms: seq<Message>, budget: nat, keepRecent: nat): (p: nat)
    ensures p <= |ms|
  {
    if Size(ms) <= budget then 0 else ReachFrom(ms, budget, 0, StopAt(ms, keepRecent))
  }

  function ReachFrom(ms: seq<Message>, budget: nat, p: nat, stop: nat): (q: nat)
    requires stop <= |ms|
    ensures q <= |ms|
    decreases stop - p
  {
    if p >= stop then stop
    else if Size(DropFirst(ms, p + 1)) <= budget then p + 1
    else ReachFrom(ms, budget, p + 1, stop)
  }

  lemma {:induction false} ReachFromMeaning(ms: seq<Message>, budget: nat, p: nat, stop: nat)
    requires p <= stop <= |ms|
    ensures var q := ReachFrom(ms, budget, p, stop);
            && p <= q <= stop
            && (p < stop ==> p < q)
            && (forall k :: p < k < q ==> Size(DropFirst(ms, k)) > budget)
            && (q == stop || Size(DropFirst(ms, q)) <= budget)
    decreases stop - p
  {
    hide Size, DropFirst;
    if p < stop && Size(DropFirst(ms, p + 1)) > budget {
      ReachFromMeaning(ms, budget, p + 1, stop);
    }
  }

  // Where a compaction stops, and what it leaves.
  lemma {:induction false} ReachMeaning(ms: seq<Message>, budget: nat, keepRecent: nat)
    ensures var p, stop := Reach(ms, budget, keepRecent), StopAt(ms, keepRecent);
            && p <= stop <= |ms|
            && (Size(ms) <= budget ==> p == 0)
            && (Size(ms) > budget && stop > 0 ==> p > 0)
            && (forall k :: 0 <= k < p ==> Size(DropFirst(ms, k)) > budget)
            && (Size(DropFirst(ms, p)) <= budget || p == stop)
  {
    hide Size, DropMessage, ReachFrom;
    assert DropFirst(ms, 0) == ms;
    if Size(ms) > budget {
      ReachFromMeaning(ms, budget, 0, StopAt(ms, keepRecent));
    }
  }

  // A growing list of messages. `Compact` may change what is in it, never how
  // many there are.
  class Transcript {
    var messages: seq<Message>

    constructor (history: seq<Message>)
      ensures messages == history
    {
      messages := history;
    }

    method Push(m: Message)
      modifies this
      ensures messages == old(messages) + [m]
    {
      messages := messages + [m];
    }

    // Replace the text of the oldest results. Returns how many it replaced.
    method Compact(budget: nat, keepRecent: nat) returns (dropped: nat)
      modifies this
      ensures var p := Reach(old(messages), budget, keepRecent);
              p <= |old(messages)|
              && messages == DropFirst(old(messages), p)
              && dropped == Live(old(messages)[..p])
      ensures SameShape(old(messages), messages)
      ensures forall i :: 0 <= i < |messages| && i >= |messages| - keepRecent ==> messages[i] == old(messages)[i]
    {
      ghost var was := messages;
      ReachMeaning(was, budget, keepRecent);
      assert was[..0] == [] && DropFirst(was, 0) == was;
      DropFirstShape(was, Reach(was, budget, keepRecent));
      RecentStay(was, Reach(was, budget, keepRecent), keepRecent);
      hide DropMessage, SameShape, Size, Live, LiveBlocks;
      if Size(messages) <= budget {
        return 0;
      }
      var stop := if keepRecent <= |messages| then |messages| - keepRecent else 0;
      dropped := 0;
      var i := 0;
      while i < stop
        invariant i <= stop == StopAt(was, keepRecent)
        invariant messages == DropFirst(was, i)
        invariant dropped == Live(was[..i])
        invariant Reach(was, budget, keepRecent) == ReachFrom(was, budget, i, stop)
      {
        DropNext(was, i);
        LivePush(was, i);
        var m, n := Replaced(messages[i]);
        messages := messages[i := m];
        dropped := dropped + n;
        i := i + 1;
        if Size(messages) <= budget {
          break;
        }
      }
    }
  }

  // One message with its results replaced, and how many still had their text.
  method Replaced(m: Message) returns (out: Message, n: nat)
    ensures out == DropMessage(m) && n == LiveBlocks(m.content)
  {
    var content := m.content;
    n := 0;
    var j := 0;
    while j < |content|
      invariant j <= |content| == |m.content|
      invariant forall k :: 0 <= k < |content| ==> content[k] == if k < j then DropBlock(m.content[k]) else m.content[k]
      invariant n + LiveBlocks(m.content[j..]) == LiveBlocks(m.content)
    {
      assert m.content[j..][1..] == m.content[j + 1..];
      if content[j].ToolResult? && content[j].content != DROPPED {
        content := content[j := content[j].(content := DROPPED)];
        n := n + 1;
      }
      j := j + 1;
    }
    assert content == DropBlocks(m.content);
    out := Message(m.role, content);
  }

  lemma DropFirstShape(ms: seq<Message>, p: nat)
    requires p <= |ms|
    ensures SameShape(ms, DropFirst(ms, p))
  {
    forall i | 0 <= i < |ms|
      ensures SameMessage(ms[i], DropFirst(ms, p)[i])
    {
    }
  }

  lemma DropNext(ms: seq<Message>, i: nat)
    requires i < |ms|
    ensures DropFirst(ms, i)[i] == ms[i]
    ensures DropFirst(ms, i)[i := DropMessage(ms[i])] == DropFirst(ms, i + 1)
  {
    hide DropMessage;
  }

  lemma RecentStay(ms: seq<Message>, p: nat, keepRecent: nat)
    requires p <= StopAt(ms, keepRecent) <= |ms|
    ensures forall i :: 0 <= i < |ms| && i >= |ms| - keepRecent ==> DropFirst(ms, p)[i] == ms[i]
  {
  }

  lemma {:induction false} LiveConcat(a: seq<Message>, b: seq<Message>)
    ensures Live(a + b) == Live(a) + Live(b)
    ensures ResultCount(a + b) == ResultCount(a) + ResultCount(b)
  {
    if a == [] {
      assert a + b == b;
    } else {
      LiveConcat(a[1..], b);
      assert (a + b)[1..] == a[1..] + b;
    }
  }

  lemma LivePush(ms: seq<Message>, i: nat)
    requires i < |ms|
    ensures Live(ms[..i + 1]) == Live(ms[..i]) + LiveBlocks(ms[i].content)
  {
    assert ms[..i + 1] == ms[..i] + [ms[i]];
    LiveConcat(ms[..i], [ms[i]]);
    assert Live([ms[i]]) == LiveBlocks(ms[i].content) + Live([]);
  }

  lemma {:induction false} DroppedNotLive(cs: seq<Content>)
    ensures LiveBlocks(DropBlocks(cs)) == 0
    ensures ResultIds(DropBlocks(cs)) == ResultIds(cs)
  {
    if cs != [] {
      DroppedNotLive(cs[1..]);
      assert DropBlocks(cs)[1..] == DropBlocks(cs[1..]);
    }
  }

  lemma {:induction false} DropAllNotLive(ms: seq<Message>)
    ensures Live(DropFirst(ms, |ms|)) == 0
    ensures ResultCount(DropFirst(ms, |ms|)) == ResultCount(ms)
  {
    if ms != [] {
      DropAllNotLive(ms[1..]);
      DroppedNotLive(ms[0].content);
      assert DropFirst(ms, |ms|)[1..] == DropFirst(ms[1..], |ms| - 1);
    }
  }

  // A compaction counts exactly the results that lost their text: what it
  // reports is what it takes from the live ones.
  lemma {:induction false} CompactCounts(ms: seq<Message>, p: nat)
    requires p <= |ms|
    ensures Live(DropFirst(ms, p)) + Live(ms[..p]) == Live(ms)
    ensures ResultCount(DropFirst(ms, p)) == ResultCount(ms)
  {
    hide Live, ResultCount, DropMessage;
    var out := DropFirst(ms, p);
    assert out == DropFirst(ms[..p], p) + ms[p..];
    assert ms == ms[..p] + ms[p..];
    LiveConcat(DropFirst(ms[..p], p), ms[p..]);
    LiveConcat(ms[..p], ms[p..]);
    DropAllNotLive(ms[..p]);
  }

  // What is left fits, or has no older result left to replace.
  lemma {:induction false} CompactEnds(ms: seq<Message>, budget: nat, keepRecent: nat)
    ensures var out, stop := DropFirst(ms, Reach(ms, budget, keepRecent)), StopAt(ms, keepRecent);
            stop <= |out| && (Size(out) <= budget || Live(out[..stop]) == 0)
  {
    hide Size, Live, DropMessage, Reach;
    ReachMeaning(ms, budget, keepRecent);
    var p := Reach(ms, budget, keepRecent);
    DropAllNotLive(ms[..p]);
    assert DropFirst(ms, p)[..p] == DropFirst(ms[..p], p);
  }

  // Compacting what was compacted drops nothing and changes nothing.
  lemma {:induction false} CompactTwice(ms: seq<Message>, budget: nat, keepRecent: nat)
    ensures var once := DropFirst(ms, Reach(ms, budget, keepRecent));
            var p := Reach(once, budget, keepRecent);
            p <= |once| && DropFirst(once, p) == once && Live(once[..p]) == 0
  {
    ReachMeaning(ms, budget, keepRecent);
    var q := Reach(ms, budget, keepRecent);
    var once := DropFirst(ms, q);
    ReachMeaning(once, budget, keepRecent);
    var p := Reach(once, budget, keepRecent);
    assert p <= q;
    assert DropFirst(once, p) == once by {
      forall i | 0 <= i < |once|
        ensures DropFirst(once, p)[i] == once[i]
      {
        DropTwice(ms[i]);
      }
    }
    assert once[..p] == DropFirst(ms[..p], p);
    DropAllNotLive(ms[..p]);
  }

  lemma DropTwice(m: Message)
    ensures DropMessage(DropMessage(m)) == DropMessage(m)
  {
    assert DropBlocks(DropBlocks(m.content)) == DropBlocks(m.content);
  }

  // A compaction keeps the ids that pair calls with results.
  lemma {:induction false} SameIds(a: seq<Content>, b: seq<Content>)
    requires |a| == |b| && forall j :: 0 <= j < |a| ==> SameBlock(a[j], b[j])
    ensures UseIds(a) == UseIds(b) && ResultIds(a) == ResultIds(b)
  {
    if a != [] {
      assert SameBlock(a[0], b[0]);
      forall j | 0 <= j < |a[1..]|
        ensures SameBlock(a[1..][j], b[1..][j])
      {
        assert SameBlock(a[j + 1], b[j + 1]);
      }
      SameIds(a[1..], b[1..]);
    }
  }

  lemma SameShapeTrans(a: seq<Message>, b: seq<Message>, d: seq<Message>)
    requires SameShape(a, b) && SameShape(b, d)
    ensures SameShape(a, d)
  {
    forall i | 0 <= i < |a|
      ensures SameMessage(a[i], d[i])
    {
      assert SameMessage(a[i], b[i]) && SameMessage(b[i], d[i]);
      forall j | 0 <= j < |a[i].content|
        ensures SameBlock(a[i].content[j], d[i].content[j])
      {
        assert SameBlock(a[i].content[j], b[i].content[j]);
        assert SameBlock(b[i].content[j], d[i].content[j]);
      }
    }
  }

  // ── what a compaction does to the size ─────────────────────────────

  lemma {:induction false} BlocksSizeDropped(cs: seq<Content>)
    ensures BlocksSize(DropBlocks(cs)) + LiveBytesIn(cs) == BlocksSize(cs) + LiveBlocks(cs) * Bytes(DROPPED)
  {
    hide Bytes;
    if cs != [] {
      BlocksSizeDropped(cs[1..]);
      assert DropBlocks(cs)[1..] == DropBlocks(cs[1..]);
      Times(LiveBlocks(cs) - LiveBlocks(cs[1..]), LiveBlocks(cs[1..]), Bytes(DROPPED));
    }
  }

  lemma Times(a: nat, b: nat, k: nat)
    ensures (a + b) * k == a * k + b * k
    ensures 0 * k == 0 && 1 * k == k
  {
  }

  lemma {:induction false} SizeConcat(a: seq<Message>, b: seq<Message>)
    ensures Size(a + b) == Size(a) + Size(b)
  {
    hide BlocksSize;
    if a == [] {
      assert a + b == b;
    } else {
      SizeConcat(a[1..], b);
      assert (a + b)[1..] == a[1..] + b;
    }
  }

  lemma {:induction false} SizeAllDropped(ms: seq<Message>)
    ensures Size(DropFirst(ms, |ms|)) + LiveBytes(ms) == Size(ms) + Live(ms) * Bytes(DROPPED)
  {
    hide Bytes, BlocksSize, LiveBlocks, LiveBytesIn;
    if ms != [] {
      SizeAllDropped(ms[1..]);
      BlocksSizeDropped(ms[0].content);
      assert DropFirst(ms, |ms|)[1..] == DropFirst(ms[1..], |ms| - 1);
      Times(LiveBlocks(ms[0].content), Live(ms[1..]), Bytes(DROPPED));
    }
  }

  // The size changes by the texts that go and the placeholders that come.
  lemma {:induction false} CompactSize(ms: seq<Message>, p: nat)
    requires p <= |ms|
    ensures Size(DropFirst(ms, p)) + LiveBytes(ms[..p]) == Size(ms) + Live(ms[..p]) * Bytes(DROPPED)
  {
    hide Size, Live, LiveBytes, Bytes, DropMessage;
    assert DropFirst(ms, p) == DropFirst(ms[..p], p) + ms[p..];
    assert ms == ms[..p] + ms[p..];
    SizeConcat(DropFirst(ms[..p], p), ms[p..]);
    SizeConcat(ms[..p], ms[p..]);
    SizeAllDropped(ms[..p]);
  }

  // So a compaction makes the conversation larger exactly when the texts it
  // takes out are shorter, together, than the placeholders it puts in.
  lemma {:induction false} GrowsExactly(ms: seq<Message>, budget: nat, keepRecent: nat)
    ensures var p := Reach(ms, budget, keepRecent);
            Size(DropFirst(ms, p)) > Size(ms) <==> LiveBytes(ms[..p]) < Live(ms[..p]) * Bytes(DROPPED)
  {
    hide Size, Live, LiveBytes, Bytes;
    CompactSize(ms, Reach(ms, budget, keepRecent));
  }

  // For instance a tool answered nothing, and the six messages since, which a
  // run keeps as they are, are over the budget by themselves.
  lemma {:induction false} CompactCanGrow(id: ToolUseId, name: string, input: string, recent: seq<Message>, budget: nat)
    requires |recent| == 6 && Size(recent) > budget
    ensures var early := [Message(Assistant, [ToolUse(id, name, input)]), Message(User, [ToolResult(id, "", false)])];
            var ms := early + recent;
            Reach(ms, budget, 6) == 2 && Size(DropFirst(ms, 2)) == Size(ms) + Bytes(DROPPED) > Size(ms)
  {
    LiveOfTwo(id, name, input);
    hide Size, Live, LiveBytes, Bytes, Reach, DROPPED;
    BigLater([Message(Assistant, [ToolUse(id, name, input)]), Message(User, [ToolResult(id, "", false)])], recent, budget);
  }

  // Recent messages over the budget by themselves have everything before them
  // gone through.
  lemma BigLater(early: seq<Message>, later: seq<Message>, budget: nat)
    requires Size(later) > budget
    requires Live(early) == 1 && LiveBytes(early) == 0
    ensures var ms := early + later;
            && Reach(ms, budget, |later|) == |early|
            && Size(DropFirst(ms, |early|)) == Size(ms) + Bytes(DROPPED) > Size(ms)
  {
    hide *;
    var ms := early + later;
    ReachesAll(early, later, budget);
    assert ms[..|early|] == early;
    CompactSize(ms, |early|);
    Times(1, 0, Bytes(DROPPED));
    PlaceholderHasText();
  }

  lemma ReachesAll(early: seq<Message>, later: seq<Message>, budget: nat)
    requires Size(later) > budget
    ensures Reach(early + later, budget, |later|) == |early|
  {
    hide Size, Reach, DropMessage;
    var ms := early + later;
    ReachMeaning(ms, budget, |later|);
    var p := Reach(ms, budget, |later|);
    assert DropFirst(ms, p) == DropFirst(early, p) + later;
    SizeConcat(DropFirst(early, p), later);
  }

  lemma PlaceholderHasText()
    ensures Bytes(DROPPED) > 0
  {
    assert |DROPPED| > 0;
    hide DROPPED;
    BytesAtLeast(DROPPED);
  }

  lemma LiveOfTwo(id: ToolUseId, name: string, input: string)
    ensures var two := [Message(Assistant, [ToolUse(id, name, input)]), Message(User, [ToolResult(id, "", false)])];
            Live(two) == 1 && LiveBytes(two) == 0
  {
    var ask, none := Message(Assistant, [ToolUse(id, name, input)]), Message(User, [ToolResult(id, "", false)]);
    assert [ask, none][1..] == [none] && [none][1..] == [];
    assert ask.content[1..] == [] && none.content[1..] == [];
    assert DROPPED != "" && Bytes("") == 0;
    assert Live([none]) == LiveBlocks(none.content) + Live([]);
    assert LiveBytes([none]) == LiveBytesIn(none.content) + LiveBytes([]);
  }

  lemma {:induction false} BytesAtLeast(s: string)
    ensures Bytes(s) >= |s|
  {
    if s != [] {
      BytesAtLeast(s[1..]);
    }
  }
}
