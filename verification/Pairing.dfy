// How calls and their results sit next to each other in what a run adds.

module Pairing {
  import opened Conversation
  import opened Compaction
  import opened Window

  // r carries one result for each call of q, in order, and nothing else.
  ghost predicate IsAnswer(q: Message, r: Message) {
    && r.role == User
    && UseIds(q.content) != []
    && ResultIds(r.content) == UseIds(q.content)
    && forall j :: 0 <= j < |r.content| ==> r.content[j].ToolResult?
  }

  // Every message that carries a result answers the message right before it.
  ghost predicate Paired(ms: seq<Message>) {
    forall i :: 0 <= i < |ms| && ResultIds(ms[i].content) != [] ==> i > 0 && IsAnswer(ms[i - 1], ms[i])
  }

  // Every message that makes calls is answered by the one right after it, but
  // for the last message, which may be waiting.
  ghost predicate AnsweredButLast(ms: seq<Message>) {
    forall i :: 0 <= i < |ms| - 1 && UseIds(ms[i].content) != [] ==> IsAnswer(ms[i], ms[i + 1])
  }

  ghost predicate Waiting(ms: seq<Message>) {
    ms != [] && UseIds(ms[|ms| - 1].content) != []
  }

  ghost predicate RunShape(ms: seq<Message>) {
    Paired(ms) && AnsweredButLast(ms)
  }

  lemma {:induction false} AllResultsNoUses(cs: seq<Content>)
    requires forall j :: 0 <= j < |cs| ==> cs[j].ToolResult?
    ensures UseIds(cs) == [] && |ResultIds(cs)| == |cs|
  {
    if cs != [] {
      AllResultsNoUses(cs[1..]);
    }
  }

  // A message without results, after a run that is not waiting.
  lemma PushPlain(ms: seq<Message>, m: Message)
    requires RunShape(ms) && !Waiting(ms) && ResultIds(m.content) == []
    ensures RunShape(ms + [m])
  {
    var out := ms + [m];
    forall i | 0 <= i < |out| && ResultIds(out[i].content) != []
      ensures i > 0 && IsAnswer(out[i - 1], out[i])
    {
      assert out[i] == ms[i];
    }
    forall i | 0 <= i < |out| - 1 && UseIds(out[i].content) != []
      ensures IsAnswer(out[i], out[i + 1])
    {
      assert out[i] == ms[i];
      assert out[i + 1] == ms[i + 1];
    }
  }

  // The results a waiting run is waiting for.
  lemma PushAnswer(ms: seq<Message>, m: Message)
    requires RunShape(ms) && ms != [] && IsAnswer(ms[|ms| - 1], m)
    ensures RunShape(ms + [m]) && !Waiting(ms + [m])
  {
    AllResultsNoUses(m.content);
    var out := ms + [m];
    forall i | 0 <= i < |out| && ResultIds(out[i].content) != []
      ensures i > 0 && IsAnswer(out[i - 1], out[i])
    {
      if i < |ms| {
        assert out[i] == ms[i];
      }
    }
    forall i | 0 <= i < |out| - 1 && UseIds(out[i].content) != []
      ensures IsAnswer(out[i], out[i + 1])
    {
      assert out[i] == ms[i];
    }
  }

  // Compaction leaves the pairing alone.
  lemma ShapeKeepsPairing(a: seq<Message>, b: seq<Message>)
    requires SameShape(a, b)
    ensures RunShape(a) ==> RunShape(b)
    ensures Waiting(a) <==> Waiting(b)
  {
    forall i | 0 <= i < |a|
      ensures UseIds(a[i].content) == UseIds(b[i].content) && ResultIds(a[i].content) == ResultIds(b[i].content)
    {
      assert SameMessage(a[i], b[i]);
      SameIds(a[i].content, b[i].content);
    }
    forall i, k | 0 <= i < |a| && 0 <= k < |a| && IsAnswer(a[i], a[k])
      ensures IsAnswer(b[i], b[k])
    {
      assert SameMessage(a[k], b[k]);
      forall j | 0 <= j < |b[k].content|
        ensures b[k].content[j].ToolResult?
      {
        assert SameBlock(a[k].content[j], b[k].content[j]);
      }
    }
  }

  // ── legal requests ─────────────────────────────────────────────────

  ghost predicate NoneEmpty(ms: seq<Message>) {
    forall i :: 0 <= i < |ms| ==> ms[i].content != []
  }

  // A legal window followed by a run that is not waiting is legal.
  lemma {:induction false} LegalRequest(history: seq<Message>, added: seq<Message>)
    requires Legal(history) && RunShape(added) && !Waiting(added) && NoneEmpty(added)
    ensures Legal(history + added)
  {
    var all := history + added;
    forall i, id | 0 <= i < |all| && Answers(all[i], id)
      ensures CalledBefore(all, i, id)
    {
      if i < |history| {
        assert Answers(history[i], id) && CalledBefore(history, i, id);
        var k :| 0 <= k < i && Calls(history[k], id);
        assert Calls(all[k], id);
      } else {
        var j := i - |history|;
        AnswersMeaning(added[j], id);
        assert IsAnswer(added[j - 1], added[j]);
        CallsMeaning(added[j - 1], id);
        assert Calls(all[i - 1], id);
      }
    }
    forall i, id | 0 <= i < |all| && Calls(all[i], id)
      ensures AnsweredSomewhere(all, id)
    {
      if i < |history| {
        assert Calls(history[i], id) && AnsweredSomewhere(history, id);
        var k :| 0 <= k < |history| && Answers(history[k], id);
        assert Answers(all[k], id);
      } else {
        var j := i - |history|;
        CallsMeaning(added[j], id);
        assert j < |added| - 1;
        assert IsAnswer(added[j], added[j + 1]);
        AnswersMeaning(added[j + 1], id);
        assert Answers(all[i + 1], id);
      }
    }
    forall i | 0 <= i < |all|
      ensures all[i].content != []
    {
      if i >= |history| {
        assert all[i] == added[i - |history|];
      }
    }
  }

  // And compaction keeps it so.
  lemma {:induction false} ShapeKeepsLegal(a: seq<Message>, b: seq<Message>)
    requires SameShape(a, b) && Legal(a)
    ensures Legal(b)
  {
    forall i, id | 0 <= i < |a|
      ensures Calls(a[i], id) <==> Calls(b[i], id)
      ensures Answers(a[i], id) <==> Answers(b[i], id)
    {
      assert SameMessage(a[i], b[i]);
      SameIds(a[i].content, b[i].content);
      CallsMeaning(a[i], id);
      CallsMeaning(b[i], id);
      AnswersMeaning(a[i], id);
      AnswersMeaning(b[i], id);
    }
    forall i | 0 <= i < |b|
      ensures b[i].content != []
    {
      assert SameMessage(a[i], b[i]);
    }
    forall i, id | 0 <= i < |b| && Answers(b[i], id)
      ensures CalledBefore(b, i, id)
    {
      assert Answers(a[i], id) && CalledBefore(a, i, id);
      var k :| 0 <= k < i && Calls(a[k], id);
      assert Calls(b[k], id);
    }
    forall i, id | 0 <= i < |b| && Calls(b[i], id)
      ensures AnsweredSomewhere(b, id)
    {
      assert Calls(a[i], id) && AnsweredSomewhere(a, id);
      var k :| 0 <= k < |a| && Answers(a[k], id);
      assert Answers(b[k], id);
    }
  }
}
