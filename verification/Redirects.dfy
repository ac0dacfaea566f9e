// What a person says to a run in progress, from being said to being heard.

module Redirects {
  import opened Characters

  datatype Act = Say(text: string) | Look

  // What was accepted: everything said that is not blank, in order.
  function Accepted(acts: seq<Act>): seq<string> {
    if acts == [] then []
    else
      var last := acts[|acts| - 1];
      var before := Accepted(acts[..|acts| - 1]);
      if last.Say? && !Blank(last.text) then before + [last.text] else before
  }

  // What the looks so far have found, one after the other.
  function Heard(acts: seq<Act>): seq<string> {
    if acts == [] then []
    else if acts[|acts| - 1].Look? then Accepted(acts)
    else Heard(acts[..|acts| - 1])
  }

  class Queue {
    var texts: seq<string>
    // Everything done with the queue, oldest first.
    ghost var acts: seq<Act>

    ghost predicate Valid()
      reads this
    {
      Accepted(acts) == Heard(acts) + texts
    }

    constructor ()
      ensures Valid() && acts == []
    {
      texts, acts := [], [];
    }

    method Send(text: string)
      requires Valid()
      modifies this
      ensures Valid() && acts == old(acts) + [Say(text)]
    {
      acts := acts + [Say(text)];
      assert acts[..|acts| - 1] == old(acts);
      if Blank(text) {
        return;
      }
      texts := texts + [text];
    }

    // Empty the queue into the conversation, first in first out. After
    // the run this is what it never heard.
    method Take() returns (out: seq<string>)
      requires Valid()
      modifies this
      ensures Valid() && acts == old(acts) + [Look] && texts == []
      ensures Heard(old(acts)) + out == Heard(acts) == Accepted(acts)
    {
      acts := acts + [Look];
      assert acts[..|acts| - 1] == old(acts);
      out := texts;
      texts := [];
    }
  }

  // What has been heard is always the first part of what was accepted, and a
  // look between two halves of a history splits it there: each accepted text
  // is heard once, in order.
  lemma {:induction false} HeardOnce(acts: seq<Act>)
    ensures Heard(acts) <= Accepted(acts)
    ensures forall text :: text in Accepted(acts) <==> !Blank(text) && Say(text) in acts
  {
    if acts != [] {
      var front, last := acts[..|acts| - 1], acts[|acts| - 1];
      HeardOnce(front);
      assert acts == front + [last];
    }
  }

  // Of two stretches of a history each adds what was said in it, and one thing
  // said adds itself unless it is blank.
  lemma {:induction false} AcceptedOf(acts: seq<Act>, more: seq<Act>, text: string)
    ensures Accepted(acts + more) == Accepted(acts) + Accepted(more)
    ensures Accepted([Say(text)]) == (if Blank(text) then [] else [text]) && Accepted([Look]) == []
    decreases |more|
  {
    assert [Say(text)][..0] == [] && [Look][..0] == [];
    if more == [] {
      assert acts + more == acts;
    } else {
      var front, last := more[..|more| - 1], more[|more| - 1];
      AcceptedOf(acts, front, text);
      assert (acts + more)[..|acts + more| - 1] == acts + front;
      assert Accepted(acts) + (Accepted(front) + [text]) == Accepted(acts) + Accepted(front) + [text];
    }
  }
}
