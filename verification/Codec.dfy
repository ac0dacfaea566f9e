// Values stored one to a line.

module Codec {
  import opened Wrappers
  import opened Sequences
  import opened Lines

  // A serialised form and its reader, and which bytes are text at all. All three
  // are parameters of the model.
  datatype Codec<!M(!new)> = Codec(enc: M -> Bytes, dec: Bytes -> Option<M>, isText: Bytes -> bool)
  {
    // Every value fits on one line of text that is not blank, and reads back.
    ghost predicate Sound() {
      forall m :: SoundFor(m)
    }

    ghost predicate SoundFor(m: M) {
      var l := enc(m);
      LF !in l && CR !in l && Trim(l) != [] && isText(l) && dec(l) == Some(m)
    }
  }

  function EncodeAll<M(!new)>(c: Codec<M>, ms: seq<M>): (lines: seq<Bytes>)
    ensures |lines| == |ms|
    ensures forall i :: 0 <= i < |ms| ==> lines[i] == c.enc(ms[i])
  {
    seq(|ms|, i requires 0 <= i < |ms| => c.enc(ms[i]))
  }

  // The file that holds these values and nothing else.
  function FileOf<M(!new)>(c: Codec<M>, ms: seq<M>): Bytes {
    Unlines(EncodeAll(c, ms))
  }

  function ParseLine<M(!new)>(c: Codec<M>, line: Bytes): Option<M> {
    if Trim(line) == [] then None else c.dec(line)
  }

  // What a reader takes from lines: blank ones and ones that do not parse are
  // passed over.
  function Parse<M(!new)>(c: Codec<M>, lines: seq<Bytes>): seq<M> {
    if lines == [] then []
    else
      var rest := Parse(c, lines[1..]);
      match ParseLine(c, lines[0])
      case None => rest
      case Some(m) => [m] + rest
  }

  function ParseFile<M(!new)>(c: Codec<M>, file: Bytes): seq<M> {
    Parse(c, LinesOf(file))
  }

  function Parsed<M(!new)>(c: Codec<M>, line: Bytes): seq<M> {
    match ParseLine(c, line)
    case None => []
    case Some(m) => [m]
  }

  lemma ParseHead<M(!new)>(c: Codec<M>, lines: seq<Bytes>)
    requires lines != []
    ensures Parse(c, lines) == Parsed(c, lines[0]) + Parse(c, lines[1..])
  {
    hide ParseLine;
  }

  lemma {:induction false} ParseConcat<M(!new)>(c: Codec<M>, a: seq<Bytes>, b: seq<Bytes>)
    ensures Parse(c, a + b) == Parse(c, a) + Parse(c, b)
  {
    hide ParseLine;
    if a == [] {
      assert a + b == b;
    } else {
      ParseConcat(c, a[1..], b);
      assert (a + b)[1..] == a[1..] + b && (a + b)[0] == a[0];
      ParseHead(c, a);
      ParseHead(c, a + b);
      hide Parse;
      Assoc(Parsed(c, a[0]), Parse(c, a[1..]), Parse(c, b));
    }
  }

  lemma ParseOne<M(!new)>(c: Codec<M>, line: Bytes)
    ensures Parse(c, [line]) == Parsed(c, line)
  {
    assert [line][1..] == [];
    ParseHead(c, [line]);
    assert Parsed(c, line) + [] == Parsed(c, line);
  }

  // Among other lines, one that is blank or does not parse counts for nothing,
  // and one that parses for its value.
  lemma {:induction false} ParseAround<M(!new)>(c: Codec<M>, before: seq<Bytes>, line: Bytes, behind: seq<Bytes>)
    ensures Trim(line) == [] || c.dec(line).None? ==> Parse(c, before + [line] + behind) == Parse(c, before + behind)
    ensures Trim(line) != [] && c.dec(line).Some?
            ==> Parse(c, before + [line] + behind) == Parse(c, before) + [c.dec(line).value] + Parse(c, behind)
  {
    ParseConcat(c, before + [line], behind);
    ParseConcat(c, before, [line]);
    ParseConcat(c, before, behind);
    ParseOne(c, line);
    hide Parse, Trim;
    assert Parse(c, before) + [] == Parse(c, before);
  }

  lemma {:induction false} ParseEncoded<M(!new)>(c: Codec<M>, ms: seq<M>)
    requires c.Sound()
    ensures Parse(c, EncodeAll(c, ms)) == ms
  {
    if ms != [] {
      assert c.SoundFor(ms[0]);
      ParseEncoded(c, ms[1..]);
      assert EncodeAll(c, ms)[1..] == EncodeAll(c, ms[1..]);
    }
  }

  lemma EncodedLines<M(!new)>(c: Codec<M>, ms: seq<M>)
    requires c.Sound()
    ensures forall l :: l in EncodeAll(c, ms) ==> OneLine(l) && CR !in l
    ensures LinesOf(FileOf(c, ms)) == EncodeAll(c, ms)
  {
    forall l | l in EncodeAll(c, ms)
      ensures OneLine(l) && CR !in l
    {
      var i :| 0 <= i < |ms| && l == c.enc(ms[i]);
      assert c.SoundFor(ms[i]);
    }
    LinesOfUnlines(EncodeAll(c, ms));
  }

  // A file reads back as the values it was written from.
  lemma {:induction false} ParseFileOf<M(!new)>(c: Codec<M>, ms: seq<M>)
    requires c.Sound()
    ensures ParseFile(c, FileOf(c, ms)) == ms
  {
    EncodedLines(c, ms);
    ParseEncoded(c, ms);
  }

  lemma FileOfConcat<M(!new)>(c: Codec<M>, a: seq<M>, b: seq<M>)
    ensures FileOf(c, a + b) == FileOf(c, a) + FileOf(c, b)
  {
    assert EncodeAll(c, a + b) == EncodeAll(c, a) + EncodeAll(c, b);
    UnlinesConcat(EncodeAll(c, a), EncodeAll(c, b));
  }

  // One file begins with another's bytes exactly when its values begin with
  // the other's values.
  lemma {:induction false} FileOfPrefix<M(!new)>(c: Codec<M>, a: seq<M>, b: seq<M>)
    requires c.Sound()
    ensures FileOf(c, a) <= FileOf(c, b) <==> a <= b
  {
    EncodedLines(c, a);
    EncodedLines(c, b);
    UnlinesPrefix(EncodeAll(c, a), EncodeAll(c, b));
    if EncodeAll(c, a) <= EncodeAll(c, b) {
      forall i | 0 <= i < |a|
        ensures a[i] == b[i]
      {
        assert EncodeAll(c, a)[i] == EncodeAll(c, b)[i];
        assert c.SoundFor(a[i]) && c.SoundFor(b[i]);
      }
    }
  }
}
