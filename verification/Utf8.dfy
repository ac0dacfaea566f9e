// Text as bytes.

module Utf8 {
  import opened Lines
  import opened Characters

  // A character in UTF-8.
  function Encoded(c: char): Bytes {
    var n := c as int;
    if n < 0x80 then [n]
    else if n < 0x800 then [0xC0 + n / 64, 0x80 + n % 64]
    else if n < 0x1_0000 then [0xE0 + n / 4096, 0x80 + n / 64 % 64, 0x80 + n % 64]
    else [0xF0 + n / 262144 % 8, 0x80 + n / 4096 % 64, 0x80 + n / 64 % 64, 0x80 + n % 64]
  }

  lemma TwoBytes(n: int)
    requires 0x80 <= n < 0x800
    ensures 0xC2 <= 0xC0 + n / 64 < 0xE0 && 0x80 <= 0x80 + n % 64 < 0xC0
    ensures IsSpace2(0xC0 + n / 64, 0x80 + n % 64) <==> n == 0x85 || n == 0xA0
  {
    assert n == 64 * (n / 64) + n % 64;
  }

  predicate White3(n: int) {
    n == 0x1680 || 0x2000 <= n <= 0x200A || n == 0x2028 || n == 0x2029 || n == 0x202F || n == 0x205F || n == 0x3000
  }

  lemma ThreeBytes(n: int)
    requires 0x800 <= n < 0x1_0000
    ensures 0xE0 <= 0xE0 + n / 4096 < 0xF0 && 0x80 <= 0x80 + n / 64 % 64 < 0xC0 && 0x80 <= 0x80 + n % 64 < 0xC0
    ensures IsSpace3(0xE0 + n / 4096, 0x80 + n / 64 % 64, 0x80 + n % 64) <==> White3(n)
  {
    assert n == 4096 * (n / 4096) + 64 * (n / 64 % 64) + n % 64;
  }

  lemma FourBytes(n: int)
    requires 0x1_0000 <= n < 0x11_0000
    ensures 0xF0 <= 0xF0 + n / 262144 % 8 && 0x80 <= 0x80 + n / 4096 % 64 < 0xC0
    ensures 0x80 <= 0x80 + n / 64 % 64 < 0xC0 && 0x80 <= 0x80 + n % 64 < 0xC0
  {
  }

  // What the bytes of a character are like.
  lemma EncodedMeaning(c: char)
    ensures var e := Encoded(c);
            && 1 <= |e| <= 4
            && (|e| == 1 ==> e[0] < 0x80 && (IsSpace(e[0]) <==> IsWhite(c)))
            && (|e| == 2 ==> 0xC2 <= e[0] < 0xE0 && Later(e[1]) && (IsSpace2(e[0], e[1]) <==> IsWhite(c)))
            && (|e| == 3 ==> 0xE0 <= e[0] < 0xF0 && Later(e[1]) && Later(e[2]) && (IsSpace3(e[0], e[1], e[2]) <==> IsWhite(c)))
            && (|e| == 4 ==> 0xF0 <= e[0] && Later(e[1]) && Later(e[2]) && Later(e[3]) && !IsWhite(c))
  {
    var n := c as int;
    if n < 0x80 {
    } else if n < 0x800 {
      TwoBytes(n);
    } else if n < 0x1_0000 {
      ThreeBytes(n);
    } else {
      FourBytes(n);
    }
  }

  predicate Later(b: Byte) {
    0x80 <= b < 0xC0
  }

  // A line that begins with a character begins with white space exactly when
  // the character is white, and then it is that character that is trimmed.
  lemma {:induction false} SpaceIsWhite(c: char, rest: Bytes)
    ensures SpaceAtStart(Encoded(c) + rest) == if IsWhite(c) then |Encoded(c)| else 0
  {
    hide Encoded, IsWhite;
    EncodedMeaning(c);
    var e, l := Encoded(c), Encoded(c) + rest;
    assert forall i :: 0 <= i < |e| ==> l[i] == e[i];
  }

  // And the same at its end.
  lemma {:induction false} SpaceAtEndIsWhite(rest: Bytes, c: char)
    ensures SpaceAtEnd(rest + Encoded(c)) == if IsWhite(c) then |Encoded(c)| else 0
  {
    hide Encoded, IsWhite;
    EncodedMeaning(c);
    var e, l := Encoded(c), rest + Encoded(c);
    assert forall i :: 0 <= i < |e| ==> l[|rest| + i] == e[i];
  }

  // ── whole texts ────────────────────────────────────────────────────

  function EncodedText(s: string): Bytes {
    if s == "" then [] else Encoded(s[0]) + EncodedText(s[1..])
  }

  lemma {:induction false} EncodedConcat(a: string, b: string)
    ensures EncodedText(a + b) == EncodedText(a) + EncodedText(b)
  {
    hide Encoded;
    if a == "" {
      assert a + b == b;
    } else {
      EncodedConcat(a[1..], b);
      assert (a + b)[1..] == a[1..] + b && (a + b)[0] == a[0];
    }
  }

  lemma EncodedLast(s: string)
    requires s != ""
    ensures EncodedText(s) == EncodedText(s[..|s| - 1]) + Encoded(s[|s| - 1])
  {
    hide Encoded;
    var front, last := s[..|s| - 1], s[|s| - 1];
    assert s == front + [last];
    EncodedConcat(front, [last]);
    assert [last][1..] == "";
    assert EncodedText([last]) == Encoded(last) + EncodedText("");
  }

  lemma {:induction false} TrimStartIsTrimmed(s: string)
    ensures TrimStart(EncodedText(s)) == EncodedText(TrimmedStart(s))
  {
    hide Encoded, IsWhite;
    if s != "" {
      EncodedMeaning(s[0]);
      hide SpaceAtStart;
      SpaceIsWhite(s[0], EncodedText(s[1..]));
      if IsWhite(s[0]) {
        TrimStartIsTrimmed(s[1..]);
        assert EncodedText(s)[|Encoded(s[0])|..] == EncodedText(s[1..]);
      }
    }
  }

  lemma {:induction false} TrimEndIsTrimmed(s: string)
    ensures TrimEnd(EncodedText(s)) == EncodedText(TrimmedEnd(s))
  {
    hide Encoded, IsWhite;
    if s != "" {
      var front, last := s[..|s| - 1], s[|s| - 1];
      EncodedMeaning(last);
      EncodedLast(s);
      hide SpaceAtEnd;
      SpaceAtEndIsWhite(EncodedText(front), last);
      if IsWhite(last) {
        TrimEndIsTrimmed(front);
        assert EncodedText(s)[..|EncodedText(s)| - |Encoded(last)|] == EncodedText(front);
      }
    }
  }

  // Trimming the bytes of a text is trimming the text.
  lemma {:induction false} TrimIsTrimmed(s: string)
    ensures Trim(EncodedText(s)) == EncodedText(Trimmed(s))
  {
    TrimEndIsTrimmed(s);
    TrimStartIsTrimmed(TrimmedEnd(s));
  }
}
