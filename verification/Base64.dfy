/** Standard base64 with padding (section 4 of RFC 4648), decoded as the Go library does: line
    breaks are skipped and unused low bits of the last character are ignored. */
module Base64 {
  import opened Basics

  /** A to Z, a to z, 0 to 9, + and /. */
  function Letter(n: int): char
    requires 0 <= n < 64
  {
    if n < 26 then ('A' as int + n) as char
    else if n < 52 then ('a' as int + n - 26) as char
    else if n < 62 then ('0' as int + n - 52) as char
    else if n == 62 then '+' else '/'
  }

  predicate IsLetter(c: char) {
    'A' <= c <= 'Z' || 'a' <= c <= 'z' || '0' <= c <= '9' || c == '+' || c == '/'
  }

  function Value(c: char): (n: int)
    requires IsLetter(c)
    ensures 0 <= n < 64
  {
    if 'A' <= c <= 'Z' then c as int - 'A' as int
    else if 'a' <= c <= 'z' then c as int - 'a' as int + 26
    else if '0' <= c <= '9' then c as int - '0' as int + 52
    else if c == '+' then 62 else 63
  }

  lemma LetterValue(n: int)
    requires 0 <= n < 64
    ensures IsLetter(Letter(n)) && Value(Letter(n)) == n && Letter(n) != '='
  {
  }

  function Quad(b0: Byte, b1: Byte, b2: Byte): string {
    [Letter(b0 / 4), Letter(b0 % 4 * 16 + b1 / 16), Letter(b1 % 16 * 4 + b2 / 64), Letter(b2 % 64)]
  }

  function Encode(b: Bytes): string {
    if b == [] then ""
    else if |b| == 1 then Quad(b[0], 0, 0)[..2] + "=="
    else if |b| == 2 then Quad(b[0], b[1], 0)[..3] + "="
    else Quad(b[0], b[1], b[2]) + Encode(b[3..])
  }

  function DecodeQuads(s: string): Option<Bytes> {
    if s == "" then Some([])
    else if |s| < 4 || !IsLetter(s[0]) || !IsLetter(s[1]) then None
    else
      var first := Value(s[0]) * 4 + Value(s[1]) / 16;
      if s[2] == '=' then
        if s[3] == '=' && |s| == 4 then Some([first]) else None
      else if !IsLetter(s[2]) then None
      else
        var second := Value(s[1]) % 16 * 16 + Value(s[2]) / 4;
        if s[3] == '=' then
          if |s| == 4 then Some([first, second]) else None
        else if !IsLetter(s[3]) then None
        else
          match DecodeQuads(s[4..])
          case None => None
          case Some(rest) => Some([first, second, Value(s[2]) % 4 * 64 + Value(s[3])] + rest)
  }

  function SkipBreaks(s: string): string {
    if s == "" then ""
    else (if s[0] == '\r' || s[0] == '\n' then "" else [s[0]]) + SkipBreaks(s[1..])
  }

  function Decode(s: string): Option<Bytes> {
    DecodeQuads(SkipBreaks(s))
  }

  // ---- Round trip ----

  predicate NoBreaks(s: string) {
    forall i :: 0 <= i < |s| ==> s[i] != '\r' && s[i] != '\n'
  }

  lemma {:induction false} SkipsNothing(s: string)
    requires NoBreaks(s)
    ensures SkipBreaks(s) == s
  {
    if s != "" {
      SkipsNothing(s[1..]);
    }
  }

  lemma {:induction false} EncodeHasNoBreaks(b: Bytes)
    ensures NoBreaks(Encode(b)) && (b != [] ==> Encode(b) != "")
  {
    if |b| >= 3 {
      EncodeHasNoBreaks(b[3..]);
    }
  }

  lemma SixBitGroups(b0: Byte, b1: Byte, b2: Byte)
    ensures var v0, v1, v2, v3 := b0 / 4, b0 % 4 * 16 + b1 / 16, b1 % 16 * 4 + b2 / 64, b2 % 64;
            && 0 <= v0 < 64 && 0 <= v1 < 64 && 0 <= v2 < 64 && 0 <= v3 < 64
            && v0 * 4 + v1 / 16 == b0 && v1 % 16 * 16 + v2 / 4 == b1 && v2 % 4 * 64 + v3 == b2
  {
  }

  lemma QuadLetters(b0: Byte, b1: Byte, b2: Byte)
    ensures var q := Quad(b0, b1, b2);
            && IsLetter(q[0]) && IsLetter(q[1]) && IsLetter(q[2]) && IsLetter(q[3]) && q[2] != '=' && q[3] != '='
            && Value(q[0]) * 4 + Value(q[1]) / 16 == b0
            && Value(q[1]) % 16 * 16 + Value(q[2]) / 4 == b1
            && Value(q[2]) % 4 * 64 + Value(q[3]) == b2
  {
    SixBitGroups(b0, b1, b2);
    LetterValue(b0 / 4);
    LetterValue(b0 % 4 * 16 + b1 / 16);
    LetterValue(b1 % 16 * 4 + b2 / 64);
    LetterValue(b2 % 64);
  }

  lemma DecodeQuad(b0: Byte, b1: Byte, b2: Byte, s: string, rest: Bytes)
    requires DecodeQuads(s) == Some(rest)
    ensures DecodeQuads(Quad(b0, b1, b2) + s) == Some([b0, b1, b2] + rest)
  {
    QuadLetters(b0, b1, b2);
    var q := Quad(b0, b1, b2) + s;
    assert q[4..] == s;
  }

  lemma DecodeOne(b0: Byte)
    ensures DecodeQuads(Quad(b0, 0, 0)[..2] + "==") == Some([b0])
  {
    QuadLetters(b0, 0, 0);
  }

  lemma DecodeTwo(b0: Byte, b1: Byte)
    ensures DecodeQuads(Quad(b0, b1, 0)[..3] + "=") == Some([b0, b1])
  {
    QuadLetters(b0, b1, 0);
  }

  lemma FirstThree(b: Bytes)
    requires |b| >= 3
    ensures [b[0], b[1], b[2]] + b[3..] == b
  {
  }

  lemma {:induction false} DecodeQuadsEncode(b: Bytes)
    ensures DecodeQuads(Encode(b)) == Some(b)
  {
    if |b| >= 3 {
      DecodeQuadsEncode(b[3..]);
      DecodeQuad(b[0], b[1], b[2], Encode(b[3..]), b[3..]);
      FirstThree(b);
    } else if |b| == 2 {
      DecodeTwo(b[0], b[1]);
      assert b == [b[0], b[1]];
    } else if |b| == 1 {
      DecodeOne(b[0]);
      assert b == [b[0]];
    }
  }

  lemma DecodeEncode(b: Bytes)
    ensures Decode(Encode(b)) == Some(b)
  {
    EncodeHasNoBreaks(b);
    SkipsNothing(Encode(b));
    DecodeQuadsEncode(b);
  }

  lemma {:induction false} EncodeLonger(b: Bytes)
    ensures |Encode(b)| >= |b|
  {
    if |b| >= 3 {
      EncodeLonger(b[3..]);
    }
  }

  /** Four letters are the text of three bytes, whoever wrote them. */
  lemma DecodeAbcd()
    ensures Decode("abcd").Some? && |Decode("abcd").value| == 3
  {
    SkipsNothing("abcd");
    assert "abcd"[4..] == [];
  }
}
