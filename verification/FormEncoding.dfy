/** application/x-www-form-urlencoded serializing and parsing (section 5 of the WHATWG URL Standard), on ASCII texts. */
module FormEncoding {

  predicate Ascii(s: string) { forall i :: 0 <= i < |s| ==> s[i] as int < 128 }

  predicate Alphanumeric(c: char) { 'a' <= c <= 'z' || 'A' <= c <= 'Z' || '0' <= c <= '9' }

  /** Characters the serializer leaves alone. */
  predicate Unreserved(c: char) { Alphanumeric(c) || c == '*' || c == '-' || c == '.' || c == '_' }

  function HexDigit(d: nat): char
    requires d < 16
  {
    if d < 10 then '0' + d as char else 'A' + (d - 10) as char
  }

  predicate IsHex(c: char) { '0' <= c <= '9' || 'A' <= c <= 'F' || 'a' <= c <= 'f' }

  function HexValue(c: char): nat
    requires IsHex(c)
  {
    if '0' <= c <= '9' then (c - '0') as nat
    else if 'A' <= c <= 'F' then (c - 'A') as nat + 10
    else (c - 'a') as nat + 10
  }

  function EncodeChar(c: char): string
    requires c as int < 128
  {
    if Unreserved(c) then [c] else if c == ' ' then "+" else ['%', HexDigit(c as int / 16), HexDigit(c as int % 16)]
  }

  function Encode(s: string): string
    requires Ascii(s)
  {
    if s == "" then "" else EncodeChar(s[0]) + Encode(s[1..])
  }

  /** Percent-decoding with '+' for space; a '%' that two hex digits do not follow stands for itself. */
  function Decode(s: string): string {
    if s == "" then ""
    else if s[0] == '+' then " " + Decode(s[1..])
    else if s[0] == '%' && |s| >= 3 && IsHex(s[1]) && IsHex(s[2]) then
      [(HexValue(s[1]) * 16 + HexValue(s[2])) as char] + Decode(s[3..])
    else [s[0]] + Decode(s[1..])
  }

  type Pair = (string, string)

  ghost predicate AsciiPairs(pairs: seq<Pair>) {
    forall i :: 0 <= i < |pairs| ==> Ascii(pairs[i].0) && Ascii(pairs[i].1)
  }

  function Piece(p: Pair): string
    requires Ascii(p.0) && Ascii(p.1)
  {
    Encode(p.0) + "=" + Encode(p.1)
  }

  function Serialize(pairs: seq<Pair>): string
    requires AsciiPairs(pairs)
  {
    if |pairs| == 0 then ""
    else if |pairs| == 1 then Piece(pairs[0])
    else Piece(pairs[0]) + "&" + Serialize(pairs[1..])
  }

  /** Length of the longest prefix without the character. */
  function Until(s: string, c: char): (n: nat)
    ensures n <= |s|
  {
    if s == "" || s[0] == c then 0 else 1 + Until(s[1..], c)
  }

  function ParsePiece(piece: string): Pair {
    var n := Until(piece, '=');
    (Decode(piece[..n]), if n < |piece| then Decode(piece[n + 1..]) else "")
  }

  /** Pieces between '&'; empty ones are skipped. */
  function Parse(s: string): seq<Pair>
    decreases |s|
  {
    if s == "" then []
    else
      var n := Until(s, '&');
      (if n == 0 then [] else [ParsePiece(s[..n])]) + (if n < |s| then Parse(s[n + 1..]) else [])
  }

  // ---- Round trip ----

  lemma EncodeCharDecodes(c: char, rest: string)
    requires c as int < 128
    ensures Decode(EncodeChar(c) + rest) == [c] + Decode(rest)
  {
    var s := EncodeChar(c) + rest;
    if Unreserved(c) {
      assert s[0] == c && s[1..] == rest;
    } else if c == ' ' {
      assert s[0] == '+' && s[1..] == rest;
    } else {
      assert s[0] == '%' && s[1] == HexDigit(c as int / 16) && s[2] == HexDigit(c as int % 16) && s[3..] == rest;
    }
  }

  lemma {:induction false} EncodeDecodes(s: string)
    requires Ascii(s)
    ensures Decode(Encode(s)) == s
  {
    if s != "" {
      EncodeDecodes(s[1..]);
      EncodeCharDecodes(s[0], Encode(s[1..]));
      assert s == [s[0]] + s[1..];
    }
  }

  lemma {:induction false} EncodeHasNoSeparators(s: string)
    requires Ascii(s)
    ensures '&' !in Encode(s) && '=' !in Encode(s)
  {
    if s != "" {
      EncodeHasNoSeparators(s[1..]);
      assert '&' !in EncodeChar(s[0]) && '=' !in EncodeChar(s[0]);
    }
  }

  lemma {:induction false} UntilSeparator(s: string, c: char, rest: string)
    requires c !in s && (rest == "" || rest[0] == c)
    ensures Until(s + rest, c) == |s|
  {
    if s == "" {
      assert s + rest == rest;
    } else {
      assert (s + rest)[1..] == s[1..] + rest;
      UntilSeparator(s[1..], c, rest);
    }
  }

  lemma PieceParses(p: Pair)
    requires Ascii(p.0) && Ascii(p.1)
    ensures ParsePiece(Piece(p)) == p && Piece(p) != "" && '&' !in Piece(p)
  {
    EncodeHasNoSeparators(p.0);
    EncodeHasNoSeparators(p.1);
    var name, tail := Encode(p.0), "=" + Encode(p.1);
    assert Piece(p) == name + tail;
    UntilSeparator(name, '=', tail);
    assert Piece(p)[..|name|] == name && Piece(p)[|name| + 1..] == Encode(p.1);
    EncodeDecodes(p.0);
    EncodeDecodes(p.1);
  }

  /** Parsing what was serialized gives back the same pairs. */
  lemma {:induction false} SerializeParses(pairs: seq<Pair>)
    requires AsciiPairs(pairs)
    ensures Parse(Serialize(pairs)) == pairs
  {
    if pairs != [] {
      PieceParses(pairs[0]);
      var piece, s := Piece(pairs[0]), Serialize(pairs);
      var rest := if |pairs| == 1 then "" else "&" + Serialize(pairs[1..]);
      assert s == piece + rest;
      UntilSeparator(piece, '&', rest);
      assert s[..|piece|] == piece;
      if |pairs| > 1 {
        assert s[|piece| + 1..] == Serialize(pairs[1..]);
        SerializeParses(pairs[1..]);
      }
      assert pairs == [pairs[0]] + pairs[1..];
    }
  }

  // ---- Lengths ----

  lemma {:induction false} UnreservedEncodesItself(s: string)
    requires Ascii(s) && forall c :: c in s ==> Unreserved(c)
    ensures Encode(s) == s
  {
    if s != "" {
      assert forall c :: c in s[1..] ==> c in s;
      UnreservedEncodesItself(s[1..]);
      assert s == [s[0]] + s[1..];
    }
  }

  /** The characters the pairs take, each with its '=' and one separator. */
  function Weight(pairs: seq<Pair>): nat
    requires AsciiPairs(pairs)
  {
    if pairs == [] then 0 else |Encode(pairs[0].0)| + |Encode(pairs[0].1)| + 2 + Weight(pairs[1..])
  }

  lemma {:induction false} SerializedLength(pairs: seq<Pair>)
    requires AsciiPairs(pairs) && pairs != []
    ensures |Serialize(pairs)| == Weight(pairs) - 1
  {
    if |pairs| > 1 {
      SerializedLength(pairs[1..]);
    }
  }

  lemma {:induction false} WeightConcat(a: seq<Pair>, b: seq<Pair>)
    requires AsciiPairs(a) && AsciiPairs(b)
    ensures AsciiPairs(a + b) && Weight(a + b) == Weight(a) + Weight(b)
  {
    if a == [] {
      assert a + b == b;
    } else {
      assert (a + b)[1..] == a[1..] + b;
      WeightConcat(a[1..], b);
    }
  }

  // ---- Which characters are encoded ----

  ghost predicate Upper(c: char, d: nat) {
    d < 16 && c as nat == if d < 10 then '0' as nat + d else 'A' as nat + (d - 10)
  }

  /**
   Letters, digits and four marks stand for themselves, a space is a plus, and all else is two upper-case hex
   digits.
   */
  lemma EncodedAs(c: char)
    requires c as int < 128
    ensures EncodeChar(c) == [c]
       <==> 'a' <= c <= 'z' || 'A' <= c <= 'Z' || '0' <= c <= '9' || c in {'*', '-', '.', '_'}
    ensures EncodeChar(c) == "+" <==> c == ' '
    ensures EncodeChar(c) != [c] && c != ' ' ==>
              var e := EncodeChar(c);
              |e| == 3 && e[0] == '%' && Upper(e[1], c as nat / 16) && Upper(e[2], c as nat % 16)
  {
  }
}
