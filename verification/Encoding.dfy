/** `encode` and `encode_query`: percent-encoding, sections 2.1 and 2.3 of RFC 3986. */
module Encoding {
  import opened Wrappers
  import opened Volume

  predicate IsUnreservedByte(b: Byte) {
    'A' as Byte <= b <= 'Z' as Byte || 'a' as Byte <= b <= 'z' as Byte || '0' as Byte <= b <= '9' as Byte
    || b == '-' as Byte || b == '_' as Byte || b == '.' as Byte || b == '~' as Byte
  }

  predicate IsUnreserved(c: char) {
    'A' <= c <= 'Z' || 'a' <= c <= 'z' || '0' <= c <= '9' || c == '-' || c == '_' || c == '.' || c == '~'
  }

  const CAPITALS := "ABCDEFGHIJKLMNOPQRSTUVWXYZ"
  const SMALL := "abcdefghijklmnopqrstuvwxyz"
  const DIGITS := "0123456789"

  lemma InOrder(i: nat)
    ensures i < |CAPITALS| ==> CAPITALS[i] as int == 65 + i
    ensures i < |SMALL| ==> SMALL[i] as int == 97 + i
    ensures i < |DIGITS| ==> DIGITS[i] as int == 48 + i
    ensures |CAPITALS| == |SMALL| == 26 && |DIGITS| == 10
  {
  }

  lemma InAlphabet(c: char, s: string, first: int)
    requires forall i :: 0 <= i < |s| ==> s[i] as int == first + i
    ensures c in s <==> first <= c as int < first + |s|
  {
    if first <= c as int < first + |s| {
      assert s[c as int - first] == c;
    }
  }

  /** Left as they are: letters, digits and four marks, and nothing else. */
  lemma UnreservedExactly(b: Byte)
    ensures var c := b as char;
      Encoded([b]) == [c] <==> c in CAPITALS || c in SMALL || c in DIGITS || c in "-_.~"
    ensures IsUnreserved(b as char) <==> IsUnreservedByte(b)
  {
    hide HexDigit;
    var c := b as char;
    assert [b][1..] == [];
    assert Encoded([b]) == EncodedByte(b) + "" == EncodedByte(b);
    forall i: nat {
      InOrder(i);
    }
    hide CAPITALS, SMALL, DIGITS;
    InAlphabet(c, CAPITALS, 65);
    InAlphabet(c, SMALL, 97);
    InAlphabet(c, DIGITS, 48);
  }

  function HexDigit(n: nat): char
    requires n < 16
  {
    if n < 10 then '0' + n as char else 'A' + (n - 10) as char
  }

  predicate IsHex(c: char) {
    '0' <= c <= '9' || 'A' <= c <= 'F'
  }

  function HexValue(c: char): nat
    requires IsHex(c)
  {
    if c <= '9' then c as int - '0' as int else c as int - 'A' as int + 10
  }

  function EncodedByte(b: Byte): string {
    if IsUnreservedByte(b) then [b as char] else ['%', HexDigit(b as int / 16), HexDigit(b as int % 16)]
  }

  function Encoded(s: Bytes): string {
    if s == [] then "" else EncodedByte(s[0]) + Encoded(s[1..])
  }

  lemma {:induction false} EncodedConcat(a: Bytes, b: Bytes)
    ensures Encoded(a + b) == Encoded(a) + Encoded(b)
  {
    if a == [] {
      assert a + b == b;
    } else {
      assert (a + b)[1..] == a[1..] + b;
      EncodedConcat(a[1..], b);
    }
  }

  /** `encode`. */
  method Encode(s: Bytes) returns (out: string)
    ensures out == Encoded(s)
  {
    out := "";
    for i := 0 to |s|
      invariant out == Encoded(s[..i])
    {
      assert s[..i + 1] == s[..i] + [s[i]];
      EncodedConcat(s[..i], [s[i]]);
      assert [s[i]][1..] == [];
      if IsUnreservedByte(s[i]) {
        out := out + [s[i] as char];
      } else {
        out := out + ['%', HexDigit(s[i] as int / 16), HexDigit(s[i] as int % 16)];
      }
    }
    assert s[..|s|] == s;
  }

  /** Section 2.1 of RFC 3986: an octet is an unreserved character or `%` and two hexadecimal digits. */
  function Decode(s: string): Option<Bytes>
    decreases |s|
  {
    if s == "" then Some([])
    else if IsUnreserved(s[0]) then
      match Decode(s[1..])
      case None => None
      case Some(rest) => Some([s[0] as Byte] + rest)
    else if |s| >= 3 && s[0] == '%' && IsHex(s[1]) && IsHex(s[2]) then
      match Decode(s[3..])
      case None => None
      case Some(rest) => Some([(16 * HexValue(s[1]) + HexValue(s[2])) as Byte] + rest)
    else None
  }

  lemma DecodesByte(b: Byte, rest: string)
    requires Decode(rest).Some?
    ensures Decode(EncodedByte(b) + rest) == Some([b] + Decode(rest).value)
  {
    var s := EncodedByte(b) + rest;
    if IsUnreservedByte(b) {
      assert s[1..] == rest;
    } else {
      assert s[3..] == rest && !IsUnreserved('%');
      var h, l := b as int / 16, b as int % 16;
      HexReads(h);
      HexReads(l);
      hide HexDigit, HexValue, IsHex;
      assert s[1] == HexDigit(h) && s[2] == HexDigit(l);
    }
  }

  lemma HexReads(n: nat)
    requires n < 16
    ensures IsHex(HexDigit(n)) && HexValue(HexDigit(n)) == n
  {
  }

  /** Decoding what was encoded loses nothing. */
  lemma {:induction false} DecodesBack(s: Bytes)
    ensures Decode(Encoded(s)) == Some(s)
  {
    if s != [] {
      DecodesBack(s[1..]);
      DecodesByte(s[0], Encoded(s[1..]));
      assert [s[0]] + s[1..] == s;
    }
  }

  /** The characters of an encoded component: none separates paths, queries or fragments. */
  predicate IsPlain(c: char) {
    IsUnreserved(c) || c == '%'
  }

  lemma {:induction false} EncodedIsPlain(s: Bytes)
    ensures forall c :: c in Encoded(s) ==> IsPlain(c)
  {
    if s != [] {
      EncodedIsPlain(s[1..]);
      var b := s[0] as int;
      assert b / 16 < 16 && b % 16 < 16;
    }
  }

  type Pair = (Bytes, Bytes)

  function EncodedPair(p: Pair): string {
    Encoded(p.0) + "=" + Encoded(p.1)
  }

  /** `encode_query`: the pairs joined by `&`. */
  function EncodedQuery(q: seq<Pair>): string {
    if q == [] then ""
    else if |q| == 1 then EncodedPair(q[0])
    else EncodedPair(q[0]) + "&" + EncodedQuery(q[1..])
  }

  /** What comes before the first `sep`, and what comes after. */
  function SplitAt(s: string, sep: char): (r: (string, Option<string>))
    ensures r.1.Some? ==> s == r.0 + [sep] + r.1.value && |r.1.value| < |s|
    ensures r.1.None? ==> r.0 == s
  {
    if s == "" then ("", None)
    else if s[0] == sep then ("", Some(s[1..]))
    else
      var (a, b) := SplitAt(s[1..], sep);
      ([s[0]] + a, b)
  }

  function DecodePair(s: string): Option<Pair> {
    match SplitAt(s, '=')
    case (_, None) => None
    case (k, Some(v)) => if Decode(k).Some? && Decode(v).Some? then Some((Decode(k).value, Decode(v).value)) else None
  }

  /** What a server makes of a query: pairs between `&`s, split at the first `=` and decoded. */
  function DecodeQuery(s: string): Option<seq<Pair>>
    decreases |s|
  {
    if s == "" then Some([])
    else
      var (first, rest) := SplitAt(s, '&');
      match (DecodePair(first), rest)
      case (None, _) => None
      case (Some(p), None) => Some([p])
      case (Some(p), Some(more)) =>
        if more == "" then None
        else match DecodeQuery(more)
          case None => None
          case Some(ps) => Some([p] + ps)
  }

  lemma {:induction false} SplitsThere(a: string, sep: char, b: string)
    requires sep !in a
    ensures SplitAt(a + [sep] + b, sep) == (a, Some(b)) && SplitAt(a, sep) == (a, None)
  {
    if a == "" {
      assert "" + [sep] + b == [sep] + b;
    } else {
      assert (a + [sep] + b)[1..] == a[1..] + [sep] + b;
      SplitsThere(a[1..], sep, b);
      assert [a[0]] + a[1..] == a;
    }
  }

  lemma PairDecodesBack(p: Pair)
    ensures DecodePair(EncodedPair(p)) == Some(p) && '&' !in EncodedPair(p) && EncodedPair(p) != ""
  {
    hide Encoded, Decode;
    EncodedIsPlain(p.0);
    EncodedIsPlain(p.1);
    DecodesBack(p.0);
    DecodesBack(p.1);
    assert !IsPlain('=') && !IsPlain('&');
    SplitsThere(Encoded(p.0), '=', Encoded(p.1));
  }

  lemma QueryNotEmpty(q: seq<Pair>)
    requires q != []
    ensures EncodedQuery(q) != ""
  {
    PairDecodesBack(q[0]);
  }

  /** For every list of keys and values, splitting the query and decoding its parts gives back the list. */
  lemma {:induction false} QueryDecodesBack(q: seq<Pair>)
    ensures DecodeQuery(EncodedQuery(q)) == Some(q)
  {
    hide EncodedPair, DecodePair, SplitAt;
    if q != [] {
      var e := EncodedPair(q[0]);
      PairDecodesBack(q[0]);
      if |q| == 1 {
        SplitsThere(e, '&', "");
        assert q == [q[0]];
      } else {
        var rest := EncodedQuery(q[1..]);
        QueryDecodesBack(q[1..]);
        QueryNotEmpty(q[1..]);
        SplitsThere(e, '&', rest);
        assert e + "&" + rest == e + ['&'] + rest;
        assert [q[0]] + q[1..] == q;
      }
    }
  }

  /** A query holds nothing but unreserved characters, percent escapes and the two separators. */
  lemma {:induction false} QueryIsPlain(q: seq<Pair>)
    ensures forall c :: c in EncodedQuery(q) ==> IsPlain(c) || c == '=' || c == '&'
  {
    if q != [] {
      EncodedIsPlain(q[0].0);
      EncodedIsPlain(q[0].1);
      QueryIsPlain(q[1..]);
    }
  }
}
