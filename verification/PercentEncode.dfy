/** Percent-encoding of head ids into artifact URLs (`percent_encode`), and its inverse. */
module PercentEncode {
  import opened Wrappers

  newtype byte = x: int | 0 <= x < 256

  /** The unreserved characters of section 2.3 of RFC 3986. */
  predicate Unreserved(c: char) {
    'A' <= c <= 'Z' || 'a' <= c <= 'z' || '0' <= c <= '9' || c in "-_.~"
  }

  predicate UpperHex(c: char) {
    '0' <= c <= '9' || 'A' <= c <= 'F'
  }

  function HexDigit(n: int): char
    requires 0 <= n < 16
  {
    if n < 10 then '0' + n as char else 'A' + (n - 10) as char
  }

  function EncodeByte(b: byte): string {
    if Unreserved(b as char) then [b as char] else ['%', HexDigit(b as int / 16), HexDigit(b as int % 16)]
  }

  function Encode(value: seq<byte>): string {
    if value == [] then "" else EncodeByte(value[0]) + Encode(value[1..])
  }

  /** Section 2.1 of RFC 3986: the digits A-F and a-f are equivalent. */
  function HexValue(c: char): Option<int> {
    if '0' <= c <= '9' then Some(c as int - '0' as int)
    else if 'A' <= c <= 'F' then Some(c as int - 'A' as int + 10)
    else if 'a' <= c <= 'f' then Some(c as int - 'a' as int + 10)
    else None
  }

  /** Percent-decoding by section 2.1 of RFC 3986; a malformed triplet is an error. */
  function Decode(text: string): Option<seq<byte>> {
    if text == "" then Some([])
    else if text[0] == '%' then
      if |text| < 3 then None
      else match (HexValue(text[1]), HexValue(text[2]), Decode(text[3..]))
        case (Some(high), Some(low), Some(rest)) => (
          assert 0 <= high < 16 && 0 <= low < 16;
          Some([(16 * high + low) as byte] + rest))
        case _ => None
    else if text[0] as int >= 256 then None
    else match Decode(text[1..])
      case Some(rest) => Some([text[0] as byte] + rest)
      case None => None
  }

  /** Only unreserved characters and upper-case triplets, read left to right. */
  predicate WellFormed(text: string) {
    text == "" ||
    (if text[0] == '%'
     then |text| >= 3 && UpperHex(text[1]) && UpperHex(text[2]) && WellFormed(text[3..])
     else Unreserved(text[0]) && WellFormed(text[1..]))
  }

  lemma EncodedByte(b: byte, rest: string)
    ensures WellFormed(EncodeByte(b) + rest) <==> WellFormed(rest)
    ensures Decode(rest).Some? ==> Decode(EncodeByte(b) + rest) == Some([b] + Decode(rest).value)
  {
    var text := EncodeByte(b) + rest;
    if Unreserved(b as char) {
      assert text[1..] == rest;
    } else {
      assert text[3..] == rest;
    }
  }

  lemma {:induction false} RoundTrip(value: seq<byte>)
    ensures Decode(Encode(value)) == Some(value)
    ensures WellFormed(Encode(value))
  {
    if value != [] {
      RoundTrip(value[1..]);
      EncodedByte(value[0], Encode(value[1..]));
      assert value == [value[0]] + value[1..];
    }
  }

  /** Letters, digits, hyphen, full stop, underscore and tilde stand for themselves; all else takes a triplet. */
  lemma EncodedAlone(b: byte)
    ensures var n := b as int;
            if 65 <= n <= 90 || 97 <= n <= 122 || 48 <= n <= 57 || n in {45, 46, 95, 126} then
              EncodeByte(b) == [n as char]
            else
              |EncodeByte(b)| == 3 && EncodeByte(b)[0] == '%'
  {
    var marks := "-_.~";
    assert marks[0] == '-' && marks[1] == '_' && marks[2] == '.' && marks[3] == '~';
  }

  /** Ids are encoded byte by byte. */
  lemma {:induction false} EncodeConcat(a: seq<byte>, b: seq<byte>)
    ensures Encode(a + b) == Encode(a) + Encode(b)
  {
    if a == [] {
      assert a + b == b;
    } else {
      EncodeConcat(a[1..], b);
      assert (a + b)[1..] == a[1..] + b;
      Regroup(EncodeByte(a[0]), Encode(a[1..]), Encode(b));
    }
  }

  lemma Regroup(a: string, b: string, c: string)
    ensures a + (b + c) == a + b + c
  {
  }

  lemma Injective(a: seq<byte>, b: seq<byte>)
    requires Encode(a) == Encode(b)
    ensures a == b
  {
    RoundTrip(a);
    RoundTrip(b);
  }

  lemma {:induction false} WellFormedHasNoDelimiter(text: string)
    requires WellFormed(text)
    ensures forall c :: c in text ==> Unreserved(c) || c == '%'
  {
    if text != "" {
      var rest := if text[0] == '%' then text[3..] else text[1..];
      WellFormedHasNoDelimiter(rest);
      if text[0] == '%' {
        assert text == ['%', text[1], text[2]] + rest;
      } else {
        assert text == [text[0]] + rest;
      }
    }
  }

  /**
   * What a URL path makes of an encoded id: one segment that names it (sections 3.3 and 5.2.4
   * of RFC 3986). An empty segment names nothing and "." and ".." are removed as dot-segments.
   */
  predicate NamesOneSegment(segment: string) {
    && segment != ""
    && segment != "."
    && segment != ".."
    && forall c :: c in segment ==> c !in "/?#"
  }

  const DOT: seq<byte> := ['.' as byte]
  const DOTS: seq<byte> := ['.' as byte, '.' as byte]

  lemma DotsAreUnreserved()
    ensures Encode(DOT) == "."
    ensures Encode(DOTS) == ".."
  {
    assert DOT[1..] == [] && Encode(DOT) == EncodeByte(DOT[0]) + Encode([]);
    assert DOTS[1..] == DOT && Encode(DOTS) == EncodeByte(DOTS[0]) + Encode(DOT);
  }

  lemma NoDelimiter(text: string)
    requires WellFormed(text)
    ensures forall c :: c in text ==> c !in "/?#"
  {
    WellFormedHasNoDelimiter(text);
    assert forall c :: c in "/?#" ==> c == '/' || c == '?' || c == '#';
    assert forall c :: c in "-_.~" ==> c == '-' || c == '_' || c == '.' || c == '~';
  }

  /**
   * The encoder never lets an id spill out of its segment, and the ids it fails to carry are
   * exactly the empty one, "." and "..", which come out unchanged.
   */
  lemma StaysOneSegment(value: seq<byte>)
    ensures NamesOneSegment(Encode(value)) <==> value != [] && value != DOT && value != DOTS
  {
    RoundTrip(value);
    NoDelimiter(Encode(value));
    DotsAreUnreserved();
    if Encode(value) == "." {
      Injective(value, DOT);
    } else if Encode(value) == ".." {
      Injective(value, DOTS);
    } else if Encode(value) == "" {
      Injective(value, []);
    }
  }
}
