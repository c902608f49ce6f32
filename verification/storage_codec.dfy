/** The text form of stored values (src/storage/storage.rs): a value is
    serialised and compressed to bytes by a foreign codec, and the bytes are
    written as lowercase hexadecimal so that any string store can hold them. */
module StorageCodec {
  import opened Common

  type Byte = b: int | 0 <= b < 256
  type Nibble = n: int | 0 <= n < 16

  /** The characters `char::from_digit(_, 16)` can produce. */
  predicate IsLowerHex(c: char) {
    '0' <= c <= '9' || 'a' <= c <= 'f'
  }

  /** `char::to_digit(16)`: the value of a hexadecimal digit of either case,
      None for any other character. */
  function DigitValue(c: char): (r: Option<Nibble>)
    ensures r.Some? <==> IsLowerHex(c) || 'A' <= c <= 'F'
  {
    if '0' <= c <= '9' then Some(c as int - '0' as int)
    else if 'a' <= c <= 'f' then Some(c as int - 'a' as int + 10)
    else if 'A' <= c <= 'F' then Some(c as int - 'A' as int + 10)
    else None
  }

  /** `char::from_digit(n, 16)` for a nibble; it always succeeds. */
  function HexDigit(n: Nibble): (c: char)
    ensures IsLowerHex(c)
    ensures DigitValue(c) == Some(n)
  {
    if n < 10 then ('0' as int + n) as char else ('a' as int + n - 10) as char
  }

  /** The hex step of `serde_to_string`: each byte becomes its high nibble
      (`(u & 0xF0) >> 4`) then its low nibble (`u & 0x0F`) as digits. */
  function HexEncode(bytes: seq<Byte>): (s: string)
    ensures |s| == 2 * |bytes|
    ensures forall i :: 0 <= i < |bytes| ==>
              s[2 * i] == HexDigit(bytes[i] / 16) && s[2 * i + 1] == HexDigit(bytes[i] % 16)
    ensures forall j :: 0 <= j < |s| ==> IsLowerHex(s[j])
  {
    if bytes == [] then []
    else
      var rest := HexEncode(bytes[1..]);
      assert forall i :: 1 <= i < |bytes| ==> bytes[i] == bytes[1..][i - 1];
      [HexDigit(bytes[0] / 16), HexDigit(bytes[0] % 16)] + rest
  }

  /** The loop of `try_serde_from_string`, read two characters at a time:
      a missing second character or a non-digit makes the whole result None. */
  function HexDecode(s: string): (r: Option<seq<Byte>>)
    ensures r.Some? ==> |s| == 2 * |r.value|
    decreases |s|
  {
    if s == [] then Some([])
    else if |s| == 1 then None
    else
      match (DigitValue(s[0]), DigitValue(s[1]), HexDecode(s[2..]))
      case (Some(n1), Some(n2), Some(rest)) => Some([n1 as int * 16 + n2 as int] + rest)
      case _ => None
  }

  /** `serde_to_string`. */
  function ToText<T>(codec: Codec<T, seq<Byte>>, value: T): (text: string)
    ensures |text| == 2 * |codec.encode(value)|
    ensures forall j :: 0 <= j < |text| ==> IsLowerHex(text[j])
  {
    HexEncode(codec.encode(value))
  }

  /** What `try_serde_from_string` computes. */
  function FromText<T>(codec: Codec<T, seq<Byte>>, text: string): (r: Option<T>)
    ensures |text| % 2 == 1 ==> r == None
    ensures r.Some? ==> HexDecode(text).Some? && codec.decode(HexDecode(text).value) == r
  {
    match HexDecode(text)
    case None => None
    case Some(bytes) => codec.decode(bytes)
  }

  /** `try_serde_from_string`, with its `while let` loop over the characters. */
  method TryFromText<T>(codec: Codec<T, seq<Byte>>, text: string) returns (r: Option<T>)
    ensures r == FromText(codec, text)
  {
    var bytes: seq<Byte> := [];
    var i := 0;
    assert text[i..] == text;
    assert Prepend(bytes, HexDecode(text)) == HexDecode(text) by {
      if HexDecode(text).Some? {
        assert bytes + HexDecode(text).value == HexDecode(text).value;
      }
    }
    while i < |text|
      invariant 0 <= i <= |text|
      invariant HexDecode(text) == Prepend(bytes, HexDecode(text[i..]))
    {
      HexDecodeStep(text[i..]);
      var n1 := DigitValue(text[i]);
      if n1.None? {
        return None;
      }
      if i + 1 == |text| {
        return None;
      }
      var n2 := DigitValue(text[i + 1]);
      if n2.None? {
        return None;
      }
      assert text[i..][2..] == text[i + 2..];
      PrependConcat(bytes, [n1.value as int * 16 + n2.value as int], HexDecode(text[i + 2..]));
      bytes := bytes + [n1.value as int * 16 + n2.value as int];
      i := i + 2;
    }
    assert bytes + [] == bytes;
    r := codec.decode(bytes);
  }

  function Prepend(prefix: seq<Byte>, r: Option<seq<Byte>>): Option<seq<Byte>> {
    match r
    case None => None
    case Some(rest) => Some(prefix + rest)
  }

  lemma PrependConcat(a: seq<Byte>, b: seq<Byte>, r: Option<seq<Byte>>)
    ensures Prepend(a, Prepend(b, r)) == Prepend(a + b, r)
  {
    if r.Some? {
      assert a + (b + r.value) == (a + b) + r.value;
    }
  }

  /** One step of HexDecode on a non-empty text. */
  lemma HexDecodeStep(s: string)
    requires s != []
    ensures DigitValue(s[0]).None? ==> HexDecode(s) == None
    ensures |s| == 1 ==> HexDecode(s) == None
    ensures |s| >= 2 && DigitValue(s[0]).Some? && DigitValue(s[1]).Some? ==>
              HexDecode(s) == Prepend([DigitValue(s[0]).value as int * 16 + DigitValue(s[1]).value as int], HexDecode(s[2..]))
  {
  }

  /** Decoding fails exactly when the text has odd length or holds a
      character that is not a hexadecimal digit. */
  lemma {:induction false} HexDecodeNoneIff(s: string)
    ensures HexDecode(s).None? <==>
              (|s| % 2 == 1 || exists j :: 0 <= j < |s| && DigitValue(s[j]).None?)
    decreases |s|
  {
    if |s| >= 2 {
      HexDecodeNoneIff(s[2..]);
      assert forall j :: 2 <= j < |s| ==> s[j] == s[2..][j - 2];
      if DigitValue(s[0]).Some? && DigitValue(s[1]).Some? {
        if exists j :: 0 <= j < |s| && DigitValue(s[j]).None? {
          var j :| 0 <= j < |s| && DigitValue(s[j]).None?;
          assert DigitValue(s[2..][j - 2]).None?;
        }
      }
    } else if |s| == 1 {
      assert |s| % 2 == 1;
    }
  }

  /** On success, character pair (2i, 2i+1) yields byte i as `n1 * 16 + n2`. */
  lemma {:induction false} HexDecodeBytes(s: string)
    requires HexDecode(s).Some?
    ensures var bytes := HexDecode(s).value;
      && |s| == 2 * |bytes|
      && forall i :: 0 <= i < |bytes| ==>
           DigitValue(s[2 * i]).Some? && DigitValue(s[2 * i + 1]).Some? &&
           bytes[i] == DigitValue(s[2 * i]).value as int * 16 + DigitValue(s[2 * i + 1]).value as int
    decreases |s|
  {
    if s != [] {
      HexDecodeBytes(s[2..]);
      var bytes := HexDecode(s).value;
      var rest := HexDecode(s[2..]).value;
      var n1, n2 := DigitValue(s[0]).value, DigitValue(s[1]).value;
      assert bytes == [n1 as int * 16 + n2 as int] + rest;
      forall i | 0 <= i < |bytes|
        ensures DigitValue(s[2 * i]).Some? && DigitValue(s[2 * i + 1]).Some?
        ensures bytes[i] == DigitValue(s[2 * i]).value as int * 16 + DigitValue(s[2 * i + 1]).value as int
      {
        if i > 0 {
          assert s[2 * i] == s[2..][2 * (i - 1)];
          assert s[2 * i + 1] == s[2..][2 * (i - 1) + 1];
          assert bytes[i] == rest[i - 1];
        }
      }
    }
  }

  /** Hex decoding undoes hex encoding. */
  lemma {:induction false} HexRoundTrip(bytes: seq<Byte>)
    ensures HexDecode(HexEncode(bytes)) == Some(bytes)
  {
    if bytes != [] {
      var s := HexEncode(bytes);
      HexRoundTrip(bytes[1..]);
      assert s[2..] == HexEncode(bytes[1..]);
      assert bytes[0] / 16 * 16 + bytes[0] % 16 == bytes[0];
      assert [bytes[0]] + bytes[1..] == bytes;
    }
  }

  /** Conversely, a lowercase text that decodes is the encoding of what it
      decodes to; uppercase digits decode too but are never produced. */
  lemma {:induction false} HexEncodeOfDecode(s: string)
    requires HexDecode(s).Some?
    requires forall j :: 0 <= j < |s| ==> IsLowerHex(s[j])
    ensures HexEncode(HexDecode(s).value) == s
    decreases |s|
  {
    if s != [] {
      var bytes := HexDecode(s).value;
      HexEncodeOfDecode(s[2..]);
      var n1, n2 := DigitValue(s[0]).value, DigitValue(s[1]).value;
      assert bytes[0] == n1 as int * 16 + n2 as int;
      assert bytes[1..] == HexDecode(s[2..]).value;
      assert bytes[0] / 16 == n1 && bytes[0] % 16 == n2;
      assert HexDigit(n1) == s[0] && HexDigit(n2) == s[1];
      assert s == [s[0], s[1]] + s[2..];
    }
  }

  /** The stored text of a value reads back as that value, for any codec
      that round-trips. */
  lemma TextRoundTrip<T(!new)>(codec: Codec<T, seq<Byte>>, value: T)
    requires RoundTrips(codec)
    ensures FromText(codec, ToText(codec, value)) == Some(value)
  {
    HexRoundTrip(codec.encode(value));
  }
}
