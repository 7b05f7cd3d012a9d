/** Unpadded base64url, section 5 of RFC 4648, as the token code uses it. */
module Base64Url {
  import opened SessionKeys

  type Byte = b: int | 0 <= b < 256
  type Digit = d: int | 0 <= d < 64

  function DigitChar(d: Digit): char {
    if d < 26 then ('A' as int + d) as char
    else if d < 52 then ('a' as int + (d - 26)) as char
    else if d < 62 then ('0' as int + (d - 52)) as char
    else if d == 62 then '-' else '_'
  }

  // The digit a character stands for. The decoder maps '-' and '_' onto '+' and '/', and so
  // accepts these two as well.
  function CharDigit(c: char): Option<Digit> {
    if 'A' <= c <= 'Z' then Some(c as int - 'A' as int)
    else if 'a' <= c <= 'z' then Some(c as int - 'a' as int + 26)
    else if '0' <= c <= '9' then Some(c as int - '0' as int + 52)
    else if c == '-' || c == '+' then Some(62)
    else if c == '_' || c == '/' then Some(63)
    else None
  }

  lemma DigitCharRoundTrip(d: Digit)
    ensures CharDigit(DigitChar(d)) == Some(d)
    ensures DigitChar(d) != '=' && DigitChar(d) != '.'
  {
  }

  // ---- Encoding ----

  function Chars(digits: seq<Digit>): string {
    seq(|digits|, i requires 0 <= i < |digits| => DigitChar(digits[i]))
  }

  // The digits of one group of one, two or three bytes.
  function Group(bytes: seq<Byte>): (digits: seq<Digit>)
    requires 1 <= |bytes| <= 3
    ensures |digits| == |bytes| + 1
  {
    var a := bytes[0];
    if |bytes| == 1 then [a / 4, a % 4 * 16]
    else
      var b := bytes[1];
      if |bytes| == 2 then [a / 4, a % 4 * 16 + b / 16, b % 16 * 4]
      else var c := bytes[2]; [a / 4, a % 4 * 16 + b / 16, b % 16 * 4 + c / 64, c % 64]
  }

  /** `b64url`: the padding of the last group is stripped. */
  function Encode(bytes: seq<Byte>): (text: string)
    ensures '=' !in text && '.' !in text
    ensures |text| % 4 != 1
    decreases |bytes|
  {
    if bytes == [] then ""
    else if |bytes| <= 3 then Encoded(Group(bytes))
    else Encoded(Group(bytes[..3])) + Encode(bytes[3..])
  }

  function Encoded(digits: seq<Digit>): (text: string)
    ensures |text| == |digits| && '=' !in text && '.' !in text
  {
    forall i | 0 <= i < |digits| ensures DigitChar(digits[i]) != '=' && DigitChar(digits[i]) != '.' {
      DigitCharRoundTrip(digits[i]);
    }
    Chars(digits)
  }

  // ---- Decoding ----

  // `pending` is the part of the last digit not yet in a byte, `place` the position in the group
  // of four, and `pads` the padding seen since the last digit.
  function Scan(text: string, place: nat, pending: nat, pads: nat): Option<seq<Byte>>
    requires place < 4
    requires place == 0 ==> pending == 0
    requires place == 1 ==> pending < 64
    requires place == 2 ==> pending < 16
    requires place == 3 ==> pending < 4
    decreases |text|
  {
    if text == "" then (if place == 0 then Some([]) else None)
    else if text[0] == '=' then
      // Enough padding for the group at hand ends the input.
      if place >= 2 && place + pads + 1 >= 4 then Some([])
      else Scan(text[1..], place, pending, if place >= 2 then pads + 1 else pads)
    else
      match CharDigit(text[0])
      case None => Scan(text[1..], place, pending, pads)
      case Some(d) =>
        match place
        case 0 => Scan(text[1..], 1, d, 0)
        case 1 => Prepend(pending * 4 + d / 16, Scan(text[1..], 2, d % 16, 0))
        case 2 => Prepend(pending * 16 + d / 4, Scan(text[1..], 3, d % 4, 0))
        case 3 => Prepend(pending * 64 + d, Scan(text[1..], 0, 0, 0))
  }

  function Prepend(b: Byte, rest: Option<seq<Byte>>): Option<seq<Byte>> {
    match rest
    case None => None
    case Some(bytes) => Some([b] + bytes)
  }

  function Padding(n: nat): string {
    if n == 0 then "" else "=" + Padding(n - 1)
  }

  function Padded(text: string): string {
    text + Padding((4 - |text| % 4) % 4)
  }

  /** `_b64url_decode`; `None` is the decoder's ValueError. */
  function Decode(text: string): Option<seq<Byte>> {
    if exists i :: 0 <= i < |text| && (text[i] as int) >= 128 then None else Scan(Padded(text), 0, 0, 0)
  }

  // ---- Decoding undoes encoding ----

  lemma ScanDigit(d: Digit, rest: string, place: nat, pending: nat, pads: nat)
    requires place < 4
    requires place == 0 ==> pending == 0
    requires place == 1 ==> pending < 64
    requires place == 2 ==> pending < 16
    requires place == 3 ==> pending < 4
    ensures Scan([DigitChar(d)] + rest, place, pending, pads) ==
      match place
      case 0 => Scan(rest, 1, d, 0)
      case 1 => Prepend(pending * 4 + d / 16, Scan(rest, 2, d % 16, 0))
      case 2 => Prepend(pending * 16 + d / 4, Scan(rest, 3, d % 4, 0))
      case 3 => Prepend(pending * 64 + d, Scan(rest, 0, 0, 0))
  {
    DigitCharRoundTrip(d);
    assert ([DigitChar(d)] + rest)[1..] == rest;
  }

  lemma EncodedParts(digits: seq<Digit>, rest: string)
    ensures digits != [] ==> Encoded(digits) + rest == [DigitChar(digits[0])] + (Encoded(digits[1..]) + rest)
    ensures digits == [] ==> Encoded(digits) + rest == rest
  {
  }

  // Reading four, three and two digits of a group, the last two followed by their padding.
  lemma ScanFour(a: Digit, b: Digit, c: Digit, d: Digit, rest: string)
    ensures Scan(Encoded([a, b, c, d]) + rest, 0, 0, 0)
      == Prepend(a * 4 + b / 16, Prepend(b % 16 * 16 + c / 4, Prepend(c % 4 * 64 + d, Scan(rest, 0, 0, 0))))
  {
    hide Scan, Encoded, DigitChar;
    EncodedParts([a, b, c, d], rest);
    EncodedParts([b, c, d], rest);
    EncodedParts([c, d], rest);
    EncodedParts([d], rest);
    EncodedParts([], rest);
    assert [a, b, c, d][1..] == [b, c, d] && [b, c, d][1..] == [c, d] && [c, d][1..] == [d] && [d][1..] == [];
    ScanDigit(a, Encoded([b, c, d]) + rest, 0, 0, 0);
    ScanDigit(b, Encoded([c, d]) + rest, 1, a, 0);
    ScanDigit(c, Encoded([d]) + rest, 2, b % 16, 0);
    ScanDigit(d, rest, 3, c % 4, 0);
  }

  lemma ScanThree(a: Digit, b: Digit, c: Digit)
    ensures Scan(Encoded([a, b, c]) + "=", 0, 0, 0)
      == Prepend(a * 4 + b / 16, Prepend(b % 16 * 16 + c / 4, Some([])))
  {
    ScanPadding(c % 4);
    hide Scan, Encoded, DigitChar;
    EncodedParts([a, b, c], "=");
    EncodedParts([b, c], "=");
    EncodedParts([c], "=");
    EncodedParts([], "=");
    assert [a, b, c][1..] == [b, c] && [b, c][1..] == [c] && [c][1..] == [];
    ScanDigit(a, Encoded([b, c]) + "=", 0, 0, 0);
    ScanDigit(b, Encoded([c]) + "=", 1, a, 0);
    ScanDigit(c, "=", 2, b % 16, 0);
  }

  lemma ScanTwo(a: Digit, b: Digit)
    ensures Scan(Encoded([a, b]) + "==", 0, 0, 0) == Prepend(a * 4 + b / 16, Some([]))
  {
    ScanPadding(b % 16);
    hide Scan, Encoded, DigitChar;
    EncodedParts([a, b], "==");
    EncodedParts([b], "==");
    EncodedParts([], "==");
    assert [a, b][1..] == [b] && [b][1..] == [];
    ScanDigit(a, Encoded([b]) + "==", 0, 0, 0);
    ScanDigit(b, "==", 1, a, 0);
  }

  lemma ScanPadding(pending: nat)
    ensures pending < 4 ==> Scan("=", 3, pending, 0) == Some([])
    ensures pending < 16 ==> Scan("==", 2, pending, 0) == Some([])
  {
    assert "=="[1..] == "=";
    assert pending < 16 ==> Scan("=", 2, pending, 1) == Some([]);
  }

  lemma GroupArithmetic(a: Byte, b: Byte, c: Byte)
    ensures a / 4 * 4 + (a % 4 * 16) / 16 == a
    ensures a / 4 * 4 + (a % 4 * 16 + b / 16) / 16 == a
    ensures (a % 4 * 16 + b / 16) % 16 * 16 + (b % 16 * 4) / 4 == b
    ensures (a % 4 * 16 + b / 16) % 16 * 16 + (b % 16 * 4 + c / 64) / 4 == b
    ensures (b % 16 * 4 + c / 64) % 4 * 64 + c % 64 == c
  {
  }

  lemma ScanWholeGroup(bytes: seq<Byte>, rest: string)
    requires |bytes| == 3
    ensures Scan(Encoded(Group(bytes)) + rest, 0, 0, 0)
      == (match Scan(rest, 0, 0, 0) case None => None case Some(more) => Some(bytes + more))
  {
    hide Scan, Encoded;
    var g := Group(bytes);
    assert g == [g[0], g[1], g[2], g[3]];
    ScanFour(g[0], g[1], g[2], g[3], rest);
    GroupArithmetic(bytes[0], bytes[1], bytes[2]);
    if Scan(rest, 0, 0, 0).Some? {
      var more := Scan(rest, 0, 0, 0).value;
      assert [bytes[0]] + ([bytes[1]] + ([bytes[2]] + more)) == bytes + more;
    }
  }

  lemma ScanOneByte(a: Byte)
    ensures Scan(Encoded(Group([a])) + "==", 0, 0, 0) == Some([a])
  {
    hide Scan, Encoded;
    ScanTwo(a / 4, a % 4 * 16);
    GroupArithmetic(a, 0, 0);
    assert [a] + [] == [a];
  }

  lemma ScanTwoBytes(a: Byte, b: Byte)
    ensures Scan(Encoded(Group([a, b])) + "=", 0, 0, 0) == Some([a, b])
  {
    hide Scan, Encoded;
    ScanThree(a / 4, a % 4 * 16 + b / 16, b % 16 * 4);
    GroupArithmetic(a, b, 0);
    assert [a] + ([b] + []) == [a, b];
  }

  lemma PaddedGroup(text: string)
    requires 2 <= |text| <= 4
    ensures Padded(text) == text + if |text| == 2 then "==" else if |text| == 3 then "=" else ""
  {
    assert Padding(0) == "" && Padding(1) == "=" + Padding(0) && Padding(2) == "=" + Padding(1);
  }

  lemma ScanUndoesEncodeOfGroup(bytes: seq<Byte>)
    requires 1 <= |bytes| <= 3
    ensures Scan(Padded(Encoded(Group(bytes))), 0, 0, 0) == Some(bytes)
  {
    assert Scan("", 0, 0, 0) == Some([]);
    hide Scan, Encoded, Group, Padded;
    PaddedGroup(Encoded(Group(bytes)));
    if |bytes| == 1 {
      ScanOneByte(bytes[0]);
      assert bytes == [bytes[0]];
    } else if |bytes| == 2 {
      ScanTwoBytes(bytes[0], bytes[1]);
      assert bytes == [bytes[0], bytes[1]];
    } else {
      ScanWholeGroup(bytes, "");
      assert bytes + [] == bytes;
    }
  }

  lemma PaddedAfterGroup(group: string, tail: string)
    requires |group| == 4
    ensures Padded(group + tail) == group + Padded(tail)
  {
    assert |group + tail| % 4 == |tail| % 4;
  }

  lemma {:induction false} ScanUndoesEncode(bytes: seq<Byte>)
    ensures Scan(Padded(Encode(bytes)), 0, 0, 0) == Some(bytes)
    decreases |bytes|
  {
    assert Padded("") == "" && Scan("", 0, 0, 0) == Some([]);
    hide Scan, Encoded, Group, Padded;
    if bytes == [] {
    } else if |bytes| <= 3 {
      ScanUndoesEncodeOfGroup(bytes);
    } else {
      ScanUndoesEncode(bytes[3..]);
      ScanWholeGroup(bytes[..3], Padded(Encode(bytes[3..])));
      PaddedAfterGroup(Encoded(Group(bytes[..3])), Encode(bytes[3..]));
      assert bytes[..3] + bytes[3..] == bytes;
    }
  }

  lemma {:induction false} EncodeIsAscii(bytes: seq<Byte>)
    ensures forall i :: 0 <= i < |Encode(bytes)| ==> (Encode(bytes)[i] as int) < 128
    decreases |bytes|
  {
    if bytes != [] {
      EncodedIsAscii(Group(if |bytes| <= 3 then bytes else bytes[..3]));
    }
    if |bytes| > 3 {
      EncodeIsAscii(bytes[3..]);
    }
  }

  lemma EncodedIsAscii(digits: seq<Digit>)
    ensures forall i :: 0 <= i < |Encoded(digits)| ==> (Encoded(digits)[i] as int) < 128
  {
  }

  /** Unpadded base64url decoding undoes encoding, for every sequence of bytes. */
  lemma DecodeUndoesEncode(bytes: seq<Byte>)
    ensures Decode(Encode(bytes)) == Some(bytes)
  {
    hide Scan, Encode;
    EncodeIsAscii(bytes);
    ScanUndoesEncode(bytes);
  }
}
