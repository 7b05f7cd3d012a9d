/** Which text the base64url encoder writes, told by the bits of the bytes. */
module Base64UrlBits {
  import opened Base64Url
  import opened SessionKeys

  /** The URL-safe alphabet, table 2 of section 5 of RFC 4648, in the order of the values. */
  const ALPHABET := "ABCDEFGHIJKLMNOPQRSTUVWXYZ" + "abcdefghijklmnopqrstuvwxyz" + "0123456789-_"

  lemma UpperLetters(letters: string)
    requires letters == "ABCDEFGHIJKLMNOPQRSTUVWXYZ"
    ensures |letters| == 26 && forall i :: 0 <= i < 26 ==> letters[i] as int == 'A' as int + i
  {
  }

  lemma LowerLetters(letters: string)
    requires letters == "abcdefghijklmnopqrstuvwxyz"
    ensures |letters| == 26 && forall i :: 0 <= i < 26 ==> letters[i] as int == 'a' as int + i
  {
  }

  lemma DigitsAndMarks(marks: string)
    requires marks == "0123456789-_"
    ensures |marks| == 12 && marks[10] == '-' && marks[11] == '_'
    ensures forall i :: 0 <= i < 10 ==> marks[i] as int == '0' as int + i
  {
  }

  lemma AlphabetOfDigits(d: Digit)
    ensures |ALPHABET| == 64 && DigitChar(d) == ALPHABET[d]
  {
    UpperLetters("ABCDEFGHIJKLMNOPQRSTUVWXYZ");
    LowerLetters("abcdefghijklmnopqrstuvwxyz");
    DigitsAndMarks("0123456789-_");
  }

  // The bits of the bytes in order, the most significant of each byte first, and zeros after them.
  function Bit(bytes: seq<Byte>, i: nat): int {
    BitOf(ByteAt(bytes, i / 8), i % 8)
  }

  function ByteAt(bytes: seq<Byte>, n: nat): Byte {
    if n < |bytes| then bytes[n] else 0
  }

  function BitOf(b: Byte, place: nat): int {
    match place
    case 0 => b / 128
    case 1 => b / 64 % 2
    case 2 => b / 32 % 2
    case 3 => b / 16 % 2
    case 4 => b / 8 % 2
    case 5 => b / 4 % 2
    case 6 => b / 2 % 2
    case _ => b % 2
  }

  // The number that six bits spell.
  function SixBits(bytes: seq<Byte>, i: nat): int {
    Bit(bytes, i) * 32 + Bit(bytes, i + 1) * 16 + Bit(bytes, i + 2) * 8
    + Bit(bytes, i + 3) * 4 + Bit(bytes, i + 4) * 2 + Bit(bytes, i + 5)
  }

  lemma Halves(b: Byte)
    ensures b / 128 == b / 64 / 2 && b / 64 == b / 32 / 2 && b / 32 == b / 16 / 2 && b / 16 == b / 8 / 2
    ensures b / 8 == b / 4 / 2 && b / 4 == b / 2 / 2
  {
  }

  lemma HighBits(b: Byte)
    ensures b / 64 == BitOf(b, 0) * 2 + BitOf(b, 1)
    ensures b / 16 == b / 64 * 4 + BitOf(b, 2) * 2 + BitOf(b, 3)
    ensures b / 4 == b / 16 * 4 + BitOf(b, 4) * 2 + BitOf(b, 5)
    ensures b == b / 4 * 4 + BitOf(b, 6) * 2 + BitOf(b, 7)
  {
    Halves(b);
  }

  // The bits of three bytes, by six.
  lemma SixBitsOfThree(bytes: seq<Byte>)
    ensures var a, b, c := ByteAt(bytes, 0), ByteAt(bytes, 1), ByteAt(bytes, 2);
      && SixBits(bytes, 0) == BitOf(a, 0) * 32 + BitOf(a, 1) * 16 + BitOf(a, 2) * 8 + BitOf(a, 3) * 4
                              + BitOf(a, 4) * 2 + BitOf(a, 5)
      && SixBits(bytes, 6) == BitOf(a, 6) * 32 + BitOf(a, 7) * 16 + BitOf(b, 0) * 8 + BitOf(b, 1) * 4
                              + BitOf(b, 2) * 2 + BitOf(b, 3)
      && SixBits(bytes, 12) == BitOf(b, 4) * 32 + BitOf(b, 5) * 16 + BitOf(b, 6) * 8 + BitOf(b, 7) * 4
                               + BitOf(c, 0) * 2 + BitOf(c, 1)
      && SixBits(bytes, 18) == BitOf(c, 2) * 32 + BitOf(c, 3) * 16 + BitOf(c, 4) * 8 + BitOf(c, 5) * 4
                               + BitOf(c, 6) * 2 + BitOf(c, 7)
  {
    hide BitOf, ByteAt;
  }

  lemma ThreeBytesBySix(bytes: seq<Byte>)
    ensures var a, b, c := ByteAt(bytes, 0), ByteAt(bytes, 1), ByteAt(bytes, 2);
      && SixBits(bytes, 0) == a / 4 && SixBits(bytes, 6) == a % 4 * 16 + b / 16
      && SixBits(bytes, 12) == b % 16 * 4 + c / 64 && SixBits(bytes, 18) == c % 64
  {
    hide BitOf, ByteAt, SixBits;
    SixBitsOfThree(bytes);
    HighBits(ByteAt(bytes, 0));
    HighBits(ByteAt(bytes, 1));
    HighBits(ByteAt(bytes, 2));
  }

  lemma GroupSpellsBits(bytes: seq<Byte>, k: nat)
    requires 1 <= |bytes| <= 3 && k <= |bytes|
    ensures Group(bytes)[k] == SixBits(bytes, 6 * k)
  {
    hide SixBits;
    ThreeBytesBySix(bytes);
    assert k == 0 || k == 1 || k == 2 || k == 3;
  }

  lemma BitsOfRest(bytes: seq<Byte>, i: nat)
    requires |bytes| > 3
    ensures Bit(bytes, i + 24) == Bit(bytes[3..], i)
  {
    assert (i + 24) / 8 == i / 8 + 3;
  }

  lemma BitsOfGroup(bytes: seq<Byte>, i: nat)
    requires |bytes| > 3 && i < 24
    ensures Bit(bytes, i) == Bit(bytes[..3], i)
  {
  }

  lemma SixBitsOfParts(bytes: seq<Byte>, k: nat)
    requires |bytes| > 3
    ensures k < 4 ==> SixBits(bytes, 6 * k) == SixBits(bytes[..3], 6 * k)
    ensures k >= 4 ==> SixBits(bytes, 6 * k) == SixBits(bytes[3..], 6 * (k - 4))
  {
    hide Bit;
    forall i: nat | i < 24 ensures Bit(bytes, i) == Bit(bytes[..3], i) {
      BitsOfGroup(bytes, i);
    }
    forall i: nat ensures Bit(bytes, i + 24) == Bit(bytes[3..], i) {
      BitsOfRest(bytes, i);
    }
    if k >= 4 {
      var i := 6 * (k - 4);
      assert Bit(bytes, i + 24) == Bit(bytes[3..], i) && Bit(bytes, i + 1 + 24) == Bit(bytes[3..], i + 1);
      assert Bit(bytes, i + 2 + 24) == Bit(bytes[3..], i + 2) && Bit(bytes, i + 3 + 24) == Bit(bytes[3..], i + 3);
      assert Bit(bytes, i + 4 + 24) == Bit(bytes[3..], i + 4) && Bit(bytes, i + 5 + 24) == Bit(bytes[3..], i + 5);
    }
  }

  // The text has one character for every six bits, the last six filled up with zeros.
  ghost predicate Spells(text: string, bytes: seq<Byte>) {
    && |text| == (4 * |bytes| + 2) / 3
    && forall k :: 0 <= k < |text| ==>
         0 <= SixBits(bytes, 6 * k) < |ALPHABET| && text[k] == ALPHABET[SixBits(bytes, 6 * k)]
  }

  lemma GroupSpells(bytes: seq<Byte>)
    requires 1 <= |bytes| <= 3
    ensures Spells(Encoded(Group(bytes)), bytes)
  {
    hide SixBits, DigitChar, Group;
    forall k | 0 <= k < |Group(bytes)|
      ensures Group(bytes)[k] == SixBits(bytes, 6 * k) && DigitChar(Group(bytes)[k]) == ALPHABET[Group(bytes)[k]]
    {
      GroupSpellsBits(bytes, k);
      AlphabetOfDigits(Group(bytes)[k]);
    }
  }

  lemma PartsSpell(head: string, tail: string, bytes: seq<Byte>)
    requires |bytes| > 3 && Spells(head, bytes[..3]) && Spells(tail, bytes[3..])
    ensures Spells(head + tail, bytes)
  {
    hide SixBits;
    forall k | 0 <= k < |head + tail|
      ensures 0 <= SixBits(bytes, 6 * k) < |ALPHABET| && (head + tail)[k] == ALPHABET[SixBits(bytes, 6 * k)]
    {
      SixBitsOfParts(bytes, k);
      assert |head| == 4;
    }
  }

  /** The encoder's text spells the bits of the bytes, six at a time, in the URL-safe alphabet. */
  lemma {:induction false} EncodeSpellsBits(bytes: seq<Byte>)
    ensures Spells(Encode(bytes), bytes)
    decreases |bytes|
  {
    if bytes != [] {
      hide Spells, Group, Encoded;
      if |bytes| <= 3 {
        GroupSpells(bytes);
      } else {
        GroupSpells(bytes[..3]);
        EncodeSpellsBits(bytes[3..]);
        PartsSpell(Encoded(Group(bytes[..3])), Encode(bytes[3..]), bytes);
      }
    }
  }

  /** So it holds letters, digits, '-' and '_' and nothing else. */
  lemma EncodeIsUrlSafe(bytes: seq<Byte>)
    ensures forall c :: c in Encode(bytes) ==>
      'A' <= c <= 'Z' || 'a' <= c <= 'z' || '0' <= c <= '9' || c == '-' || c == '_'
  {
    hide SixBits, Encode;
    EncodeSpellsBits(bytes);
    forall c | c in Encode(bytes) ensures exists d: Digit :: c == DigitChar(d) {
      var k :| 0 <= k < |Encode(bytes)| && Encode(bytes)[k] == c;
      AlphabetOfDigits(SixBits(bytes, 6 * k));
    }
  }

  lemma InAlphabet(d: Digit)
    ensures DigitChar(d) in ALPHABET
  {
    AlphabetOfDigits(d);
  }

  /** The alphabet holds exactly these characters. */
  lemma AlphabetMembers(c: char)
    ensures c in ALPHABET <==> 'A' <= c <= 'Z' || 'a' <= c <= 'z' || '0' <= c <= '9' || c == '_' || c == '-'
  {
    hide ALPHABET;
    if 'A' <= c <= 'Z' {
      InAlphabet(c as int - 'A' as int);
    } else if 'a' <= c <= 'z' {
      InAlphabet(c as int - 'a' as int + 26);
    } else if '0' <= c <= '9' {
      InAlphabet(c as int - '0' as int + 52);
    } else if c == '-' {
      InAlphabet(62);
    } else if c == '_' {
      InAlphabet(63);
    } else if c in ALPHABET {
      MemberIsDigitChar(c);
    }
  }

  lemma MemberIsDigitChar(c: char)
    requires c in ALPHABET
    ensures exists d: Digit :: DigitChar(d) == c
  {
    hide DigitChar;
    AlphabetOfDigits(0);
    var d :| 0 <= d < |ALPHABET| && ALPHABET[d] == c;
    AlphabetOfDigits(d);
  }

  /**
   * The decoder reads each character of the alphabet as its position, '+' and '/' as the last two, and
   * no other; text outside ASCII it refuses.
   */
  lemma DecoderReadsAlphabet(text: string, c: char, d: Digit)
    ensures |ALPHABET| == 64
    ensures CharDigit(c) == Some(d) <==> c == ALPHABET[d] || (c == '+' && d == 62) || (c == '/' && d == 63)
    ensures Decode(text).Some? ==> forall x :: x in text ==> x as int <= 127
  {
    AlphabetOfDigits(d);
    if Decode(text).Some? {
      hide Scan;
      forall x | x in text ensures x as int <= 127 {
        var i :| 0 <= i < |text| && text[i] == x;
      }
    }
  }
}
