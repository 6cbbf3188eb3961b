/**
 * The base-64 encoder of the Brick Daemon (base64.c), its declarative counterpart after
 * section 4 of RFC 4648, and a strict decoder written from the same section alone.
 */
module Base64 {
  import opened Wrappers

  /** The C type `unsigned char`. */
  newtype octet = x: int | 0 <= x < 0x100

  const UPPER: string := "ABCDEFGHIJKLMNOPQRSTUVWXYZ"
  const LOWER: string := "abcdefghijklmnopqrstuvwxyz"
  const OTHERS: string := "0123456789+/"
  const ALPHABET: string := UPPER + LOWER + OTHERS

  /** The alphabet of table 1 of RFC 4648 by ranges; LetterIsTableEntry ties it to the table of base64.c. */
  function Letter(i: nat): char
    requires i < 64
  {
    if i < 26 then ('A' as nat + i) as char
    else if i < 52 then ('a' as nat + (i - 26)) as char
    else if i < 62 then ('0' as nat + (i - 52)) as char
    else if i == 62 then '+' else '/'
  }

  // ---------------------------------------------------------------------------------------
  // The encoding as section 4 of RFC 4648 describes it: three octets form a 24-bit big-endian
  // number whose four base-64 digits select the output characters.
  // ---------------------------------------------------------------------------------------

  /** The 24-bit input group, first octet most significant. */
  function Group24(a: octet, b: octet, c: octet): (w: nat)
    ensures w < 0x100_0000
  {
    0x1_0000 * a as nat + 0x100 * b as nat + c as nat
  }

  /** The base-64 digits of a 24-bit number, most significant first. */
  function Digits(w: nat): (d: seq<nat>)
    ensures |d| == 4 && forall k :: 0 <= k < 4 ==> d[k] < 64
  {
    [w / 0x4_0000 % 0x40, w / 0x1000 % 0x40, w / 0x40 % 0x40, w % 0x40]
  }

  /** The four characters of a 24-bit number of which the first `len` octets are real. */
  function Letters(w: nat, len: nat): (q: string)
    ensures |q| == 4
  {
    var d := Digits(w);
    [Letter(d[0]),
     Letter(d[1]),
     if len > 1 then Letter(d[2]) else '=',
     if len > 2 then Letter(d[3]) else '=']
  }

  function At(group: seq<octet>, i: nat): octet {
    if i < |group| then group[i] else 0
  }

  /** The four characters of a group of one to three octets, missing octets counting as zero. */
  function Quad(group: seq<octet>): string {
    Letters(Group24(At(group, 0), At(group, 1), At(group, 2)), |group|)
  }

  function GroupSize(data: seq<octet>): nat {
    if |data| < 3 then |data| else 3
  }

  /** Cuts the octets into groups of three, the last one possibly shorter, and codes each group. */
  function EncodeGroups(code: seq<octet> -> string, data: seq<octet>): string {
    if data == [] then ""
    else
      var len := GroupSize(data);
      code(data[..len]) + EncodeGroups(code, data[len..])
  }

  function Encode(data: seq<octet>): string {
    EncodeGroups(Quad, data)
  }

  /** The length of the encoding of n octets. */
  function EncodedLength(n: nat): nat {
    (n + 2) / 3 * 4
  }

  // ---------------------------------------------------------------------------------------
  // A strict decoder: whole quads, padding only in the last one, pad bits zero (section 3.5).
  // ---------------------------------------------------------------------------------------

  function Value(c: char): (v: Option<nat>)
    ensures v.Some? ==> v.value < 64
  {
    if 'A' <= c <= 'Z' then Some(c as nat - 'A' as nat)
    else if 'a' <= c <= 'z' then Some(c as nat - 'a' as nat + 26)
    else if '0' <= c <= '9' then Some(c as nat - '0' as nat + 52)
    else if c == '+' then Some(62)
    else if c == '/' then Some(63)
    else None
  }

  /** The 24-bit number with the given base-64 digits. */
  function Number(v0: nat, v1: nat, v2: nat, v3: nat): (w: nat)
    requires v0 < 64 && v1 < 64 && v2 < 64 && v3 < 64
    ensures w < 0x100_0000
  {
    0x4_0000 * v0 + 0x1000 * v1 + 0x40 * v2 + v3
  }

  /** The three octets of a 24-bit number. */
  function Octets(w: nat): (o: seq<octet>)
    requires w < 0x100_0000
    ensures |o| == 3
  {
    [(w / 0x1_0000) as octet, (w / 0x100 % 0x100) as octet, (w % 0x100) as octet]
  }

  /** One quad back to its 24-bit number and the number of real octets. */
  function ReadLetters(q: string): Option<(nat, nat)> {
    if |q| != 4 then None
    else
      var v0, v1, v2, v3 := Value(q[0]), Value(q[1]), Value(q[2]), Value(q[3]);
      if v0.None? || v1.None? then None
      else if q[2] == '=' && q[3] == '=' then
        var w := Number(v0.value, v1.value, 0, 0);
        if w % 0x1_0000 == 0 then Some((w, 1)) else None
      else if v2.None? then None
      else if q[3] == '=' then
        var w := Number(v0.value, v1.value, v2.value, 0);
        if w % 0x100 == 0 then Some((w, 2)) else None
      else if v3.None? then None
      else Some((Number(v0.value, v1.value, v2.value, v3.value), 3))
  }

  function DecodeQuad(q: string): Option<seq<octet>> {
    match ReadLetters(q)
    case None => None
    case Some((w, len)) => if w < 0x100_0000 && len <= 3 then Some(Octets(w)[..len]) else None
  }

  /** Decodes quad by quad; a short group ends the text, anything after it is an error. */
  function DecodeGroups(undo: string -> Option<seq<octet>>, s: string): Option<seq<octet>> {
    if s == "" then Some([])
    else if |s| < 4 then None
    else
      match undo(s[..4])
      case None => None
      case Some(head) =>
        if |head| < 3 && |s| > 4 then None
        else
          match DecodeGroups(undo, s[4..])
          case None => None
          case Some(rest) => Some(head + rest)
  }

  function Decode(s: string): Option<seq<octet>> {
    DecodeGroups(DecodeQuad, s)
  }

  // ---------------------------------------------------------------------------------------
  // One group: the masks and shifts of the C code, and the inverse pair of quads and octets
  // ---------------------------------------------------------------------------------------

  /** The digits of a number given by its digits. */
  lemma DigitsOfNumber(v0: nat, v1: nat, v2: nat, v3: nat)
    requires v0 < 64 && v1 < 64 && v2 < 64 && v3 < 64
    ensures Digits(Number(v0, v1, v2, v3)) == [v0, v1, v2, v3]
  {
    PositionalDigits(v0, v1, v2, v3, Number(v0, v1, v2, v3));
  }

  lemma PositionalDigits(v0: nat, v1: nat, v2: nat, v3: nat, w: nat)
    requires v0 < 64 && v1 < 64 && v2 < 64 && v3 < 64
    requires w == 0x4_0000 * v0 + 0x1000 * v1 + 0x40 * v2 + v3
    ensures w / 0x4_0000 % 0x40 == v0
    ensures w / 0x1000 % 0x40 == v1
    ensures w / 0x40 % 0x40 == v2
    ensures w % 0x40 == v3
  {
    assert w / 0x1000 == 0x40 * v0 + v1;
    assert w / 0x40 == 0x1000 * v0 + 0x40 * v1 + v2;
  }

  lemma DigitsOfOctets(a: nat, b: nat, c: nat)
    requires a < 256 && b < 256 && c < 256
    ensures Digits(0x1_0000 * a + 0x100 * b + c) == [a / 4, a % 4 * 16 + b / 16, b % 16 * 4 + c / 64, c % 64]
  {
    RegroupOctets(a, a / 4, a % 4, b, b / 16, b % 16, c, c / 64, c % 64);
    PositionalDigits(a / 4, a % 4 * 16 + b / 16, b % 16 * 4 + c / 64, c % 64, 0x1_0000 * a + 0x100 * b + c);
  }

  /** The base-64 digits of a group, cut out of its octets. */
  lemma DigitsOfGroup(a: octet, b: octet, c: octet)
    ensures Digits(Group24(a, b, c)) ==
            [a as nat / 4, a as nat % 4 * 16 + b as nat / 16, b as nat % 16 * 4 + c as nat / 64, c as nat % 64]
  {
    DigitsOfOctets(a as nat, b as nat, c as nat);
  }

  lemma RegroupOctets(a: nat, a1: nat, a0: nat, b: nat, b1: nat, b0: nat, c: nat, c1: nat, c0: nat)
    requires a == 4 * a1 + a0 && b == 16 * b1 + b0 && c == 64 * c1 + c0
    ensures 0x1_0000 * a + 0x100 * b + c == 0x4_0000 * a1 + 0x1000 * (a0 * 16 + b1) + 0x40 * (b0 * 4 + c1) + c0
  {}

  lemma UpperAt(i: nat)
    requires i < 26
    ensures UPPER[i] as int == 'A' as int + i
  {}

  lemma LowerAt(i: nat)
    requires i < 26
    ensures LOWER[i] as int == 'a' as int + i
  {}

  lemma DigitAt(i: nat)
    requires i < 10
    ensures OTHERS[i] as int == '0' as int + i
  {}

  /** The lookup table of base64.c is the alphabet of RFC 4648. */
  lemma LetterIsTableEntry(i: nat)
    requires i < 64
    ensures ALPHABET[i] == Letter(i)
  {
    if i < 26 {
      UpperAt(i);
    } else if i < 52 {
      assert ALPHABET[i] == LOWER[i - 26];
      LowerAt(i - 26);
    } else {
      assert ALPHABET[i] == OTHERS[i - 52];
      if i < 62 {
        DigitAt(i - 52);
      } else {
        assert OTHERS[10] == '+' && OTHERS[11] == '/';
      }
    }
  }

  lemma ValueOfLetter(i: nat)
    requires i < 64
    ensures Value(Letter(i)) == Some(i) && Letter(i) != '='
  {}

  lemma LetterOfValue(c: char)
    requires Value(c).Some?
    ensures Letter(Value(c).value) == c
  {}

  lemma OctetsOfGroup(a: octet, b: octet, c: octet)
    ensures Octets(Group24(a, b, c)) == [a, b, c]
  {
    OctetsOfSum(a as nat, b as nat, c as nat, Group24(a, b, c));
  }

  lemma OctetsOfSum(a: nat, b: nat, c: nat, w: nat)
    requires a < 256 && b < 256 && c < 256
    requires w == 0x1_0000 * a + 0x100 * b + c
    ensures w / 0x1_0000 == a && w / 0x100 % 0x100 == b && w % 0x100 == c
  {
    assert w / 0x100 == 0x100 * a + b;
  }

  lemma GroupOfOctets(w: nat)
    requires w < 0x100_0000
    ensures var o := Octets(w); Group24(o[0], o[1], o[2]) == w
  {
    assert w / 0x100 / 0x100 == w / 0x1_0000;
  }

  lemma NumberOfDigits(w: nat)
    requires w < 0x100_0000
    ensures var d := Digits(w); Number(d[0], d[1], d[2], d[3]) == w
  {
    DigitSum(w, w / 0x4_0000 % 0x40, w / 0x1000 % 0x40, w / 0x40 % 0x40, w % 0x40);
  }

  lemma DigitSum(w: nat, d0: nat, d1: nat, d2: nat, d3: nat)
    requires w < 0x100_0000
    requires d0 == w / 0x4_0000 % 0x40 && d1 == w / 0x1000 % 0x40 && d2 == w / 0x40 % 0x40 && d3 == w % 0x40
    ensures 0x4_0000 * d0 + 0x1000 * d1 + 0x40 * d2 + d3 == w
  {
    var q1 := w / 0x40;
    var q2 := q1 / 0x40;
    var q3 := q2 / 0x40;
    Quotients(w, q1, q2, q3, w % 0x40, q1 % 0x40, q2 % 0x40);
    assert d2 == q1 - 0x40 * q2 && d1 == q2 - 0x40 * q3 && d0 == q3;
  }

  lemma Quotients(w: nat, q1: nat, q2: nat, q3: nat, r0: nat, r1: nat, r2: nat)
    requires w == 0x40 * q1 + r0 && q1 == 0x40 * q2 + r1 && q2 == 0x40 * q3 + r2
    requires r0 < 0x40 && r1 < 0x40 && r2 < 0x40
    ensures w / 0x1000 == q2 && w / 0x4_0000 == q3
  {
    assert w == 0x1000 * q2 + (0x40 * r1 + r0);
    assert w == 0x4_0000 * q3 + (0x1000 * r2 + 0x40 * r1 + r0);
  }

  lemma LettersRead(w: nat, len: nat)
    requires w < 0x100_0000 && 1 <= len <= 3
    requires (len == 1 ==> w % 0x1_0000 == 0) && (len == 2 ==> w % 0x100 == 0)
    ensures ReadLetters(Letters(w, len)) == Some((w, len))
  {
    var d := Digits(w);
    NumberOfDigits(w);
    ValueOfLetter(d[0]);
    ValueOfLetter(d[1]);
    ValueOfLetter(d[2]);
    ValueOfLetter(d[3]);
    if len == 1 {
      LowDigitsZero(w, 0x1_0000);
    } else if len == 2 {
      LowDigitsZero(w, 0x100);
    }
  }

  lemma LowDigitsZero(w: nat, m: nat)
    requires (m == 0x1_0000 || m == 0x100) && w % m == 0
    ensures w % 0x40 == 0
    ensures m == 0x1_0000 ==> w / 0x40 % 0x40 == 0
  {
    var k := w / m;
    assert w == m * k;
    if m == 0x100 {
      DigitShift(w, 4 * k);
    } else {
      DigitShift(w, 0x400 * k);
      DigitShift(w / 0x40, 0x10 * k);
    }
  }

  lemma DigitShift(w: nat, q: nat)
    requires w == 0x40 * q
    ensures w % 0x40 == 0 && w / 0x40 == q
  {}

  lemma ReadBack(q: string)
    requires ReadLetters(q).Some?
    ensures var (w, len) := ReadLetters(q).value;
            && w < 0x100_0000 && 1 <= len <= 3 && |q| == 4
            && (len == 1 ==> w % 0x1_0000 == 0) && (len == 2 ==> w % 0x100 == 0)
            && Letters(w, len) == q
  {
    var v0, v1 := Value(q[0]).value, Value(q[1]).value;
    var v2 := if q[2] == '=' then 0 else Value(q[2]).value;
    var v3 := if q[3] == '=' then 0 else Value(q[3]).value;
    DigitsOfNumber(v0, v1, v2, v3);
    LetterOfValue(q[0]);
    LetterOfValue(q[1]);
    if q[2] != '=' { LetterOfValue(q[2]); }
    if q[3] != '=' { LetterOfValue(q[3]); }
  }

  /** One group: decoding inverts encoding. */
  lemma QuadDecodes(group: seq<octet>)
    requires 1 <= |group| <= 3
    ensures DecodeQuad(Quad(group)) == Some(group)
  {
    var a, b, c := At(group, 0), At(group, 1), At(group, 2);
    var w := Group24(a, b, c);
    assert Octets(w) == [a, b, c] by { OctetsOfGroup(a, b, c); }
    assert ReadLetters(Letters(w, |group|)) == Some((w, |group|)) by {
      GroupTail(a, b, c);
      LettersRead(w, |group|);
    }
    assert [a, b, c][..|group|] == group;
  }

  lemma GroupTail(a: octet, b: octet, c: octet)
    ensures c == 0 ==> Group24(a, b, c) % 0x100 == 0
    ensures b == 0 && c == 0 ==> Group24(a, b, c) % 0x1_0000 == 0
  {
    OctetsOfSum(a as nat, b as nat, c as nat, Group24(a, b, c));
    if b == 0 && c == 0 { TrailingZeros(a as nat, Group24(a, b, c)); }
  }

  lemma TrailingZeros(a: nat, w: nat)
    requires w == 0x1_0000 * a
    ensures w % 0x1_0000 == 0
  {}

  /** One group: encoding inverts decoding. */
  lemma DecodedQuad(q: string)
    requires DecodeQuad(q).Some?
    ensures 1 <= |DecodeQuad(q).value| <= 3 && |q| == 4 && q == Quad(DecodeQuad(q).value)
  {
    ReadBack(q);
    var (w, len) := ReadLetters(q).value;
    GroupOfOctets(w);
    if len == 1 { LowOctetsZero(w); }
  }

  lemma LowOctetsZero(w: nat)
    requires w % 0x1_0000 == 0
    ensures w / 0x100 % 0x100 == 0 && w % 0x100 == 0
  {
    var k := w / 0x1_0000;
    assert w == 0x100 * (0x100 * k) && w / 0x100 == 0x100 * k;
  }

  // ---------------------------------------------------------------------------------------
  // Grouping, for any code of single groups
  // ---------------------------------------------------------------------------------------

  ghost predicate FourEach(code: seq<octet> -> string) {
    forall group :: |code(group)| == 4
  }

  ghost predicate Inverts(code: seq<octet> -> string, undo: string -> Option<seq<octet>>) {
    forall group | 1 <= |group| <= 3 :: undo(code(group)) == Some(group)
  }

  ghost predicate Canonical(code: seq<octet> -> string, undo: string -> Option<seq<octet>>) {
    forall q | undo(q).Some? :: 1 <= |undo(q).value| <= 3 && |q| == 4 && q == code(undo(q).value)
  }

  ghost predicate PadsMissing(code: seq<octet> -> string) {
    forall group, i | 1 <= |group| <= 3 && 0 <= i < 4 && |code(group)| == 4 :: code(group)[i] == '=' <==> i > |group|
  }

  lemma {:induction false} GroupsDecode(code: seq<octet> -> string, undo: string -> Option<seq<octet>>, data: seq<octet>)
    requires FourEach(code) && Inverts(code, undo)
    ensures DecodeGroups(undo, EncodeGroups(code, data)) == Some(data)
  {
    if data != [] {
      var len := GroupSize(data);
      var q, rest := code(data[..len]), EncodeGroups(code, data[len..]);
      GroupsDecode(code, undo, data[len..]);
      assert (q + rest)[..4] == q && (q + rest)[4..] == rest;
      assert DecodeGroups(undo, q + rest) == Some(data[..len] + data[len..]);
      assert data[..len] + data[len..] == data;
    }
  }

  lemma {:induction false} GroupsEncode(code: seq<octet> -> string, undo: string -> Option<seq<octet>>, s: string)
    requires Canonical(code, undo) && DecodeGroups(undo, s).Some?
    ensures EncodeGroups(code, DecodeGroups(undo, s).value) == s
  {
    if s != "" {
      GroupsEncode(code, undo, s[4..]);
      var head, rest := undo(s[..4]).value, DecodeGroups(undo, s[4..]).value;
      var data := head + rest;
      if |s| == 4 { assert s[4..] == ""; }
      assert GroupSize(data) == |head| && data[..|head|] == head && data[|head|..] == rest;
      assert s == s[..4] + s[4..];
    }
  }

  lemma {:induction false} GroupsLength(code: seq<octet> -> string, data: seq<octet>)
    requires FourEach(code)
    ensures |EncodeGroups(code, data)| == EncodedLength(|data|)
  {
    if data != [] {
      GroupsLength(code, data[GroupSize(data)..]);
      PaddingCount(|data|, GroupSize(data));
    }
  }

  lemma FirstGroup(code: seq<octet> -> string, data: seq<octet>)
    requires |data| >= 3
    ensures EncodeGroups(code, data) == code(data[..3]) + EncodeGroups(code, data[3..])
  {}

  lemma Regroup(x: string, y: string, z: string)
    ensures x + (y + z) == x + y + z
  {}

  lemma {:induction false} GroupsAppend(code: seq<octet> -> string, a: seq<octet>, b: seq<octet>, n: nat)
    requires |a| == 3 * n
    ensures EncodeGroups(code, a + b) == EncodeGroups(code, a) + EncodeGroups(code, b)
  {
    if n == 0 {
      assert a == [] && a + b == b;
    } else {
      assert EncodeGroups(code, a + b) == code(a[..3]) + EncodeGroups(code, a[3..] + b) by {
        assert (a + b)[..3] == a[..3] && (a + b)[3..] == a[3..] + b;
        FirstGroup(code, a + b);
      }
      FirstGroup(code, a);
      GroupsAppend(code, a[3..], b, n - 1);
      Regroup(code(a[..3]), EncodeGroups(code, a[3..]), EncodeGroups(code, b));
    }
  }

  lemma QuadPadding(group: seq<octet>, i: nat)
    requires 1 <= |group| <= 3 && i < 4
    ensures |Quad(group)| == 4
    ensures Quad(group)[i] == '=' <==> i > |group|
  {
    ValueOfLetter(Digits(Group24(At(group, 0), At(group, 1), At(group, 2)))[i]);
  }

  lemma {:induction false} GroupsPadding(code: seq<octet> -> string, data: seq<octet>, i: nat)
    requires FourEach(code) && PadsMissing(code)
    requires i < |EncodeGroups(code, data)|
    ensures EncodeGroups(code, data)[i] == '=' <==> i >= EncodedLength(|data|) - (3 - |data| % 3) % 3
  {
    var len := GroupSize(data);
    var quad, rest := code(data[..len]), EncodeGroups(code, data[len..]);
    GroupsLength(code, data[len..]);
    assert EncodeGroups(code, data) == quad + rest;
    PaddingCount(|data|, len);
    if i >= 4 {
      GroupsPadding(code, data[len..], i - 4);
    }
  }

  lemma PaddingCount(n: nat, len: nat)
    requires n > 0 && len == if n < 3 then n else 3
    ensures EncodedLength(n) == EncodedLength(n - len) + 4
    ensures n > 3 ==> (3 - n % 3) % 3 == (3 - (n - 3) % 3) % 3
    ensures n <= 3 ==> (3 - n % 3) % 3 == 3 - n && EncodedLength(n) == 4
    ensures n > 3 ==> EncodedLength(n) - (3 - n % 3) % 3 >= 4
  {}

  lemma QuadHasFour()
    ensures FourEach(Quad)
  {
    forall group ensures |Quad(group)| == 4 { assert |Quad(group)| == 4; }
  }

  lemma QuadPadsMissing()
    ensures PadsMissing(Quad)
  {
    forall group, i | 1 <= |group| <= 3 && 0 <= i < 4 && |Quad(group)| == 4
      ensures Quad(group)[i] == '=' <==> i > |group|
    {
      QuadPadding(group, i);
    }
  }

  lemma QuadInverts()
    ensures Inverts(Quad, DecodeQuad)
  {
    forall group: seq<octet> | 1 <= |group| <= 3
      ensures DecodeQuad(Quad(group)) == Some(group)
    {
      QuadDecodes(group);
    }
  }

  lemma QuadIsCanonical()
    ensures Canonical(Quad, DecodeQuad)
  {
    forall q | DecodeQuad(q).Some?
      ensures 1 <= |DecodeQuad(q).value| <= 3 && |q| == 4 && q == Quad(DecodeQuad(q).value)
    {
      DecodedQuad(q);
    }
  }

  // ---------------------------------------------------------------------------------------
  // Laws of the encoding
  // ---------------------------------------------------------------------------------------

  /** Text and octets determine each other: a text decodes to `data` exactly if it is its encoding. */
  lemma DecodesExactlyItsEncoding(s: string, data: seq<octet>)
    ensures Decode(s) == Some(data) <==> s == Encode(data)
  {
    QuadHasFour();
    QuadInverts();
    GroupsDecode(Quad, DecodeQuad, data);
    QuadIsCanonical();
    if Decode(s) == Some(data) { GroupsEncode(Quad, DecodeQuad, s); }
  }

  lemma EncodeInjective(a: seq<octet>, b: seq<octet>)
    requires Encode(a) == Encode(b)
    ensures a == b
  {
    DecodesExactlyItsEncoding(Encode(a), a);
    DecodesExactlyItsEncoding(Encode(b), b);
  }

  lemma EncodeLength(data: seq<octet>)
    ensures |Encode(data)| == EncodedLength(|data|)
  {
    QuadHasFour();
    GroupsLength(Quad, data);
  }

  /** Whole groups encode independently of what follows. */
  lemma EncodeAppend(a: seq<octet>, b: seq<octet>)
    requires |a| % 3 == 0
    ensures Encode(a + b) == Encode(a) + Encode(b)
  {
    GroupsAppend(Quad, a, b, |a| / 3);
  }

  /** `=` fills the last (3 - n mod 3) mod 3 places and occurs nowhere else. */
  lemma PaddingPlaces(data: seq<octet>, i: nat)
    requires i < |Encode(data)|
    ensures Encode(data)[i] == '=' <==> i >= |Encode(data)| - (3 - |data| % 3) % 3
  {
    QuadHasFour();
    QuadPadsMissing();
    GroupsLength(Quad, data);
    GroupsPadding(Quad, data, i);
  }
}
