/** base64_encode of the Brick Daemon (base64.c), proved against Base64.Encode. */
module Base64Encoder {
  import opened Base64
  import opened Wrappers
  import Bits

  /** The C type `int`: a value outside this range has no type, so the verifier excludes overflow. */
  newtype int32 = x: int | -0x8000_0000 <= x < 0x8000_0000

  const INT_MAX: int := 0x7FFF_FFFF

  /** The octets the call is asked to encode; a negative length counts as zero. */
  ghost function Input(input: seq<octet>, inLen: int): seq<octet>
    requires inLen <= |input|
  {
    if inLen < 0 then [] else input[..inLen]
  }

  /** The longest run of whole quads of an L-character encoding that fits: every quad must end before outLen. */
  predicate QuadsThatFit(length: nat, outLen: int, kept: nat) {
    && kept % 4 == 0 && kept <= length && (kept == 0 || kept < outLen)
    && (kept + 4 <= length ==> kept + 4 >= outLen)
  }

  lemma OneRunFits(length: nat, outLen: int, kept: nat, kept': nat)
    requires QuadsThatFit(length, outLen, kept) && QuadsThatFit(length, outLen, kept')
    ensures kept == kept'
  {}

  /**
   * Whether the rest of a call overflows `int`, with inLen octets left and `done` characters written: each
   * pass of the outer loop computes `done + 4`, the end of the call `done + 1`.
   */
  ghost predicate Overflows(inLen: int, outLen: int, done: int) {
    if inLen > 0 then
      done + 4 > INT_MAX || (done + 4 < outLen && Overflows(if inLen < 3 then 0 else inLen - 3, outLen, done + 4))
    else done + 1 > INT_MAX
  }

  /** Exactly the arguments for which a call does not overflow: see OverflowsExactlyOutside. */
  predicate InIntRange(inLen: int, outLen: int) {
    outLen <= INT_MAX - 3 || inLen <= 3 * (INT_MAX / 4)
  }

  lemma {:induction false} OverflowsFrom(inLen: int, outLen: int, quads: nat)
    requires outLen <= INT_MAX && (quads == 0 || 4 * quads < outLen)
    ensures Overflows(inLen, outLen, 4 * quads) <==> outLen > INT_MAX - 3 && inLen > 3 * (INT_MAX / 4 - quads)
    decreases inLen
  {
    if inLen > 0 && 4 * quads + 4 < outLen {
      OverflowsFrom(if inLen < 3 then 0 else inLen - 3, outLen, quads + 1);
    }
  }

  /** The precondition of EncodeInto is the exact condition for defined behaviour; the bound is tight. */
  lemma OverflowsExactlyOutside(inLen: int, outLen: int)
    requires outLen <= INT_MAX
    ensures Overflows(inLen, outLen, 0) <==> !InIntRange(inLen, outLen)
    ensures InIntRange(inLen, outLen) <==> outLen <= 0x7FFF_FFFC || inLen <= 0x5FFF_FFFD
  {
    OverflowsFrom(inLen, outLen, 0);
  }

  /**
   * base64_encode. With two characters to spare after the encoding, the buffer gets the encoding and a NUL, and
   * what is before the NUL decodes to the input; else the call fails and leaves the whole quads that fit.
   */
  method EncodeInto(input: seq<octet>, inLen: int32, out: array<char>, outLen: int32) returns (result: int32)
    requires inLen as int <= |input| && outLen as int <= out.Length
    requires InIntRange(inLen as int, outLen as int)
    modifies out
    ensures var text := Encode(Input(input, inLen as int));
            if outLen as int >= |text| + 2 then
              result as int == |text| && out[..] == text + ['\0'] + old(out[..])[|text| + 1..]
            else
              result == -1 && FittingQuads(out[..], old(out[..]), text, outLen as int)
    ensures 0 <= result ==> result as int <= out.Length && Decode(out[..result]) == Some(Input(input, inLen as int))
  {
    ghost var data := Input(input, inLen as int);
    result := EncodeAll(input, inLen, out, outLen, data, Encode(data));
    if 0 <= result {
      WrittenDecodes(out[..], old(out[..]), data, Encode(data), result as nat);
    }
  }

  lemma WrittenDecodes(now: string, before: string, data: seq<octet>, text: string, result: nat)
    requires text == Encode(data) && result == |text| < |before|
    requires now == text + ['\0'] + before[|text| + 1..]
    ensures Decode(now[..result]) == Some(data)
  {
    assert now[..result] == text;
    DecodesExactlyItsEncoding(text, data);
  }

  /** The outer loop, for the octets `data` and their encoding `text`. */
  method EncodeAll(input: seq<octet>, inLen: int32, out: array<char>, outLen: int32,
                   ghost data: seq<octet>, ghost text: string)
      returns (result: int32)
    requires inLen as int <= |input| && outLen as int <= out.Length
    requires data <= input && |data| == (if inLen < 0 then 0 else inLen as int) && text == Encode(data)
    requires InIntRange(inLen as int, outLen as int)
    modifies out
    ensures if outLen as int >= |text| + 2 then
              result as int == |text| && out[..] == text + ['\0'] + old(out[..])[|text| + 1..]
            else
              result == -1 && FittingQuads(out[..], old(out[..]), text, outLen as int)
  {
    var done: int32 := 0;
    var left := inLen;
    var pos := 0;
    ProgressStart(out[..], data);
    OverflowsExactlyOutside(inLen as int, outLen as int);
    while left > 0
      invariant 0 <= pos <= |data| && (left as int == |data| - pos || (left < 0 && data == []))
      invariant 0 <= done && (done == 0 || done < outLen)
      invariant !Overflows(left as int, outLen as int, done as int)
      invariant Progress(out[..], old(out[..]), text, done as int, Encode(data[pos..]))
    {
      var fits;
      fits, pos, left := EncodeGroup(input, pos, left, out, done, outLen, data, old(out[..]));
      if !fits {
        return -1;
      }
      done := done + 4;
    }
    assert Encode(data[pos..]) == "" by { assert data[pos..] == []; }
    result := Terminate(out, done, outLen, text, old(out[..]));
  }

  /** The end of the call: a NUL after the encoding, unless the buffer has no room for it. */
  method Terminate(out: array<char>, done: int32, outLen: int32, ghost text: string, ghost before: string)
      returns (result: int32)
    requires 0 <= done && (done == 0 || done < outLen) && done as int + 1 <= INT_MAX && outLen as int <= out.Length
    requires Progress(out[..], before, text, done as int, "")
    modifies out
    ensures if outLen as int >= |text| + 2 then
              result as int == |text| && out[..] == text + ['\0'] + before[|text| + 1..]
            else
              result == -1 && FittingQuads(out[..], before, text, outLen as int)
  {
    ghost var now := out[..];
    StopsAtTheEnd(now, before, text, done as int, outLen as int);
    if done + 1 >= outLen {
      return -1;
    }
    out[done] := '\0';
    assert out[..] == now[done as int := '\0'];
    return done;
  }

  /** One pass of the outer loop: reads a group and writes its quad, unless the buffer is too short. */
  method EncodeGroup(input: seq<octet>, start: nat, available: int32, out: array<char>, done: int32, outLen: int32,
                     ghost data: seq<octet>, ghost before: string)
      returns (fits: bool, pos: nat, left: int32)
    requires 0 < available && start + available as nat == |data| <= |input| && outLen as int <= out.Length
    requires data <= input
    requires 0 <= done && (done == 0 || done < outLen) && done as int + 4 <= INT_MAX
    requires Progress(out[..], before, Encode(data), done as int, Encode(data[start..]))
    modifies out
    ensures fits == (done as int + 4 < outLen as int)
    ensures start < pos <= |data| && left as int == |data| - pos
    ensures left == if available < 3 then 0 else available - 3
    ensures fits ==> Progress(out[..], before, Encode(data), done as int + 4, Encode(data[pos..]))
    ensures !fits ==> outLen as int < |Encode(data)| + 2 && FittingQuads(out[..], before, Encode(data), outLen as int)
  {
    ghost var now := out[..];
    var triple, len;
    triple, len, pos, left := ReadTriple(input, start, available, data);
    ghost var group := data[start..pos];
    NextQuad(data, start, len, group);
    StopsInTheLoop(now, before, Encode(data), done as int, outLen as int, Encode(data[start..]));
    fits := done + 4 < outLen;
    assert out[..] == now;
    if fits {
      WriteQuad(out, done as nat, triple, len, group);
      ProgressStep(now, out[..], before, Encode(data), done as int, Quad(group), Encode(data[pos..]));
    }
  }

  ghost function Overwrite(s: string, at: nat, part: string): string
    requires at + |part| <= |s|
  {
    s[..at] + part + s[at + |part|..]
  }

  /** The first `kept` characters are from the encoding, the others are what the buffer held before. */
  ghost predicate LeftBehind(now: string, before: string, text: string, kept: nat) {
    |now| == |before| && kept <= |text| && kept <= |before| && now == text[..kept] + before[kept..]
  }

  /** The whole quads that fit are from the encoding, and nothing else of the buffer has changed. */
  ghost predicate FittingQuads(now: string, before: string, text: string, outLen: int) {
    exists kept: nat :: QuadsThatFit(|text|, outLen, kept) && LeftBehind(now, before, text, kept)
  }

  /** `done` characters in whole quads are written; `rest` is the encoding of the octets not yet read. */
  ghost predicate Progress(now: string, before: string, text: string, done: int, rest: string) {
    && 0 <= done <= |now| && done % 4 == 0 && |text| == done + |rest| && |rest| % 4 == 0
    && text[done..] == rest
    && LeftBehind(now, before, text, done)
  }

  lemma ProgressStart(before: string, data: seq<octet>)
    ensures Progress(before, before, Encode(data), 0, Encode(data[0..]))
  {
    EncodeLength(data);
    WholeQuads(|data|);
    assert data[0..] == data;
  }

  lemma WholeQuads(n: nat)
    ensures EncodedLength(n) % 4 == 0
  {}

  lemma ProgressStep(now: string, next: string, before: string, text: string, done: int, quad: string, rest: string)
    requires Progress(now, before, text, done, quad + rest) && |quad| == 4 && done + 4 <= |now|
    requires next == Overwrite(now, done, quad)
    ensures Progress(next, before, text, done + 4, rest)
  {
    assert text[done..][..4] == quad && text[done..][4..] == rest;
    assert text[..done + 4] == text[..done] + quad;
    assert now[done + 4..] == before[done + 4..];
  }

  lemma StopsInTheLoop(now: string, before: string, text: string, done: int, outLen: int, rest: string)
    requires Progress(now, before, text, done, rest) && |rest| >= 4
    requires done == 0 || done < outLen
    ensures done + 4 >= outLen ==> outLen < |text| + 2 && FittingQuads(now, before, text, outLen)
  {
    if done + 4 >= outLen { assert QuadsThatFit(|text|, outLen, done) && LeftBehind(now, before, text, done); }
  }

  lemma StopsAtTheEnd(now: string, before: string, text: string, done: int, outLen: int)
    requires Progress(now, before, text, done, "") && outLen <= |now|
    requires done == 0 || done < outLen
    ensures done == |text|
    ensures done + 1 >= outLen ==> outLen < |text| + 2 && FittingQuads(now, before, text, outLen)
    ensures done + 1 < outLen ==>
              outLen >= |text| + 2 && now[done := '\0'] == text + ['\0'] + before[|text| + 1..]
  {
    if done + 1 >= outLen {
      assert QuadsThatFit(|text|, outLen, done) && LeftBehind(now, before, text, done);
    } else {
      assert text[..done] == text && now == text + before[done..];
    }
  }

  /** The inner loop: the next one to three octets, zeros after the last. */
  method ReadTriple(input: seq<octet>, start: nat, available: int32, ghost data: seq<octet>)
      returns (triple: array<octet>, len: nat, pos: nat, left: int32)
    requires 0 < available && start + available as nat == |data| && |data| <= |input|
    requires data <= input
    ensures fresh(triple) && triple.Length == 3
    ensures len == GroupSize(data[start..]) && pos == start + len && left as int == |data| - pos
    ensures forall k :: 0 <= k < 3 ==> triple[k] == At(data[start..pos], k)
  {
    triple := new octet[3];
    len, pos, left := 0, start, available;
    for i := 0 to 3
      invariant len == if available as nat < i then available as nat else i
      invariant pos == start + len && left as int == available as int - len
      invariant forall k :: 0 <= k < i ==> triple[k] == At(data[start..pos], k)
    {
      if left > 0 {
        triple[i] := input[pos];
        pos := pos + 1;
        len := len + 1;
        left := left - 1;
      } else {
        triple[i] := 0;
      }
    }
  }

  lemma NextGroup(code: seq<octet> -> string, data: seq<octet>, start: nat, len: nat)
    requires start < |data| && len == GroupSize(data[start..])
    ensures EncodeGroups(code, data[start..]) ==
            code(data[start..start + len]) + EncodeGroups(code, data[start + len..])
  {
    var rest := data[start..];
    assert rest[..len] == data[start..start + len] && rest[len..] == data[start + len..];
  }

  lemma NextQuad(data: seq<octet>, start: nat, len: nat, group: seq<octet>)
    requires start < |data| && len == GroupSize(data[start..]) && group == data[start..start + len]
    ensures |Quad(group)| == 4
    ensures Encode(data[start..]) == Quad(group) + Encode(data[start + len..])
  {
    NextGroup(Quad, data, start, len);
    QuadHasFour();
  }

  /** The masks and shifts of base64.c select the base-64 digits of the 24-bit group. */
  method MaskedIndices(a: octet, b: octet, c: octet) returns (i0: nat, i1: nat, i2: nat, i3: nat)
    ensures [i0, i1, i2, i3] == Digits(Group24(a, b, c))
  {
    i0 := Bits.FirstIndex(a as nat);
    i1 := Bits.SecondIndex(a as nat, b as nat);
    i2 := Bits.ThirdIndex(b as nat, c as nat);
    i3 := Bits.FourthIndex(c as nat);
    DigitsOfGroup(a, b, c);
  }

  lemma QuadLetters(group: seq<octet>, i0: nat, i1: nat, i2: nat, i3: nat)
    requires [i0, i1, i2, i3] == Digits(Group24(At(group, 0), At(group, 1), At(group, 2)))
    ensures i0 < 64 && i1 < 64 && i2 < 64 && i3 < 64
    ensures Quad(group) == [Letter(i0), Letter(i1),
                            if |group| > 1 then Letter(i2) else '=',
                            if |group| > 2 then Letter(i3) else '=']
  {
    var d := [i0, i1, i2, i3];
    assert d[0] < 64 && d[1] < 64 && d[2] < 64 && d[3] < 64;
  }

  /** _alphabet[i] */
  method TableEntry(i: nat) returns (c: char)
    requires i < 64
    ensures c == Letter(i)
  {
    LetterIsTableEntry(i);
    c := ALPHABET[i];
  }

  /** The four table lookups. */
  method LookUp(triple: array<octet>, len: nat, ghost group: seq<octet>)
      returns (c0: char, c1: char, c2: char, c3: char)
    requires triple.Length == 3 && len == |group|
    requires forall k :: 0 <= k < 3 ==> triple[k] == At(group, k)
    ensures [c0, c1, c2, c3] == Quad(group)
  {
    var a, b, c := triple[0], triple[1], triple[2];
    assert a == At(group, 0) && b == At(group, 1) && c == At(group, 2);
    var i0, i1, i2, i3 := MaskedIndices(a, b, c);
    QuadLetters(group, i0, i1, i2, i3);
    c0 := TableEntry(i0);
    c1 := TableEntry(i1);
    c2, c3 := '=', '=';
    if len > 1 {
      c2 := TableEntry(i2);
    }
    if len > 2 {
      c3 := TableEntry(i3);
    }
  }

  method Write(out: array<char>, at: nat, c0: char, c1: char, c2: char, c3: char)
    requires at + 4 <= out.Length
    modifies out
    ensures out[..] == Overwrite(old(out[..]), at, [c0, c1, c2, c3])
  {
    out[at], out[at + 1], out[at + 2], out[at + 3] := c0, c1, c2, c3;
  }

  /** The four lookups and writes of one pass. */
  method WriteQuad(out: array<char>, at: nat, triple: array<octet>, len: nat, ghost group: seq<octet>)
    requires at + 4 <= out.Length && triple.Length == 3 && len == |group|
    requires forall k :: 0 <= k < 3 ==> triple[k] == At(group, k)
    modifies out
    ensures |Quad(group)| == 4 && out[..] == Overwrite(old(out[..]), at, Quad(group))
  {
    var c0, c1, c2, c3 := LookUp(triple, len, group);
    Write(out, at, c0, c1, c2, c3);
  }

  // ---------------------------------------------------------------------------------------
  // The one caller
  // ---------------------------------------------------------------------------------------

  const SHA1_DIGEST_LENGTH: nat := 20
  const WEBSOCKET_BASE64_DIGEST_LENGTH: int32 := 30

  lemma WholeInput(input: seq<octet>)
    ensures Input(input, |input|) == input
  {}

  lemma LengthOf(data: seq<octet>, n: nat, length: nat)
    requires |data| == n && length == EncodedLength(n)
    ensures |Encode(data)| == length
  {
    EncodeLength(data);
  }

  /** The WebSocket handshake encodes a SHA-1 digest; its buffer has the least length that EncodeInto accepts. */
  method EncodeDigest(digest: seq<octet>) returns (base64: array<char>, length: int32)
    requires |digest| == 20
    ensures 30 == |Encode(digest)| + 2
    ensures length == 28 && base64.Length == 30
    ensures Decode(base64[..length]) == Some(digest)
  {
    base64 := new char[WEBSOCKET_BASE64_DIGEST_LENGTH];
    WholeInput(digest);
    LengthOf(digest, 20, 28);
    length := EncodeInto(digest, SHA1_DIGEST_LENGTH as int32, base64, WEBSOCKET_BASE64_DIGEST_LENGTH);
  }
}
