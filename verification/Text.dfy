/** The PHP text functions the importer is built on: explode, implode, substr, (int) and its two patterns. */
module Text {
  import opened Wrappers

  // ---------------------------------------------------------------------------------------
  // explode and implode
  // ---------------------------------------------------------------------------------------

  function Split(s: string, sep: char): (parts: seq<string>)
    ensures |parts| >= 1
  {
    if s == "" then [""]
    else
      var rest := Split(s[1..], sep);
      if s[0] == sep then [""] + rest else [[s[0]] + rest[0]] + rest[1..]
  }

  function Join(parts: seq<string>, sep: char): string {
    if parts == [] then ""
    else if |parts| == 1 then parts[0]
    else parts[0] + [sep] + Join(parts[1..], sep)
  }

  /** The text after the n-th separator. */
  function After(s: string, sep: char, n: nat): string {
    if n == 0 || s == "" then s
    else if s[0] == sep then After(s[1..], sep, n - 1)
    else After(s[1..], sep, n)
  }

  /** Joining what a split leaves from part n on gives back the text after the n-th separator. */
  lemma {:induction false} JoinTail(s: string, sep: char, n: nat)
    requires n < |Split(s, sep)|
    ensures Join(Split(s, sep)[n..], sep) == After(s, sep, n)
  {
    if s != "" {
      var rest := Split(s[1..], sep);
      if s[0] == sep {
        if n == 0 {
          JoinTail(s[1..], sep, 0);
          assert ([""] + rest)[0..] == [""] + rest && rest[0..] == rest;
          assert ([""] + rest)[1..] == rest;
        } else {
          JoinTail(s[1..], sep, n - 1);
          assert ([""] + rest)[n..] == rest[n - 1..];
        }
      } else {
        JoinTail(s[1..], sep, n);
        var parts := [[s[0]] + rest[0]] + rest[1..];
        if n == 0 {
          assert parts[0..] == parts && rest[0..] == rest && parts[1..] == rest[1..];
        } else {
          assert parts[n..] == rest[n..];
        }
      }
    }
  }

  lemma JoinSplit(s: string, sep: char)
    ensures Join(Split(s, sep), sep) == s
  {
    JoinTail(s, sep, 0);
    assert Split(s, sep)[0..] == Split(s, sep);
  }

  /** No part contains the separator. */
  lemma {:induction false} PartsAreClean(s: string, sep: char, i: nat)
    requires i < |Split(s, sep)|
    ensures sep !in Split(s, sep)[i]
  {
    if s != "" {
      if s[0] == sep {
        if i > 0 { PartsAreClean(s[1..], sep, i - 1); }
      } else {
        PartsAreClean(s[1..], sep, i);
      }
    }
  }

  /** Splitting inverts joining on clean parts, so fields and line determine each other. */
  lemma {:induction false} SplitJoin(parts: seq<string>, sep: char)
    requires parts != [] && forall p | p in parts :: sep !in p
    ensures Split(Join(parts, sep), sep) == parts
    decreases |Join(parts, sep)|
  {
    var s := Join(parts, sep);
    var head := parts[0];
    if head != "" {
      var shorter := [head[1..]] + parts[1..];
      assert s[1..] == Join(shorter, sep);
      assert head == [head[0]] + head[1..];
      assert sep !in head && head in parts && forall p | p in parts[1..] :: p in parts;
      SplitJoin(shorter, sep);
      assert [[s[0]] + shorter[0]] + shorter[1..] == parts;
    } else if |parts| > 1 {
      assert s[1..] == Join(parts[1..], sep);
      SplitJoin(parts[1..], sep);
      assert [""] + parts[1..] == parts;
    } else {
      assert parts == [""];
    }
  }

  /** substr(s, 0, -1): strips the carriage return that a form post leaves at the end of a line. */
  function DropLast(s: string): string {
    if s == "" then "" else s[..|s| - 1]
  }

  lemma DropLastDrops(s: string, c: char)
    ensures DropLast(s + [c]) == s && DropLast("") == ""
  {
    assert (s + [c])[..|s|] == s;
  }

  // ---------------------------------------------------------------------------------------
  // Patterns
  // ---------------------------------------------------------------------------------------

  predicate IsAlnum(c: char) {
    'a' <= c <= 'z' || 'A' <= c <= 'Z' || '0' <= c <= '9'
  }

  predicate IsSpace(c: char) {
    c == ' ' || '\t' <= c <= '\r'
  }

  /** Length of the longest prefix all of whose characters satisfy p. */
  function Span(s: string, p: char -> bool): (n: nat)
    ensures n <= |s| && (forall i | 0 <= i < n :: p(s[i])) && (n < |s| ==> !p(s[n]))
  {
    if s == "" || !p(s[0]) then 0 else 1 + Span(s[1..], p)
  }

  lemma {:induction false} SpanIs(s: string, p: char -> bool, n: nat)
    requires n <= |s| && (forall i | 0 <= i < n :: p(s[i])) && (n < |s| ==> !p(s[n]))
    ensures Span(s, p) == n
  {
    if n > 0 { SpanIs(s[1..], p, n - 1); }
  }

  function NameChar(c: char): bool {
    IsAlnum(c) || IsSpace(c)
  }

  /** The first match of ([[:alnum:][:space:]]*), which is the longest such prefix. */
  function ClassName(s: string): string {
    s[..Span(s, NameChar)]
  }

  /** Normalising keeps a prefix of letters, digits and white space, a name of these alone whole, and is idempotent. */
  lemma ClassNameNormalises(s: string)
    ensures ClassName(s) <= s
    ensures forall c | c in ClassName(s) ::
              'a' <= c <= 'z' || 'A' <= c <= 'Z' || '0' <= c <= '9' || c == ' ' || '\t' <= c <= '\r'
    ensures ClassName(s) == s <==> forall c | c in s ::
              'a' <= c <= 'z' || 'A' <= c <= 'Z' || '0' <= c <= '9' || c == ' ' || '\t' <= c <= '\r'
    ensures ClassName(ClassName(s)) == ClassName(s)
  {
    var n := Span(s, NameChar);
    var name := s[..n];
    SpanIs(name, NameChar, n);
    if n < |s| { assert s[n] in s; }
  }

  /** No longer prefix consists of letters, digits and white space. */
  lemma ClassNameIsLongest(s: string, n: nat)
    requires n <= |s|
    requires forall i | 0 <= i < n ::
               'a' <= s[i] <= 'z' || 'A' <= s[i] <= 'Z' || '0' <= s[i] <= '9' || s[i] == ' ' || '\t' <= s[i] <= '\r'
    ensures n <= |ClassName(s)|
  {}

  /** The name matched by ^\[([[:alnum:]]*)\] . */
  function HeaderName(line: string): Option<string> {
    if line == "" || line[0] != '[' then None
    else
      var n := Span(line[1..], IsAlnum);
      if n + 1 < |line| && line[n + 1] == ']' then Some(line[1..n + 1]) else None
  }

  lemma HeaderHasBrackets(line: string)
    requires HeaderName(line).Some?
    ensures var name := HeaderName(line).value;
            "[" + name + "]" <= line && forall c | c in name :: IsAlnum(c)
  {
    var n := Span(line[1..], IsAlnum);
    var name := line[1..n + 1];
    assert line[..n + 2] == "[" + name + "]";
    forall c | c in name ensures IsAlnum(c) {
      var i :| 0 <= i < |name| && name[i] == c;
      assert name[i] == line[1..][i];
    }
  }

  lemma BracketsMakeHeader(line: string, name: string)
    requires "[" + name + "]" <= line && forall c | c in name :: IsAlnum(c)
    ensures HeaderName(line) == Some(name)
  {
    var full := "[" + name + "]";
    assert forall i | 0 <= i < |full| :: line[i] == full[i];
    forall i | 0 <= i < |name| ensures IsAlnum(line[1..][i]) {
      assert line[1..][i] == full[i + 1] == name[i];
    }
    assert line[1..][|name|] == full[|name| + 1];
    SpanIs(line[1..], IsAlnum, |name|);
    assert line[1..|name| + 1] == name;
  }

  /** A line is a header exactly if it starts with an alphanumeric name in brackets. */
  lemma HeaderNameMatches(line: string, name: string)
    ensures HeaderName(line) == Some(name) <==>
            && "[" + name + "]" <= line
            && forall c | c in name :: 'a' <= c <= 'z' || 'A' <= c <= 'Z' || '0' <= c <= '9'
  {
    if HeaderName(line) == Some(name) {
      HeaderHasBrackets(line);
    } else if "[" + name + "]" <= line && forall c | c in name :: IsAlnum(c) {
      BracketsMakeHeader(line, name);
    }
  }

  // ---------------------------------------------------------------------------------------
  // (int): leading white space, a sign, digits; anything else ends the number
  // ---------------------------------------------------------------------------------------

  function Digits(s: string, acc: int): int {
    if s != "" && '0' <= s[0] <= '9' then Digits(s[1..], 10 * acc + (s[0] as int - '0' as int)) else acc
  }

  function IntVal(s: string): int {
    if s == "" then 0
    else if IsSpace(s[0]) then IntVal(s[1..])
    else if s[0] == '-' then -Digits(s[1..], 0)
    else if s[0] == '+' then Digits(s[1..], 0)
    else Digits(s, 0)
  }

  function Decimal(n: nat): string {
    var digit := [(n % 10 + '0' as int) as char];
    if n < 10 then digit else Decimal(n / 10) + digit
  }

  function Numeral(n: int): string {
    if n < 0 then "-" + Decimal(-n) else Decimal(n)
  }

  lemma {:induction false} DigitsOfDecimal(n: nat, rest: string)
    ensures Digits(Decimal(n) + rest, 0) == Digits(rest, n)
  {
    var digit := [(n % 10 + '0' as int) as char];
    if n < 10 {
      assert Decimal(n) + rest == digit + rest;
    } else {
      DigitsOfDecimal(n / 10, digit + rest);
      assert Decimal(n) + rest == Decimal(n / 10) + (digit + rest);
    }
    assert (digit + rest)[1..] == rest;
  }

  lemma {:induction false} DecimalStartsWithDigit(n: nat)
    ensures Decimal(n) != "" && '0' <= Decimal(n)[0] <= '9'
  {
    if n >= 10 { DecimalStartsWithDigit(n / 10); }
  }

  lemma SignOrDigit(digits: string, rest: string, m: int)
    requires digits != "" && '0' <= digits[0] <= '9' && Digits(digits + rest, 0) == m
    ensures IntVal(digits + rest) == m && IntVal("-" + digits + rest) == -m && IntVal("+" + digits + rest) == m
  {
    assert ("-" + digits + rest)[1..] == digits + rest && ("+" + digits + rest)[1..] == digits + rest;
  }

  lemma DecimalReads(n: nat, rest: string)
    requires rest == "" || !('0' <= rest[0] <= '9')
    ensures Digits(Decimal(n) + rest, 0) == n
  {
    DigitsOfDecimal(n, rest);
  }

  /** (int) reads back every numeral, whatever other characters follow it. */
  lemma IntValReadsNumerals(n: int, rest: string)
    requires rest == "" || !('0' <= rest[0] <= '9')
    ensures IntVal(Numeral(n) + rest) == n
  {
    var m: nat := if n < 0 then -n else n;
    DecimalStartsWithDigit(m);
    DecimalReads(m, rest);
    SignOrDigit(Decimal(m), rest, m);
  }

  lemma IntValReadsPlus(n: nat, rest: string)
    requires rest == "" || !('0' <= rest[0] <= '9')
    ensures IntVal("+" + Decimal(n) + rest) == n
  {
    DecimalStartsWithDigit(n);
    DecimalReads(n, rest);
    SignOrDigit(Decimal(n), rest, n);
  }

  /** White space in front is skipped; what starts otherwise than a numeral reads as 0, and so does a bare sign. */
  lemma IntValOtherwise(c: char, s: string)
    ensures c == ' ' || '\t' <= c <= '\r' ==> IntVal([c] + s) == IntVal(s)
    ensures !(c == ' ' || '\t' <= c <= '\r' || '0' <= c <= '9' || c == '-' || c == '+') ==> IntVal([c] + s) == 0
    ensures (c == '-' || c == '+') && (s == "" || !('0' <= s[0] <= '9')) ==> IntVal([c] + s) == 0
    ensures IntVal("") == 0
  {
    assert ([c] + s)[1..] == s;
  }
}
