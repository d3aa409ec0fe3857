/**
 * The parts of Python's `str` that the crawler relies on: `isdigit`, `lower`, `title`,
 * `split`, `int(...)` with the white space it skips, `str(n)` and `encode()` (UTF-8).
 *
 * Digits and white space are the ASCII ones; letter case is modelled for Basic Latin and
 * for the Cyrillic block U+0400..U+045F, which covers the Russian names in the lists.
 */
module Text {
  import opened Wrappers

  // ---------------------------------------------------------------- digits

  predicate IsDigit(c: char) { '0' <= c <= '9' }

  function DigitValue(c: char): nat
    requires IsDigit(c)
  {
    c as int - '0' as int
  }

  function DigitChar(d: nat): (c: char)
    requires d < 10
    ensures IsDigit(c) && DigitValue(c) == d
  {
    ('0' as int + d) as char
  }

  /** `s.isdigit()`: true exactly for a non-empty string of digits. */
  predicate IsDigits(s: string) {
    |s| > 0 && forall i :: 0 <= i < |s| ==> IsDigit(s[i])
  }

  // ------------------------------------------------------------ letter case

  predicate IsUpper(c: char) { 'A' <= c <= 'Z' || '\U{0400}' <= c <= '\U{042F}' }

  predicate IsLower(c: char) { 'a' <= c <= 'z' || '\U{0430}' <= c <= '\U{045F}' }

  /** Python calls a character "cased" when it has an upper- and a lower-case form. */
  predicate IsCased(c: char) { IsUpper(c) || IsLower(c) }

  function Lower(c: char): char {
    if 'A' <= c <= 'Z' then (c as int + 0x20) as char
    else if '\U{0410}' <= c <= '\U{042F}' then (c as int + 0x20) as char
    else if '\U{0400}' <= c <= '\U{040F}' then (c as int + 0x50) as char
    else c
  }

  function Upper(c: char): char {
    if 'a' <= c <= 'z' then (c as int - 0x20) as char
    else if '\U{0430}' <= c <= '\U{044F}' then (c as int - 0x20) as char
    else if '\U{0450}' <= c <= '\U{045F}' then (c as int - 0x50) as char
    else c
  }

  /** Upper and lower case are two views of one letter: mapping twice is mapping once. */
  lemma CaseLaws(c: char)
    ensures Lower(Lower(c)) == Lower(c) && Upper(Upper(c)) == Upper(c)
    ensures Upper(Lower(c)) == Upper(c) && Lower(Upper(c)) == Lower(c)
    ensures IsCased(Lower(c)) == IsCased(c) && IsCased(Upper(c)) == IsCased(c)
    ensures IsCased(c) ==> IsLower(Lower(c)) && IsUpper(Upper(c))
  {
  }

  /**
   * `s.lower()`: no upper-case letter is left, every character keeps its letter (same
   * upper-case form, cased exactly where it was), and lowering again changes nothing.
   */
  function LowerStr(s: string): (r: string)
    ensures |r| == |s|
    ensures forall i :: 0 <= i < |r| ==> !IsUpper(r[i]) && Lower(r[i]) == r[i]
    ensures forall i :: 0 <= i < |r| ==> Upper(r[i]) == Upper(s[i]) && IsCased(r[i]) == IsCased(s[i])
  {
    seq(|s|, i requires 0 <= i < |s| => Lower(s[i]))
  }

  /**
   * `s.title()`: a character that follows a cased character is lowered, any other one is
   * upper-cased. `previousCased` says whether the character before `s` was cased.
   */
  function TitleFrom(s: string, previousCased: bool): (r: string)
    ensures |r| == |s|
    ensures forall i :: 0 <= i < |s| ==>
      r[i] == if (if i == 0 then previousCased else IsCased(s[i - 1])) then Lower(s[i]) else Upper(s[i])
  {
    if s == [] then []
    else [if previousCased then Lower(s[0]) else Upper(s[0])] + TitleFrom(s[1..], IsCased(s[0]))
  }

  function Title(s: string): string {
    TitleFrom(s, false)
  }

  /** `title()` only looks at which characters are cased, so lowering first changes nothing. */
  lemma {:induction false} TitleOfLower(s: string, previousCased: bool)
    ensures TitleFrom(LowerStr(s), previousCased) == TitleFrom(s, previousCased)
  {
    if s != [] {
      CaseLaws(s[0]);
      assert LowerStr(s)[1..] == LowerStr(s[1..]);
      TitleOfLower(s[1..], IsCased(s[0]));
    }
  }

  /** `title()` is idempotent. */
  lemma {:induction false} TitleTwice(s: string, previousCased: bool)
    ensures TitleFrom(TitleFrom(s, previousCased), previousCased) == TitleFrom(s, previousCased)
  {
    if s != [] {
      CaseLaws(s[0]);
      var t := TitleFrom(s, previousCased);
      assert t[1..] == TitleFrom(s[1..], IsCased(s[0]));
      TitleTwice(s[1..], IsCased(s[0]));
    }
  }

  // ----------------------------------------------------------- substring

  /** `sub in s` for two strings. */
  predicate Contains(s: string, sub: string) {
    exists i :: 0 <= i <= |s| - |sub| && OccursAt(s, sub, i)
  }

  predicate OccursAt(s: string, sub: string, i: int) {
    0 <= i <= |s| - |sub| && s[i..i + |sub|] == sub
  }

  // --------------------------------------------------------------- split

  /** `s.split(sep)` for a one-character separator. */
  function Split(s: string, sep: char): (parts: seq<string>)
    ensures |parts| >= 1
    ensures forall i :: 0 <= i < |parts| ==> sep !in parts[i]
  {
    if s == [] then [""]
    else
      var rest := Split(s[1..], sep);
      if s[0] == sep then [""] + rest
      else [[s[0]] + rest[0]] + rest[1..]
  }

  /** `sep.join(parts)` */
  function Join(parts: seq<string>, sep: char): string
    requires |parts| >= 1
  {
    if |parts| == 1 then parts[0] else parts[0] + [sep] + Join(parts[1..], sep)
  }

  lemma {:induction false} JoinSplit(s: string, sep: char)
    ensures Join(Split(s, sep), sep) == s
  {
    if s != [] {
      var rest := Split(s[1..], sep);
      JoinSplit(s[1..], sep);
      if s[0] != sep {
        var parts := Split(s, sep);
        if |rest| == 1 {
          assert parts == [[s[0]] + rest[0]];
        } else {
          assert parts[1..] == rest[1..];
          assert Join(parts, sep) == [s[0]] + rest[0] + [sep] + Join(rest[1..], sep);
        }
      }
    }
  }

  lemma {:induction false} SplitJoin(parts: seq<string>, sep: char)
    requires |parts| >= 1
    requires forall i :: 0 <= i < |parts| ==> sep !in parts[i]
    ensures Split(Join(parts, sep), sep) == parts
  {
    if |parts| == 1 {
      SplitNoSeparator(parts[0], sep);
    } else {
      SplitJoin(parts[1..], sep);
      SplitPrefix(parts[0], Join(parts[1..], sep), sep);
      assert Join(parts, sep) == parts[0] + ([sep] + Join(parts[1..], sep));
    }
  }

  lemma {:induction false} SplitNoSeparator(s: string, sep: char)
    requires sep !in s
    ensures Split(s, sep) == [s]
  {
    if s != [] {
      SplitNoSeparator(s[1..], sep);
      assert [s[0]] + s[1..] == s;
    }
  }

  /** A separator-free head becomes the first part; what follows the separator is split on its own. */
  lemma {:induction false} SplitPrefix(head: string, tail: string, sep: char)
    requires sep !in head
    ensures Split(head + [sep] + tail, sep) == [head] + Split(tail, sep)
  {
    if head == [] {
      assert head + [sep] + tail == [sep] + tail;
      assert ([sep] + tail)[1..] == tail;
    } else {
      var s := head + [sep] + tail;
      assert s[1..] == head[1..] + [sep] + tail;
      SplitPrefix(head[1..], tail, sep);
      assert [head[0]] + head[1..] == head;
    }
  }

  // --------------------------------------------------------- white space

  /**
   * The white space `int()` skips around a number (CPython's `Py_ISSPACE`): TAB..CR and SPACE.
   * The separators FS..US, which `isspace()` accepts, are not among them.
   */
  predicate IsSpace(c: char) {
    c == ' ' || '\t' <= c <= '\r'
  }

  function LeadingSpaces(s: string): (n: nat)
    ensures n <= |s|
    ensures forall k :: 0 <= k < n ==> IsSpace(s[k])
    ensures n < |s| ==> !IsSpace(s[n])
  {
    if s == [] || !IsSpace(s[0]) then 0 else 1 + LeadingSpaces(s[1..])
  }

  function TrailingSpaces(s: string): (n: nat)
    ensures n <= |s|
    ensures forall k :: |s| - n <= k < |s| ==> IsSpace(s[k])
    ensures n < |s| ==> !IsSpace(s[|s| - 1 - n])
  {
    if s == [] || !IsSpace(s[|s| - 1]) then 0 else 1 + TrailingSpaces(s[..|s| - 1])
  }

  predicate AllSpace(s: string) {
    forall i :: 0 <= i < |s| ==> IsSpace(s[i])
  }

  /**
   * What `int(s)` reads once it has skipped the white space at both ends: the slice of `s`
   * that has only white space before and after it, and neither starts nor ends with white space.
   */
  function Trim(s: string): (r: string)
    ensures r == [] || (!IsSpace(r[0]) && !IsSpace(r[|r| - 1]))
    ensures LeadingSpaces(s) + |r| <= |s| && r == s[LeadingSpaces(s)..LeadingSpaces(s) + |r|]
  {
    var lead, trail := LeadingSpaces(s), TrailingSpaces(s);
    if lead == |s| then []
    else
      assert lead < |s| - trail by {
        assert !IsSpace(s[lead]);
      }
      s[lead..|s| - trail]
  }

  lemma {:induction false} LeadingSpacesAppend(a: string, t: string)
    requires AllSpace(a)
    ensures LeadingSpaces(a + t) == |a| + LeadingSpaces(t)
  {
    if a != [] {
      assert (a + t)[0] == a[0] && (a + t)[1..] == a[1..] + t;
      LeadingSpacesAppend(a[1..], t);
    } else {
      assert a + t == t;
    }
  }

  lemma {:induction false} TrailingSpacesAppend(t: string, b: string)
    requires AllSpace(b)
    ensures TrailingSpaces(t + b) == TrailingSpaces(t) + |b|
  {
    if b != [] {
      var front := b[..|b| - 1];
      assert (t + b)[|t + b| - 1] == b[|b| - 1] && (t + b)[..|t + b| - 1] == t + front;
      TrailingSpacesAppend(t, front);
    } else {
      assert t + b == t;
    }
  }

  /** Trimming white space from around a text without white space at its ends gives that text. */
  lemma TrimAround(a: string, m: string, b: string)
    requires AllSpace(a) && AllSpace(b)
    requires m == [] || (!IsSpace(m[0]) && !IsSpace(m[|m| - 1]))
    ensures Trim(a + m + b) == m
  {
    var s := a + m + b;
    assert s == a + (m + b);
    LeadingSpacesAppend(a, m + b);
    if m == [] {
      assert m + b == b + [];
      LeadingSpacesAppend(b, []);
    } else {
      assert (m + b)[0] == m[0];
      assert LeadingSpaces(m + b) == 0;
      TrailingSpacesAppend(a + m, b);
      assert (a + m)[|a + m| - 1] == m[|m| - 1];
      assert TrailingSpaces(a + m) == 0;
      assert s[|a|..|s| - |b|] == m;
    }
  }

  lemma TrimNoSpace(s: string)
    requires forall i :: 0 <= i < |s| ==> !IsSpace(s[i])
    ensures Trim(s) == s
  {
    assert LeadingSpaces(s) == 0;
    assert TrailingSpaces(s) == 0;
  }

  // ------------------------------------------------------------ integers

  /** Digits, possibly grouped by single underscores between two digits (`1_000`). */
  predicate IsDigitGroups(s: string) {
    && |s| > 0
    && IsDigit(s[0])
    && IsDigit(s[|s| - 1])
    && DigitsOrUnderscores(s)
    && forall i :: 0 <= i < |s| ==> IsDigit(s[i]) || (s[i] == '_' && i + 1 < |s| && IsDigit(s[i + 1]))
  }

  predicate DigitsOrUnderscores(s: string) {
    forall i :: 0 <= i < |s| ==> IsDigit(s[i]) || s[i] == '_'
  }

  /** The decimal value of the digits of `s`, underscores skipped. */
  function Value(s: string): nat
    requires DigitsOrUnderscores(s)
  {
    if s == [] then 0
    else if s[|s| - 1] == '_' then Value(s[..|s| - 1])
    else 10 * Value(s[..|s| - 1]) + DigitValue(s[|s| - 1])
  }

  /** The shape `int()` accepts: white space, an optional sign, digit groups, white space. */
  predicate IsIntForm(a: string, sign: string, digits: string, b: string) {
    AllSpace(a) && AllSpace(b) && (sign == "" || sign == "+" || sign == "-") && IsDigitGroups(digits)
  }

  function Signed(sign: string, v: nat): int {
    if sign == "-" then -(v as int) else v
  }

  /**
   * `int(s)` in base 10: surrounding white space, an optional sign, then digit groups;
   * `None` is the ValueError it raises for anything else.
   */
  function PyInt(s: string): Option<int> {
    var t := Trim(s);
    if |t| > 0 && (t[0] == '+' || t[0] == '-') then
      var body := t[1..];
      if IsDigitGroups(body) then Some(Signed([t[0]], Value(body))) else None
    else if IsDigitGroups(t) then Some(Value(t) as int)
    else None
  }

  /** A signed number that `int(s)` returns, read off `s`. */
  lemma SignedReading(s: string) returns (a: string, sign: string, digits: string, b: string)
    requires |Trim(s)| > 0 && (Trim(s)[0] == '+' || Trim(s)[0] == '-') && IsDigitGroups(Trim(s)[1..])
    ensures s == a + (sign + digits) + b && IsIntForm(a, sign, digits, b) && PyInt(s) == Some(Signed(sign, Value(digits)))
  {
    var t := Trim(s);
    a, b := AroundTrimmed(s);
    sign, digits := [t[0]], t[1..];
    assert t == sign + digits;
  }

  /** An unsigned number that `int(s)` returns, read off `s`. */
  lemma UnsignedReading(s: string) returns (a: string, digits: string, b: string)
    requires !(|Trim(s)| > 0 && (Trim(s)[0] == '+' || Trim(s)[0] == '-')) && IsDigitGroups(Trim(s))
    ensures s == a + ("" + digits) + b && IsIntForm(a, "", digits, b) && PyInt(s) == Some(Signed("", Value(digits)))
  {
    a, b := AroundTrimmed(s);
    digits := Trim(s);
    assert digits == "" + digits;
  }

  /** Any number `int(s)` returns is the signed value of a reading of `s` in the accepted shape. */
  lemma PyIntReads(s: string)
    ensures PyInt(s).Some? ==> exists a, sign, digits, b ::
      s == a + (sign + digits) + b && IsIntForm(a, sign, digits, b) && PyInt(s).value == Signed(sign, Value(digits))
  {
    var t := Trim(s);
    if |t| > 0 && (t[0] == '+' || t[0] == '-') {
      if IsDigitGroups(t[1..]) {
        var a, sign, digits, b := SignedReading(s);
      }
    } else if IsDigitGroups(t) {
      var a, digits, b := UnsignedReading(s);
    }
  }

  /** A text cut at two places is its three pieces, one after the other. */
  lemma SliceParts(s: string, i: nat, j: nat)
    requires i <= j <= |s|
    ensures s == s[..i] + s[i..j] + s[j..]
  {
    assert s[..i] + s[i..j] == s[..j];
  }

  /** The white space `int()` skips at each end of `s`. */
  lemma AroundTrimmed(s: string) returns (a: string, b: string)
    ensures s == a + Trim(s) + b && AllSpace(a) && AllSpace(b)
  {
    var t, n := Trim(s), LeadingSpaces(s);
    var m := n + |t|;
    assert |s| - TrailingSpaces(s) <= m by {
      if t == [] {
        assert n == |s|;
      } else {
        assert m == |s| - TrailingSpaces(s);
      }
    }
    a, b := s[..n], s[m..];
    SliceParts(s, n, m);
    forall i | 0 <= i < |a| ensures IsSpace(a[i]) {
      assert a[i] == s[i];
    }
    forall i | 0 <= i < |b| ensures IsSpace(b[i]) {
      assert b[i] == s[m + i];
    }
  }

  /** Every text of the accepted shape is read as its signed value, so ValueError comes only from other texts. */
  lemma PyIntAccepts(a: string, sign: string, digits: string, b: string)
    requires IsIntForm(a, sign, digits, b)
    ensures PyInt(a + (sign + digits) + b) == Some(Signed(sign, Value(digits)))
  {
    var m := sign + digits;
    if sign == "" {
      assert m == digits;
      TrimAround(a, m, b);
      assert !(m[0] == '+' || m[0] == '-');
    } else {
      assert m[|m| - 1] == digits[|digits| - 1] && m[0] == sign[0];
      TrimAround(a, m, b);
      assert [m[0]] == sign && m[1..] == digits;
    }
  }

  /** `str(n)` for a non-negative integer. */
  function DecimalString(n: nat): (r: string)
    ensures IsDigits(r)
    ensures r[0] == '0' ==> n == 0 && |r| == 1
    ensures Value(r) == n
  {
    if n < 10 then [DigitChar(n)]
    else
      var r := DecimalString(n / 10) + [DigitChar(n % 10)];
      assert r[..|r| - 1] == DecimalString(n / 10);
      r
  }

  /** Digits without a leading zero have a positive value. */
  lemma {:induction false} LeadingDigitPositive(r: string)
    requires IsDigits(r) && r[0] != '0'
    ensures Value(r) > 0
  {
    if |r| > 1 {
      var front := r[..|r| - 1];
      assert front[0] == r[0];
      LeadingDigitPositive(front);
    }
  }

  /** `str(n)` is the only text of digits without a leading zero whose value is `n`. */
  lemma {:induction false} DecimalStringUnique(r: string, n: nat)
    requires IsDigits(r) && (r[0] == '0' ==> |r| == 1) && Value(r) == n
    ensures r == DecimalString(n)
  {
    if |r| == 1 {
      assert r[..0] == [];
      assert DigitChar(n) == r[0];
    } else {
      var front := r[..|r| - 1];
      assert front[0] == r[0];
      LeadingDigitPositive(front);
      assert n == 10 * Value(front) + DigitValue(r[|r| - 1]);
      assert n / 10 == Value(front) && n % 10 == DigitValue(r[|r| - 1]);
      DecimalStringUnique(front, n / 10);
      assert DigitChar(n % 10) == r[|r| - 1];
      assert r == front + [r[|r| - 1]];
    }
  }

  /** `int(str(n)) == n` */
  lemma PyIntOfDecimal(n: nat)
    ensures PyInt(DecimalString(n)) == Some(n)
  {
    var s := DecimalString(n);
    TrimNoSpace(s);
  }

  /** A string that `isdigit()` accepts is one that `int()` accepts. */
  lemma PyIntOfDigits(s: string)
    requires IsDigits(s)
    ensures PyInt(s) == Some(Value(s) as int)
  {
    TrimNoSpace(s);
  }

  /** `int(d)` for a single digit `d`. */
  lemma PyIntOfDigit(d: char)
    requires IsDigit(d)
    ensures PyInt([d]) == Some(DigitValue(d))
  {
    PyIntOfDigits([d]);
    assert [d][..0] == [];
  }

  /** `int()` skips a space before a number. */
  lemma SpaceSkipped()
    ensures PyInt(" 1") == Some(1)
  {
    TrimAround(" ", "1", "");
    assert " " + "1" + "" == " 1";
    assert Trim(" 1") == "1";
    assert Value("1") == 1 by {
      assert "1"[..0] == [];
    }
  }

  /** `int()` does not skip the separator FS, which `isspace()` accepts. */
  lemma SeparatorNotSkipped()
    ensures PyInt("\U{001C}1") == None
  {
    var s := "\U{001C}1";
    assert !IsSpace(s[0]);
    assert LeadingSpaces(s) == 0;
    var t := Trim(s);
    assert t != [];
    assert t[0] == s[0];
    assert !IsDigitGroups(t);
  }

  // ----------------------------------------------------------------- UTF-8

  type Byte = b: int | 0 <= b < 256

  /** How many bytes a UTF-8 sequence starting with `lead` has; 0 when `lead` cannot start one. */
  function SequenceLength(lead: Byte): nat {
    if lead < 0x80 then 1
    else if 0xC0 <= lead < 0xE0 then 2
    else if 0xE0 <= lead < 0xF0 then 3
    else if 0xF0 <= lead < 0xF8 then 4
    else 0
  }

  predicate IsContinuation(b: Byte) { 0x80 <= b < 0xC0 }

  /** The code point a sequence of one to four bytes carries: the lead byte's bits, then six per continuation byte. */
  function CodePoint(bs: seq<Byte>): int
    requires 1 <= |bs| <= 4
  {
    var b: seq<int> := bs;
    if |b| == 1 then b[0]
    else if |b| == 2 then (b[0] - 0xC0) * 0x40 + (b[1] - 0x80)
    else if |b| == 3 then ((b[0] - 0xE0) * 0x40 + (b[1] - 0x80)) * 0x40 + (b[2] - 0x80)
    else (((b[0] - 0xF0) * 0x40 + (b[1] - 0x80)) * 0x40 + (b[2] - 0x80)) * 0x40 + (b[3] - 0x80)
  }

  predicate IsScalar(n: int) { 0 <= n < 0xD800 || 0xE000 <= n < 0x11_0000 }

  /** A UTF-8 decoder: each lead byte announces its sequence, whose continuation bytes carry the rest. */
  function Decode(bs: seq<Byte>): Option<string>
    decreases |bs|
  {
    if bs == [] then Some("")
    else
      var n := SequenceLength(bs[0]);
      if n == 0 || n > |bs| then None
      else if exists i :: 1 <= i < n && !IsContinuation(bs[i]) then None
      else
        var cp := CodePoint(bs[..n]);
        if !IsScalar(cp) then None
        else
          match Decode(bs[n..])
          case None => None
          case Some(rest) => Some([cp as char] + rest)
  }

  /**
   * The UTF-8 form of one character (section 3 of RFC 3629): the shortest sequence for its code
   * point, whose lead byte announces its length, followed by continuation bytes, carrying the
   * code point.
   */
  function Utf8Char(c: char): (bs: seq<Byte>)
    ensures |bs| == if c as int < 0x80 then 1 else if c as int < 0x800 then 2 else if c as int < 0x1_0000 then 3 else 4
    ensures SequenceLength(bs[0]) == |bs|
    ensures forall i :: 1 <= i < |bs| ==> IsContinuation(bs[i])
    ensures CodePoint(bs) == c as int
  {
    var n := c as int;
    var n1, n2, n3 := n / 0x40, n / 0x40 / 0x40, n / 0x40 / 0x40 / 0x40;
    if n < 0x80 then [n]
    else if n < 0x800 then [0xC0 + n1, 0x80 + n % 0x40]
    else if n < 0x1_0000 then [0xE0 + n2, 0x80 + n1 % 0x40, 0x80 + n % 0x40]
    else [0xF0 + n3, 0x80 + n2 % 0x40, 0x80 + n1 % 0x40, 0x80 + n % 0x40]
  }

  /** `s.encode()`: the characters' UTF-8 sequences one after another, which decode back to `s`. */
  function Utf8(s: string): (bs: seq<Byte>)
    ensures |bs| >= |s|
    ensures Decode(bs) == Some(s)
  {
    if s == [] then []
    else
      var e, rest := Utf8Char(s[0]), Utf8(s[1..]);
      var bs := e + rest;
      assert bs[0] == e[0] && bs[..|e|] == e && bs[|e|..] == rest;
      assert forall i :: 1 <= i < |e| ==> bs[i] == e[i];
      assert (s[0] as int) as char == s[0];
      assert [s[0]] + s[1..] == s;
      bs
  }
}
