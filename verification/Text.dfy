/** Digits, case, white space and identifiers in texts. */
module Text {

  predicate IsDigit(c: char) {
    '0' <= c <= '9'
  }

  function DigitRun(s: string): (n: nat)
    ensures n <= |s| && (forall i :: 0 <= i < n ==> IsDigit(s[i])) && (n < |s| ==> !IsDigit(s[n]))
  {
    if s == "" || !IsDigit(s[0]) then 0 else 1 + DigitRun(s[1..])
  }

  function DigitValue(c: char): nat
    requires IsDigit(c)
  {
    c as int - '0' as int
  }

  predicate AllDigits(s: string) {
    forall i :: 0 <= i < |s| ==> IsDigit(s[i])
  }

  function NumberOf(s: string): nat
    requires AllDigits(s)
  {
    if s == "" then 0 else 10 * NumberOf(s[..|s| - 1]) + DigitValue(s[|s| - 1])
  }

  function Power10(n: nat): (p: nat)
    ensures p > 0
  {
    if n == 0 then 1 else 10 * Power10(n - 1)
  }

  lemma {:induction false} NumberJoins(a: string, b: string)
    requires AllDigits(a) && AllDigits(b)
    ensures AllDigits(a + b) && NumberOf(a + b) == NumberOf(a) * Power10(|b|) + NumberOf(b)
  {
    if b == "" {
      assert a + b == a;
    } else {
      var c := b[..|b| - 1];
      NumberJoins(a, c);
      assert (a + b)[..|a + b| - 1] == a + c;
      assert NumberOf(a) * Power10(|b|) == 10 * (NumberOf(a) * Power10(|c|));
    }
  }

  lemma {:induction false} NumberBelow(s: string)
    requires AllDigits(s)
    ensures NumberOf(s) < Power10(|s|)
  {
    if s != "" {
      NumberBelow(s[..|s| - 1]);
    }
  }

  /** The order of JavaScript's `<` on strings: by code unit, a proper prefix first. */
  predicate TextLess(a: string, b: string) {
    b != "" && (a == "" || a[0] < b[0] || (a[0] == b[0] && TextLess(a[1..], b[1..])))
  }

  function Digits(n: nat): string {
    if n < 10 then [('0' as int + n) as char] else Digits(n / 10) + [('0' as int + n % 10) as char]
  }

  function Decimal(n: int): string {
    if n < 0 then "-" + Digits(-n) else Digits(n)
  }

  function TrimLeft(s: string): string {
    if s != "" && s[0] == ' ' then TrimLeft(s[1..]) else s
  }

  function TrimRight(s: string): string {
    if s != "" && s[|s| - 1] == ' ' then TrimRight(s[..|s| - 1]) else s
  }

  function Trim(s: string): string {
    TrimRight(TrimLeft(s))
  }

  function Upper(s: string): string {
    seq(|s|, i requires 0 <= i < |s| =>
      if 'a' <= s[i] <= 'z' then (s[i] as int - 32) as char else s[i])
  }

  function Lower(s: string): string {
    seq(|s|, i requires 0 <= i < |s| =>
      if 'A' <= s[i] <= 'Z' then (s[i] as int + 32) as char else s[i])
  }

  predicate IsHex(c: char) {
    '0' <= c <= '9' || 'a' <= c <= 'f' || 'A' <= c <= 'F'
  }

  predicate IsUuid(s: string) {
    |s| == 36 && forall i :: 0 <= i < 36 ==> if i in {8, 13, 18, 23} then s[i] == '-' else IsHex(s[i])
  }

  /** What JavaScript's `trim` takes from both ends. */
  predicate IsBlank(c: char) {
    || '\U{0009}' <= c <= '\U{000d}' || c == ' ' || c == '\U{00a0}' || c == '\U{1680}' || '\U{2000}' <= c <= '\U{200a}'
    || c == '\U{2028}' || c == '\U{2029}' || c == '\U{202f}' || c == '\U{205f}' || c == '\U{3000}' || c == '\U{feff}'
  }

  predicate IsTrimmed(s: string) {
    s == "" || (!IsBlank(s[0]) && !IsBlank(s[|s| - 1]))
  }

  function Trimmed(s: string): (r: string)
    ensures IsTrimmed(r) && (IsTrimmed(s) ==> r == s)
    decreases |s|
  {
    if s == "" then s
    else if IsBlank(s[0]) then Trimmed(s[1..])
    else if IsBlank(s[|s| - 1]) then Trimmed(s[..|s| - 1])
    else s
  }

  const HEX_DIGITS := "0123456789abcdefABCDEF"

  lemma {:induction false} HexListed(c: char)
    ensures IsHex(c) <==> c in HEX_DIGITS
  {
  }

  /** Five groups of hexadecimal digits with hyphens between them. */
  lemma {:induction false} UuidSpelled(s: string)
    ensures IsUuid(s) <==>
      && |s| == 36 && s[8] == s[13] == s[18] == s[23] == '-'
      && forall c :: c in s[..8] + s[9..13] + s[14..18] + s[19..23] + s[24..] ==> c in HEX_DIGITS
  {
    forall c {
      HexListed(c);
    }
    hide IsHex;
    if |s| == 36 {
      var digits := s[..8] + s[9..13] + s[14..18] + s[19..23] + s[24..];
      forall i | 0 <= i < 36 && i !in {8, 13, 18, 23}
        ensures s[i] in digits
      {
        var k :=
          if i < 8 then i else if i < 13 then i - 1 else if i < 18 then i - 2 else if i < 23 then i - 3 else i - 4;
        assert digits[k] == s[i];
      }
      forall k | 0 <= k < |digits|
        ensures exists i :: 0 <= i < 36 && i !in {8, 13, 18, 23} && s[i] == digits[k]
      {
        var i :=
          if k < 8 then k else if k < 12 then k + 1 else if k < 16 then k + 2 else if k < 20 then k + 3 else k + 4;
        assert s[i] == digits[k];
      }
    }
  }

  /** What JavaScript's `trim` takes away. */
  const BLANKS := "\t\n\U{000b}\U{000c}\r \U{00a0}\U{1680}\U{2000}\U{2001}\U{2002}\U{2003}\U{2004}\U{2005}\U{2006}"
    + "\U{2007}\U{2008}\U{2009}\U{200a}\U{2028}\U{2029}\U{202f}\U{205f}\U{3000}\U{feff}"

  lemma {:induction false} BlanksListed(c: char)
    ensures IsBlank(c) <==> IsListedBlank(c)
  {
  }

  predicate IsListedBlank(c: char) {
    c in BLANKS
  }

  ghost predicate AllBlank(s: string) {
    forall i :: 0 <= i < |s| ==> IsListedBlank(s[i])
  }

  ghost predicate StripsTo(s: string, r: string) {
    && (r == "" || (!IsListedBlank(r[0]) && !IsListedBlank(r[|r| - 1])))
    && exists a, b :: AllBlank(a) && AllBlank(b) && s == a + r + b
  }

  lemma {:induction false} OneBlankMore(x: char, s: string, r: string)
    requires IsListedBlank(x) && StripsTo(s, r)
    ensures StripsTo([x] + s, r) && StripsTo(s + [x], r)
  {
    hide IsListedBlank;
    var a, b :| AllBlank(a) && AllBlank(b) && s == a + r + b;
    assert AllBlank([x] + a) && [x] + s == ([x] + a) + r + b;
    assert AllBlank(b + [x]) && s + [x] == a + r + (b + [x]);
  }

  lemma {:induction false} StripsToItself(s: string)
    requires s == "" || (!IsListedBlank(s[0]) && !IsListedBlank(s[|s| - 1]))
    ensures StripsTo(s, s)
  {
    assert AllBlank("") && s == "" + s + "";
  }

  /** Trimming takes the blanks at both ends, all of them and nothing else. */
  lemma {:induction false} TrimmedStrips(s: string)
    ensures StripsTo(s, Trimmed(s))
    decreases |s|
  {
    hide IsBlank, IsListedBlank, StripsTo, BLANKS;
    if s == "" {
      StripsToItself(s);
    } else {
      BlanksListed(s[0]);
      BlanksListed(s[|s| - 1]);
      if IsBlank(s[0]) {
        TrimmedStrips(s[1..]);
        OneBlankMore(s[0], s[1..], Trimmed(s[1..]));
        assert s == [s[0]] + s[1..];
      } else if IsBlank(s[|s| - 1]) {
        TrimmedStrips(s[..|s| - 1]);
        OneBlankMore(s[|s| - 1], s[..|s| - 1], Trimmed(s[..|s| - 1]));
        assert s == s[..|s| - 1] + [s[|s| - 1]];
      } else {
        StripsToItself(s);
      }
    }
  }

  const SMALL := "abcdefghijklmnopqrstuvwxyz"
  const CAPITAL := "ABCDEFGHIJKLMNOPQRSTUVWXYZ"

  lemma {:induction false} LettersIndexed(c: char)
    ensures 'a' <= c <= 'z' ==> c == SMALL[c as int - 97] && (c as int - 32) as char == CAPITAL[c as int - 97]
    ensures 'A' <= c <= 'Z' ==> c == CAPITAL[c as int - 65] && (c as int + 32) as char == SMALL[c as int - 65]
    ensures c in SMALL <==> 'a' <= c <= 'z'
    ensures c in CAPITAL <==> 'A' <= c <= 'Z'
  {
  }

  /** The 26 small letters become the capitals, and the other way round; every other character stays. */
  lemma {:induction false} CasesChanged(s: string)
    ensures |Upper(s)| == |s| == |Lower(s)|
    ensures forall i, k :: 0 <= i < |s| && 0 <= k < 26 && s[i] == SMALL[k] ==> Upper(s)[i] == CAPITAL[k]
    ensures forall i, k :: 0 <= i < |s| && 0 <= k < 26 && s[i] == CAPITAL[k] ==> Lower(s)[i] == SMALL[k]
    ensures forall i :: 0 <= i < |s| && s[i] !in SMALL ==> Upper(s)[i] == s[i]
    ensures forall i :: 0 <= i < |s| && s[i] !in CAPITAL ==> Lower(s)[i] == s[i]
  {
    forall i | 0 <= i < |s| {
      LettersIndexed(s[i]);
    }
  }
}
