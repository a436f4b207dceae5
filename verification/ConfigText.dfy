/** The text primitives of the configuration loader: trimming, searching, `strtoul`,
    `%Ns` scanning and decimal printing. */
module ConfigText {
  import opened Options

  /** `isspace` in the C locale: the blank and the codes 9 to 13. */
  predicate IsSpace(c: char) {
    c == ' ' || '\t' <= c <= '\r'
  }

  predicate IsDigit(c: char) {
    '0' <= c <= '9'
  }

  predicate NoSpaces(s: string) {
    forall c :: c in s ==> !IsSpace(c)
  }

  // ----- Searching and trimming

  /** `strchr` as an index: the first `c`, or the length. */
  function Find(s: string, c: char): (i: nat)
    ensures i <= |s|
    ensures i < |s| ==> s[i] == c
    ensures c !in s[..i]
  {
    if s == [] || s[0] == c then 0
    else
      var i := 1 + Find(s[1..], c);
      assert s[..i] == [s[0]] + s[1..][..i - 1];
      i
  }

  lemma FindIn(a: string, c: char, b: string)
    requires c !in a
    ensures Find(a + [c] + b, c) == |a|
  {
    var s := a + [c] + b;
    assert forall i :: 0 <= i < |a| ==> s[i] == a[i];
    assert s[|a|] == c;
  }

  lemma FindAbsent(s: string, c: char)
    requires c !in s
    ensures Find(s, c) == |s|
  {
  }

  /** Neither end is white space. */
  predicate Tight(s: string) {
    s == "" || (!IsSpace(s[0]) && !IsSpace(s[|s| - 1]))
  }

  function Trimmed(s: string): (t: string)
    ensures Tight(t)
    ensures Tight(s) ==> t == s
    ensures forall c :: c in t ==> c in s
    decreases |s|
  {
    if s != "" && IsSpace(s[0]) then Trimmed(s[1..])
    else if s != "" && IsSpace(s[|s| - 1]) then Trimmed(s[..|s| - 1])
    else s
  }

  /** Trimming removes white space only: what is left sits between two blank margins. */
  lemma {:induction false} TrimmedMargins(s: string) returns (left: string, right: string)
    ensures s == left + Trimmed(s) + right
    ensures forall c :: c in left || c in right ==> IsSpace(c)
    decreases |s|
  {
    if s != "" && IsSpace(s[0]) {
      var l, r := TrimmedMargins(s[1..]);
      left, right := [s[0]] + l, r;
      JoinLeft(s, l, Trimmed(s), r);
    } else if s != "" && IsSpace(s[|s| - 1]) {
      var n := |s| - 1;
      var l, r := TrimmedMargins(s[..n]);
      left, right := l, r + [s[n]];
      JoinRight(s, l, Trimmed(s), r);
    } else {
      left, right := "", "";
      assert "" + s + "" == s;
    }
  }

  lemma JoinLeft(s: string, l: string, t: string, r: string)
    requires s != "" && s[1..] == l + t + r
    ensures s == ([s[0]] + l) + t + r
  {
    assert s == [s[0]] + s[1..];
  }

  lemma JoinRight(s: string, l: string, t: string, r: string)
    requires s != "" && s[..|s| - 1] == l + t + r
    ensures s == l + t + (r + [s[|s| - 1]])
  {
    assert s == s[..|s| - 1] + [s[|s| - 1]];
  }

  /** If a string does not begin with white space, trimming it keeps its beginning. */
  lemma {:induction false} TrimmedPrefix(s: string)
    requires s != "" && !IsSpace(s[0])
    ensures Trimmed(s) != "" && Trimmed(s) <= s
    decreases |s|
  {
    if IsSpace(s[|s| - 1]) {
      TrimmedPrefix(s[..|s| - 1]);
    }
  }

  lemma TrimFront(text: string, start: nat)
    requires start < |text| && IsSpace(text[start])
    ensures Trimmed(text[start..]) == Trimmed(text[start + 1..])
  {
    assert text[start..][1..] == text[start + 1..];
  }

  lemma TrimBack(text: string, start: nat, end: nat)
    requires start < end <= |text| && !IsSpace(text[start]) && IsSpace(text[end - 1])
    ensures Trimmed(text[start..end]) == Trimmed(text[start..end - 1])
  {
    var s := text[start..end];
    assert s[0] == text[start] && s[|s| - 1] == text[end - 1];
    assert s[..|s| - 1] == text[start..end - 1];
  }

  lemma TrimDone(s: string)
    requires s == "" || (!IsSpace(s[0]) && !IsSpace(s[|s| - 1]))
    ensures Trimmed(s) == s
  {
  }

  /** The two loops of trim: move the start forward, the end back, cut. */
  method Trim(text: string) returns (t: string)
    ensures t == Trimmed(text)
  {
    hide Trimmed;
    assert text[0..] == text;
    var start := 0;
    while start < |text| && IsSpace(text[start])
      invariant start <= |text|
      invariant Trimmed(text[start..]) == Trimmed(text)
    {
      TrimFront(text, start);
      start := start + 1;
    }
    var end := |text|;
    assert text[start..end] == text[start..];
    while end > start && IsSpace(text[end - 1])
      invariant start <= end <= |text|
      invariant start < end ==> !IsSpace(text[start])
      invariant Trimmed(text[start..end]) == Trimmed(text)
    {
      TrimBack(text, start, end);
      end := end - 1;
    }
    t := text[start..end];
    TrimDone(t);
  }

  // ----- Numbers

  function DigitOf(n: nat): (c: char)
    requires n < 10
    ensures IsDigit(c) && c as int - '0' as int == n
  {
    '0' + n as char
  }

  /** `%u`. */
  function Decimal(n: nat): (s: string)
    ensures s != "" && forall c :: c in s ==> IsDigit(c)
  {
    if n < 10 then [DigitOf(n)] else Decimal(n / 10) + [DigitOf(n % 10)]
  }

  predicate AllDigits(s: string) {
    forall c :: c in s ==> IsDigit(c)
  }

  function Value(s: string): (n: nat)
    requires AllDigits(s)
  {
    if s == "" then 0
    else
      var k := |s| - 1;
      assert s[k] in s && IsDigit(s[k]);
      Value(s[..k]) * 10 + (s[k] as int - '0' as int)
  }

  lemma {:induction false} DecimalValue(n: nat)
    ensures Value(Decimal(n)) == n
  {
    var s := Decimal(n);
    if n < 10 {
      assert s[..0] == "";
    } else {
      DecimalValue(n / 10);
      assert s[..|s| - 1] == Decimal(n / 10);
    }
  }

  function Pow10(k: nat): (p: nat)
    ensures p > 0
  {
    if k == 0 then 1 else 10 * Pow10(k - 1)
  }

  lemma {:induction false} DecimalLength(n: nat, k: nat)
    requires 0 < k && n < Pow10(k)
    ensures |Decimal(n)| <= k
    decreases k
  {
    if n >= 10 {
      assert k > 1 by { assert Pow10(1) == 10; }
      DecimalLength(n / 10, k - 1);
    }
  }

  lemma PortLength(n: nat)
    requires n <= 65535
    ensures |Decimal(n)| <= 5
  {
    assert Pow10(5) == 100000;
    DecimalLength(n, 5);
  }

  function SkipSpaces(s: string): (t: string)
    ensures |t| <= |s|
    ensures forall c :: c in t ==> c in s
    ensures t != "" ==> !IsSpace(t[0])
    ensures s != "" && !IsSpace(s[0]) ==> t == s
    decreases |s|
  {
    if s != "" && IsSpace(s[0]) then SkipSpaces(s[1..]) else s
  }

  const ULONG_RANGE: nat := 0x1_0000_0000_0000_0000

  /** parse_positive_integer: `strtoul` in base 10 must consume the whole text, stay in
      range and not give zero. A minus sign negates modulo 2^64; only one in the very first
      place is refused up front. */
  function ParsePositive(s: string): (r: Option<nat>)
    ensures r.Some? ==> 0 < r.value < ULONG_RANGE
  {
    if s == "" || s[0] == '-' then None
    else
      var t := SkipSpaces(s);
      var negative := t != "" && t[0] == '-';
      var digits := if t != "" && (t[0] == '-' || t[0] == '+') then t[1..] else t;
      if digits == "" || !AllDigits(digits) then None
      else
        var magnitude := Value(digits);
        if magnitude == 0 || magnitude >= ULONG_RANGE then None
        else Some(if negative then ULONG_RANGE - magnitude else magnitude)
  }

  /** Reading back a printed positive number. */
  lemma ParsesDecimal(n: nat)
    requires 0 < n < ULONG_RANGE
    ensures ParsePositive(Decimal(n)) == Some(n)
  {
    var s := Decimal(n);
    assert s[0] in s && IsDigit(s[0]);
    DecimalValue(n);
  }

  predicate AllSpaces(s: string) {
    forall c :: c in s ==> IsSpace(c)
  }

  /** White space by its codes: blank, tab, line feed, vertical tab, form feed and return. */
  lemma SpacesExactly(s: string)
    ensures AllSpaces(s) <==> forall i :: 0 <= i < |s| ==> s[i] as int == 32 || 9 <= s[i] as int <= 13
  {
    forall i | 0 <= i < |s|
      ensures s[i] in s && (IsSpace(s[i]) <==> s[i] as int == 32 || 9 <= s[i] as int <= 13)
    {
    }
    assert AllSpaces(s) <==> forall i :: 0 <= i < |s| ==> IsSpace(s[i]);
  }

  /** `s` consists of blanks, a sign and digits of a value in range, and stands for `n`: the
      value itself, or its negation modulo 2^64 after a minus, which needs a blank before it. */
  predicate StandsFor(s: string, blanks: string, sign: string, digits: string, n: nat) {
    && s == blanks + sign + digits && AllSpaces(blanks) && digits != "" && AllDigits(digits)
    && 0 < Value(digits) <= 0xFFFF_FFFF_FFFF_FFFF
    && if sign == "-" then blanks != "" && n == 0x1_0000_0000_0000_0000 - Value(digits)
       else (sign == "" || sign == "+") && n == Value(digits)
  }

  lemma Prepend(s: string, a: string, b: string)
    requires s != "" && s[1..] == a + b
    ensures s == ([s[0]] + a) + b
  {
    assert s == [s[0]] + s[1..];
  }

  lemma {:induction false} SkippedSpaces(s: string) returns (blanks: string)
    ensures s == blanks + SkipSpaces(s) && AllSpaces(blanks)
    decreases |s|
  {
    if s != "" && IsSpace(s[0]) {
      var more := SkippedSpaces(s[1..]);
      blanks := [s[0]] + more;
      Prepend(s, more, SkipSpaces(s[1..]));
    } else {
      blanks := "";
      assert "" + s == s;
    }
  }

  lemma {:induction false} SkipsExactly(blanks: string, t: string)
    requires AllSpaces(blanks) && t != "" && !IsSpace(t[0])
    ensures SkipSpaces(blanks + t) == t
    decreases |blanks|
  {
    if blanks == "" {
      assert blanks + t == t;
    } else {
      assert (blanks + t)[1..] == blanks[1..] + t;
      SkipsExactly(blanks[1..], t);
    }
  }

  lemma Recombine(s: string, blanks: string, t: string, k: nat)
    requires s == blanks + t && k <= |t|
    ensures s == blanks + t[..k] + t[k..]
  {
    assert t == t[..k] + t[k..];
  }

  lemma AcceptedStandsFor(s: string, n: nat)
    requires ParsePositive(s) == Some(n)
    ensures exists blanks, sign, digits :: StandsFor(s, blanks, sign, digits, n)
  {
    hide SkipSpaces, Value;
    var blanks := SkippedSpaces(s);
    var t := SkipSpaces(s);
    var k := if t[0] == '-' || t[0] == '+' then 1 else 0;
    Recombine(s, blanks, t, k);
    assert t[0..] == t;
    assert StandsFor(s, blanks, t[..k], t[k..], n);
  }

  lemma StandsForAccepted(s: string, blanks: string, sign: string, digits: string, n: nat)
    requires StandsFor(s, blanks, sign, digits, n)
    ensures ParsePositive(s) == Some(n)
  {
    var t := sign + digits;
    assert digits[0] in digits && IsDigit(digits[0]);
    assert s == blanks + t;
    SkipsExactly(blanks, t);
    assert blanks != "" ==> s[0] in blanks;
    if sign != "" { assert t[1..] == digits; } else { assert t == digits; }
  }

  /** Exactly which texts are numbers, and which: the minus sign that is refused in first
      place is accepted behind a blank. */
  lemma ParsePositiveMeaning(s: string, n: nat)
    ensures ParsePositive(s) == Some(n)
       <==> exists blanks, sign, digits :: StandsFor(s, blanks, sign, digits, n)
  {
    if ParsePositive(s) == Some(n) {
      AcceptedStandsFor(s, n);
    }
    if blanks, sign, digits :| StandsFor(s, blanks, sign, digits, n) {
      StandsForAccepted(s, blanks, sign, digits, n);
    }
  }

  // ----- `%Ns`

  /** The number of leading non-blank characters, at most `max`. */
  function WordLength(s: string, max: nat): (n: nat)
    ensures n <= |s| && n <= max
    ensures forall i :: 0 <= i < n ==> !IsSpace(s[i])
    ensures n < |s| && n < max ==> IsSpace(s[n])
  {
    if s == "" || max == 0 || IsSpace(s[0]) then 0 else 1 + WordLength(s[1..], max - 1)
  }

  /** One `%Ns` conversion: the word and what is left. The conversion fails if the word is
      empty, which happens only at the end of the input. */
  function ScanWord(s: string, max: nat): (r: (string, string))
    requires max > 0
    ensures |r.0| <= max && NoSpaces(r.0)
    ensures forall c :: c in r.0 || c in r.1 ==> c in s
    ensures r.0 == "" ==> r.1 == ""
  {
    var t := SkipSpaces(s);
    var n := WordLength(t, max);
    (t[..n], t[n..])
  }

  /** A word followed by a blank, or by the end, is scanned whole. */
  lemma ScansWord(blank: string, word: string, rest: string, max: nat)
    requires blank == "" || blank == " "
    requires word != "" && |word| <= max && NoSpaces(word)
    requires rest != "" ==> IsSpace(rest[0])
    ensures ScanWord(blank + word + rest, max) == (word, rest)
  {
    var t := word + rest;
    assert t[0] in word;
    if blank == " " {
      assert (blank + word + rest)[1..] == t;
    } else {
      assert blank + word + rest == t;
    }
    assert SkipSpaces(blank + word + rest) == t;
    assert forall i :: 0 <= i < |word| ==> t[i] == word[i];
    assert rest != "" ==> t[|word|] == rest[0];
    assert t[..|word|] == word && t[|word|..] == rest;
  }

  lemma ScansNothing(max: nat)
    requires max > 0
    ensures ScanWord("", max) == ("", "")
  {
  }
}
