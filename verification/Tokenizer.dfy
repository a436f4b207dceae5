/** The pattern matchers of src/polycall_tokenizer.c against grammars that know nothing of
    scanning. Inputs are C strings; reading at the end gives the terminating zero. */
module Tokenizer {
  import opened Options
  import opened ConfigText

  type Input = s: string | '\0' !in s

  function At(s: string, i: nat): (c: char) {
    if i < |s| then s[i] else '\0'
  }

  predicate IsSign(c: char) {
    c == '+' || c == '-'
  }

  predicate IsExponentMark(c: char) {
    c == 'e' || c == 'E'
  }

  // ----- The grammar of numbers: sign? digits ("." digits)? (e sign? digits)?

  predicate Digits(x: string) {
    x != "" && AllDigits(x)
  }

  predicate Sign(x: string) {
    x == "" || x == "+" || x == "-"
  }

  predicate Fraction(x: string) {
    x == "" || (x[0] == '.' && Digits(x[1..]))
  }

  predicate Exponent(x: string) {
    x == "" || (IsExponentMark(x[0])
                && (Digits(x[1..]) || (|x| > 1 && IsSign(x[1]) && Digits(x[2..]))))
  }

  predicate DecimalParts(t: string, a: nat, b: nat) {
    a <= b <= |t| && Sign(t[..a]) && Digits(t[a..b]) && Fraction(t[b..])
  }

  ghost predicate IsInteger(t: string) {
    exists a: nat :: a <= |t| && Sign(t[..a]) && Digits(t[a..])
  }

  ghost predicate IsDecimal(t: string) {
    exists a: nat, b: nat :: DecimalParts(t, a, b)
  }

  predicate NumberParts(t: string, a: nat, b: nat, c: nat) {
    c <= |t| && DecimalParts(t[..c], a, b) && Exponent(t[c..])
  }

  ghost predicate IsNumber(t: string) {
    exists a: nat, b: nat, c: nat :: NumberParts(t, a, b, c)
  }

  /** An integer followed by a point without a digit. */
  ghost predicate DanglingPoint(s: string) {
    exists m: nat :: m < |s| && IsInteger(s[..m]) && s[m] == '.' && !IsDigit(At(s, m + 1))
  }

  predicate NoExponentDigits(s: string, m: nat) {
    !IsDigit(At(s, if IsSign(At(s, m + 1)) then m + 2 else m + 1))
  }

  /** A decimal followed by an exponent mark without digits. */
  ghost predicate DanglingExponent(s: string) {
    exists m: nat :: m < |s| && IsDecimal(s[..m]) && IsExponentMark(s[m]) && NoExponentDigits(s, m)
  }

  /** The grammar put together from texts. */
  predicate Written(t: string, sign: string, whole: string, point: string, part: string, mark: string,
                    expSign: string, exponent: string) {
    && t == sign + whole + (point + part) + (mark + expSign + exponent)
    && (sign == "" || sign == "+" || sign == "-")
    && whole != "" && AllDigits(whole)
    && (if point == "" then part == "" else point == "." && part != "" && AllDigits(part))
    && (if mark == "" then expSign == "" && exponent == ""
        else && (mark == "e" || mark == "E") && (expSign == "" || expSign == "+" || expSign == "-")
             && exponent != "" && AllDigits(exponent))
  }

  lemma WrittenIsNumber(t: string, sign: string, whole: string, point: string, part: string, mark: string,
                        expSign: string, exponent: string)
    requires Written(t, sign, whole, point, part, mark, expSign, exponent)
    ensures IsNumber(t)
  {
    var f, x := point + part, mark + expSign + exponent;
    var a := |sign|;
    var b := a + |whole|;
    var c := b + |f|;
    var u := t[..c];
    assert u == sign + whole + f && t[c..] == x;
    assert u[..a] == sign && u[a..b] == whole && u[b..] == f;
    if point != "" { assert f[1..] == part; }
    ExponentIs(mark, expSign, exponent);
    assert NumberParts(t, a, b, c);
  }

  lemma ExponentIs(mark: string, expSign: string, exponent: string)
    requires if mark == "" then expSign == "" && exponent == ""
             else && (mark == "e" || mark == "E") && (expSign == "" || expSign == "+" || expSign == "-")
                  && exponent != "" && AllDigits(exponent)
    ensures Exponent(mark + expSign + exponent)
  {
    var x := mark + expSign + exponent;
    if mark != "" {
      if expSign == "" {
        assert x[1..] == exponent;
      } else {
        assert x[1] == expSign[0] && x[2..] == exponent;
      }
    }
  }

  lemma ExponentParts(x: string) returns (mark: string, expSign: string, exponent: string)
    requires Exponent(x)
    ensures x == mark + expSign + exponent
    ensures if mark == "" then expSign == "" && exponent == ""
            else && (mark == "e" || mark == "E") && (expSign == "" || expSign == "+" || expSign == "-")
                 && exponent != "" && AllDigits(exponent)
  {
    if x == "" {
      mark, expSign, exponent := "", "", "";
    } else if Digits(x[1..]) {
      mark, expSign, exponent := [x[0]], "", x[1..];
    } else {
      mark, expSign, exponent := [x[0]], [x[1]], x[2..];
    }
  }

  /** A number is a sign or none, digits, a point and digits or neither, and an exponent mark,
      a sign or none and digits or none of these. */
  lemma NumberExactly(t: string)
    ensures IsNumber(t) <==>
              exists sign, whole, point, part, mark, expSign, exponent ::
                Written(t, sign, whole, point, part, mark, expSign, exponent)
  {
    hide Written, IsNumber;
    if IsNumber(t) {
      var sign, whole, point, part, mark, expSign, exponent := NumberIsWritten(t);
    }
    if sign, whole, point, part, mark, expSign, exponent :|
      Written(t, sign, whole, point, part, mark, expSign, exponent) {
      WrittenIsNumber(t, sign, whole, point, part, mark, expSign, exponent);
    }
  }

  lemma NumberIsWritten(t: string)
    returns (sign: string, whole: string, point: string, part: string, mark: string, expSign: string,
             exponent: string)
    requires IsNumber(t)
    ensures Written(t, sign, whole, point, part, mark, expSign, exponent)
  {
    var a: nat, b: nat, c: nat :| NumberParts(t, a, b, c);
    var u := t[..c];
    var f := u[b..];
    sign, whole := u[..a], u[a..b];
    mark, expSign, exponent := ExponentParts(t[c..]);
    point, part := if f == "" then "" else ".", if f == "" then "" else f[1..];
    PartsJoined(t, a, b, c);
    assert f == point + part;
  }

  lemma PartsJoined(t: string, a: nat, b: nat, c: nat)
    requires a <= b <= c <= |t|
    ensures t == t[..c][..a] + t[..c][a..b] + t[..c][b..] + t[c..]
  {
  }

  // ----- What the scanner does

  /** The end of the run of digits that starts at `i`. */
  function DigitsEnd(s: string, i: nat): (e: nat)
    requires i <= |s|
    ensures i <= e <= |s|
    ensures forall k :: i <= k < e ==> IsDigit(s[k])
    ensures e < |s| ==> !IsDigit(s[e])
    decreases |s| - i
  {
    if i < |s| && IsDigit(s[i]) then DigitsEnd(s, i + 1) else i
  }

  function SignEnd(s: string): (a: nat)
    ensures a <= |s| && a <= 1
  {
    if IsSign(At(s, 0)) then 1 else 0
  }

  function FractionEnd(s: string, b: nat): (r: Option<nat>)
    requires b <= |s|
    ensures r.Some? ==> b <= r.value <= |s|
  {
    if At(s, b) != '.' then Some(b)
    else if !IsDigit(At(s, b + 1)) then None
    else Some(DigitsEnd(s, b + 1))
  }

  function ExponentEnd(s: string, c: nat): (r: Option<nat>)
    requires c <= |s|
    ensures r.Some? ==> c <= r.value <= |s|
  {
    if !IsExponentMark(At(s, c)) then Some(c)
    else if NoExponentDigits(s, c) then None
    else Some(DigitsEnd(s, if IsSign(At(s, c + 1)) then c + 2 else c + 1))
  }

  function MatchedNumber(s: string): (r: Option<nat>)
    ensures r.Some? ==> r.value <= |s|
  {
    var a := SignEnd(s);
    if !IsDigit(At(s, a)) then None
    else
      var c :- FractionEnd(s, DigitsEnd(s, a));
      ExponentEnd(s, c)
  }

  method SkipDigits(s: Input, from: nat) returns (pos: nat)
    requires from <= |s|
    ensures pos == DigitsEnd(s, from)
  {
    pos := from;
    while IsDigit(At(s, pos))
      invariant from <= pos <= |s|
      invariant DigitsEnd(s, pos) == DigitsEnd(s, from)
      decreases |s| - pos
    {
      pos := pos + 1;
    }
  }

  /** polycall_tokenizer_match_number. */
  method MatchNumber(s: Input) returns (ok: bool, length: nat)
    ensures ok == MatchedNumber(s).Some?
    ensures ok ==> length == MatchedNumber(s).value
  {
    hide DigitsEnd, IsSign, IsExponentMark, ExponentEnd, MatchedNumber;
    EndIsNoMark();
    ok, length := false, 0;
    var pos := 0;
    if IsSign(At(s, pos)) {
      pos := pos + 1;
    }
    assert pos == SignEnd(s);
    MatchedStages(s);
    if !IsDigit(At(s, pos)) {
      return;
    }
    pos := SkipDigits(s, pos);
    ghost var whole := pos;
    if At(s, pos) == '.' {
      pos := pos + 1;
      if !IsDigit(At(s, pos)) {
        return;
      }
      pos := SkipDigits(s, pos);
    }
    assert FractionEnd(s, whole) == Some(pos);
    hide FractionEnd, SignEnd;
    ExponentStages(s, pos);
    if IsExponentMark(At(s, pos)) && pos > 0 {
      var expPos := pos + 1;
      if IsSign(At(s, expPos)) {
        expPos := expPos + 1;
      }
      if !IsDigit(At(s, expPos)) {
        return;
      }
      pos := SkipDigits(s, expPos);
    }
    return true, pos;
  }

  lemma MatchedStages(s: string)
    ensures var a := SignEnd(s);
            if !IsDigit(At(s, a)) then MatchedNumber(s) == None
            else
              match FractionEnd(s, DigitsEnd(s, a))
              case None => MatchedNumber(s) == None
              case Some(c) => MatchedNumber(s) == ExponentEnd(s, c)
  {
  }

  lemma ExponentStages(s: string, c: nat)
    requires c <= |s|
    ensures var e := if IsSign(At(s, c + 1)) then c + 2 else c + 1;
            if !IsExponentMark(At(s, c)) then ExponentEnd(s, c) == Some(c)
            else if !IsDigit(At(s, e)) then ExponentEnd(s, c) == None
            else e < |s| && ExponentEnd(s, c) == Some(DigitsEnd(s, e))
  {
  }

  lemma EndIsNoMark()
    ensures !IsSign('\0') && !IsExponentMark('\0')
  {
  }

  // ----- A match is a number

  lemma DigitRun(s: string, i: nat)
    requires i < |s| && IsDigit(s[i])
    ensures i < DigitsEnd(s, i) && Digits(s[i..DigitsEnd(s, i)])
  {
  }

  lemma SignPart(s: string)
    ensures Sign(s[..SignEnd(s)])
  {
    assert SignEnd(s) == 1 ==> s[..1] == [s[0]];
  }

  lemma IntegerMatch(s: string)
    requires IsDigit(At(s, SignEnd(s)))
    ensures IsInteger(s[..DigitsEnd(s, SignEnd(s))])
  {
    var a := SignEnd(s);
    var b := DigitsEnd(s, a);
    SignPart(s);
    DigitRun(s, a);
    assert s[..b][..a] == s[..a] && s[..b][a..] == s[a..b];
  }

  lemma Slices(s: string, a: nat, b: nat, c: nat)
    requires a <= b <= c <= |s|
    ensures s[..c][..a] == s[..a] && s[..c][a..b] == s[a..b] && s[..c][b..] == s[b..c]
  {
  }

  lemma DecimalMatch(s: string, c: nat)
    requires IsDigit(At(s, SignEnd(s))) && FractionEnd(s, DigitsEnd(s, SignEnd(s))) == Some(c)
    ensures DecimalParts(s[..c], SignEnd(s), DigitsEnd(s, SignEnd(s)))
  {
    var a := SignEnd(s);
    var b := DigitsEnd(s, a);
    hide DigitsEnd;
    SignPart(s);
    DigitRun(s, a);
    Slices(s, a, b, c);
    if At(s, b) == '.' {
      DigitRun(s, b + 1);
      assert s[b..c][1..] == s[b + 1..c];
    }
  }

  lemma ExponentMatch(s: string, c: nat, e: nat)
    requires c <= |s| && ExponentEnd(s, c) == Some(e)
    ensures Exponent(s[c..e])
  {
    if IsExponentMark(At(s, c)) {
      var x := if IsSign(At(s, c + 1)) then c + 2 else c + 1;
      DigitRun(s, x);
      assert s[c..e][x - c..] == s[x..e];
    }
  }

  lemma MatchIsNumber(s: string)
    requires MatchedNumber(s).Some?
    ensures IsNumber(s[..MatchedNumber(s).value])
  {
    var a := SignEnd(s);
    var b := DigitsEnd(s, a);
    var c := FractionEnd(s, b).value;
    var e := MatchedNumber(s).value;
    DecimalMatch(s, c);
    ExponentMatch(s, c, e);
    assert s[..e][..c] == s[..c] && s[..e][c..] == s[c..e];
    assert NumberParts(s[..e], a, b, c);
  }

  // ----- No longer prefix is a number

  lemma SameSign(s: string, m: nat, a: nat)
    requires a < m <= |s| && Sign(s[..a]) && IsDigit(s[a])
    ensures a == SignEnd(s)
  {
    if a == 1 { assert s[..1][0] == s[0]; }
  }

  /** A stretch of digits ends no later than the run it starts in, and earlier only if it
      stops before a digit. */
  lemma RunBound(s: string, i: nat, j: nat)
    requires i <= j <= |s| && AllDigits(s[i..j])
    ensures j <= DigitsEnd(s, i)
    ensures j < |s| && !IsDigit(s[j]) ==> j == DigitsEnd(s, i)
  {
    assert forall k :: i <= k < j ==> s[i..j][k - i] == s[k];
  }

  /** A number that is a prefix of `s` splits where the scanner would split it, as far as it
      reaches. */
  lemma DecimalPrefix(s: string, c: nat, a: nat, b: nat)
    requires c <= |s| && DecimalParts(s[..c], a, b)
    ensures a == SignEnd(s) && a < b && IsDigit(At(s, a)) && b <= DigitsEnd(s, a)
    ensures b < c ==> b == DigitsEnd(s, a) && At(s, b) == '.' && IsDigit(At(s, b + 1)) && c <= DigitsEnd(s, b + 1)
  {
    var t := s[..c];
    Slices(s, a, b, c);
    assert s[a..b][0] == s[a];
    SameSign(s, c, a);
    RunBound(s, a, b);
    if b < c {
      assert s[b..c][0] == s[b] && s[b..c][1..] == s[b + 1..c];
      assert s[b + 1..c][0] == s[b + 1];
      RunBound(s, b + 1, c);
    }
  }

  lemma ExponentPrefix(s: string, c: nat, m: nat)
    requires c < m <= |s| && Exponent(s[c..m])
    ensures IsExponentMark(At(s, c)) && !NoExponentDigits(s, c)
    ensures m <= DigitsEnd(s, if IsSign(At(s, c + 1)) then c + 2 else c + 1)
  {
    var x := s[c..m];
    assert x[0] == s[c];
    if Digits(x[1..]) {
      assert x[1..] == s[c + 1..m] && x[1..][0] == s[c + 1] && x[1..][0] in x[1..];
      RunBound(s, c + 1, m);
    } else {
      assert x[1] == s[c + 1];
      assert x[2..] == s[c + 2..m] && x[2..][0] == s[c + 2] && x[2..][0] in x[2..];
      RunBound(s, c + 2, m);
    }
  }

  /** A decimal prefix that is followed by an exponent mark is what the scanner has read when
      it looks for the mark. */
  lemma DecimalBeforeMark(s: string, c: nat, a: nat, b: nat)
    requires c < |s| && DecimalParts(s[..c], a, b) && IsExponentMark(s[c])
    ensures a == SignEnd(s) && IsDigit(At(s, a)) && FractionEnd(s, DigitsEnd(s, a)) == Some(c)
  {
    DecimalPrefix(s, c, a, b);
    hide DigitsEnd;
    if b == c {
      assert s[..c][a..b] == s[a..b];
      RunBound(s, a, b);
    } else {
      assert s[..c][b..][1..] == s[b + 1..c];
      RunBound(s, b + 1, c);
    }
  }

  /** If the scanner succeeds, no longer prefix is a number. */
  lemma MatchIsLongest(s: string, m: nat)
    requires MatchedNumber(s).Some? && m <= |s| && IsNumber(s[..m])
    ensures m <= MatchedNumber(s).value
  {
    hide DigitsEnd, SignEnd, DecimalParts, Exponent;
    var a: nat, b: nat, c: nat :| NumberParts(s[..m], a, b, c);
    assert s[..m][..c] == s[..c] && s[..m][c..] == s[c..m];
    if c < m {
      ExponentPrefix(s, c, m);
      DecimalBeforeMark(s, c, a, b);
    } else {
      DecimalPrefix(s, c, a, b);
    }
  }

  // ----- When the scanner fails

  lemma NoNumberExactly(s: string)
    ensures IsDigit(At(s, SignEnd(s))) <==> exists m: nat :: m <= |s| && IsNumber(s[..m])
  {
    if IsDigit(At(s, SignEnd(s))) {
      var a := SignEnd(s);
      var b := DigitsEnd(s, a);
      SignPart(s);
      DigitRun(s, a);
      var t := s[..b];
      assert t[..b] == t && t[..a] == s[..a] && t[a..b] == s[a..b];
      assert NumberParts(t, a, b, b);
      assert IsNumber(s[..b]);
    }
    if m: nat :| m <= |s| && IsNumber(s[..m]) {
      var a: nat, b: nat, c: nat :| NumberParts(s[..m], a, b, c);
      assert s[..m][..c] == s[..c];
      DecimalPrefix(s, c, a, b);
    }
  }

  lemma DanglingPointExactly(s: string)
    ensures DanglingPoint(s)
       <==> IsDigit(At(s, SignEnd(s))) && FractionEnd(s, DigitsEnd(s, SignEnd(s))).None?
  {
    if IsDigit(At(s, SignEnd(s))) && FractionEnd(s, DigitsEnd(s, SignEnd(s))).None? {
      IntegerMatch(s);
    }
    if m: nat :| m < |s| && IsInteger(s[..m]) && s[m] == '.' && !IsDigit(At(s, m + 1)) {
      var t := s[..m];
      var a: nat :| a <= |t| && Sign(t[..a]) && Digits(t[a..]);
      assert t[..a] == s[..a] && t[a..] == s[a..m] && s[a..m][0] == s[a] && s[a..m][0] in s[a..m];
      SameSign(s, m, a);
      RunBound(s, a, m);
    }
  }

  lemma DanglingExponentFails(s: string)
    requires DanglingExponent(s)
    ensures MatchedNumber(s).None?
  {
    var m: nat :| m < |s| && IsDecimal(s[..m]) && IsExponentMark(s[m]) && NoExponentDigits(s, m);
    var a: nat, b: nat :| DecimalParts(s[..m], a, b);
    DecimalBeforeMark(s, m, a, b);
  }

  /** The scanner fails exactly when no prefix is a number, or a point or an exponent mark
      dangles. */
  lemma FailsExactly(s: string)
    ensures MatchedNumber(s).None?
       <==> !(exists m: nat :: m <= |s| && IsNumber(s[..m])) || DanglingPoint(s) || DanglingExponent(s)
  {
    NoNumberExactly(s);
    DanglingPointExactly(s);
    if DanglingExponent(s) {
      DanglingExponentFails(s);
    }
    var a := SignEnd(s);
    var r := FractionEnd(s, DigitsEnd(s, a));
    if IsDigit(At(s, a)) && r.Some? && ExponentEnd(s, r.value).None? {
      DecimalMatch(s, r.value);
      assert IsDecimal(s[..r.value]);
    }
  }

  // ----- Strings

  /** How many backslashes stand directly before position `i`. */
  function Backslashes(s: string, i: nat): (n: nat)
    requires i <= |s|
  {
    if i == 0 || s[i - 1] != '\\' then 0 else 1 + Backslashes(s, i - 1)
  }

  /** An unescaped quote: an even number of backslashes before it. */
  predicate Closes(s: string, i: nat) {
    1 <= i < |s| && s[i] == '"' && Backslashes(s, i) % 2 == 0
  }

  /** polycall_tokenizer_match_string ends at the first unescaped quote and fails exactly if
      there is none. */
  method MatchString(s: Input) returns (ok: bool, length: nat)
    ensures ok <==> At(s, 0) == '"' && exists i: nat :: Closes(s, i)
    ensures ok ==> length >= 2 && Closes(s, length - 1)
    ensures ok ==> forall j: nat :: j < length - 1 ==> !Closes(s, j)
  {
    ok, length := false, 0;
    if At(s, 0) != '"' {
      return;
    }
    var pos := 1;
    var escaped := false;
    while At(s, pos) != '\0' && (escaped || At(s, pos) != '"')
      invariant 1 <= pos <= |s|
      invariant escaped <==> Backslashes(s, pos) % 2 == 1
      invariant forall j: nat :: j < pos ==> !Closes(s, j)
      decreases |s| - pos
    {
      assert s[pos] == '\\' ==> Backslashes(s, pos + 1) == 1 + Backslashes(s, pos);
      assert s[pos] != '\\' ==> Backslashes(s, pos + 1) == 0;
      if escaped {
        escaped := false;
      } else if At(s, pos) == '\\' {
        escaped := true;
      }
      pos := pos + 1;
    }
    assert pos < |s| ==> s[pos] in s;
    if At(s, pos) == '"' {
      assert Closes(s, pos);
      return true, pos + 1;
    }
  }

  // ----- Operators and identifiers

  function Operators(): (ops: seq<string>)
    ensures |ops| == 23
    ensures forall i :: 0 <= i < 23 ==> |ops[i]| == if i < 12 then 2 else 1
  {
    ["++", "--", "+=", "-=", "*=", "/=", "==", "!=", ">=", "<=", "&&", "||",
     "+", "-", "*", "/", "%", "=", "<", ">", "!", "&", "|"]
  }

  /** The operators: one of eleven characters; one of eight before an equals sign; one of four
      twice. */
  lemma OperatorsExactly(op: string)
    ensures op in Operators() <==>
              || (|op| == 1 && op[0] in "+-*/%=<>!&|")
              || (|op| == 2 && op[1] == '=' && op[0] in "+-*/=!<>")
              || (|op| == 2 && op[0] == op[1] && op[0] in "+-&|")
  {
    if |op| == 1 {
      assert op == [op[0]];
    } else if |op| == 2 {
      assert op == [op[0], op[1]];
    }
  }

  /** polycall_tokenizer_match_operator: trying the table in order finds the longest
      operator at the start of the input. */
  method MatchOperator(s: Input) returns (ok: bool, length: nat)
    ensures ok <==> exists i :: 0 <= i < |Operators()| && Operators()[i] <= s
    ensures ok ==> length <= |s| && s[..length] in Operators()
    ensures ok ==> forall i :: 0 <= i < |Operators()| && Operators()[i] <= s ==> |Operators()[i]| <= length
  {
    ok, length := false, 0;
    var ops := Operators();
    for k := 0 to |ops|
      invariant forall i :: 0 <= i < k ==> !(ops[i] <= s)
    {
      if ops[k] <= s {
        assert s[..|ops[k]|] == ops[k];
        return true, |ops[k]|;
      }
    }
  }

  predicate IdentifierStart(c: char) {
    'a' <= c <= 'z' || 'A' <= c <= 'Z' || c == '_'
  }

  predicate IdentifierPart(c: char) {
    IdentifierStart(c) || IsDigit(c)
  }

  predicate IsIdentifier(t: string) {
    t != "" && IdentifierStart(t[0]) && forall c :: c in t ==> IdentifierPart(c)
  }

  /** Letters, digits and underscores, by their codes, the first not a digit. */
  lemma IdentifierExactly(t: string)
    ensures IsIdentifier(t) <==>
              && t != ""
              && forall i :: 0 <= i < |t| ==>
                   var c := t[i] as int;
                   65 <= c <= 90 || 97 <= c <= 122 || c == 95 || (i > 0 && 48 <= c <= 57)
  {
    forall i | 0 <= i < |t|
      ensures var c := t[i] as int;
              IdentifierPart(t[i]) <==> 65 <= c <= 90 || 97 <= c <= 122 || c == 95 || 48 <= c <= 57
    {
    }
    assert forall i :: 0 <= i < |t| ==> t[i] in t;
    assert (forall c :: c in t ==> IdentifierPart(c)) <==> (forall i :: 0 <= i < |t| ==> IdentifierPart(t[i]));
  }

  method MatchIdentifier(s: Input) returns (ok: bool, length: nat)
    ensures ok <==> exists m: nat :: m <= |s| && IsIdentifier(s[..m])
    ensures ok ==> length <= |s| && IsIdentifier(s[..length])
    ensures ok ==> forall m: nat :: m <= |s| && IsIdentifier(s[..m]) ==> m <= length
  {
    ok, length := false, 0;
    if !IdentifierStart(At(s, 0)) {
      assert forall m: nat :: m <= |s| && s[..m] != "" ==> s[..m][0] == s[0];
      return;
    }
    var pos := 1;
    while IdentifierPart(At(s, pos))
      invariant 1 <= pos <= |s|
      invariant forall c :: c in s[..pos] ==> IdentifierPart(c)
      decreases |s| - pos
    {
      assert s[..pos + 1] == s[..pos] + [s[pos]];
      pos := pos + 1;
    }
    assert IsIdentifier(s[..pos]);
    assert forall m: nat :: pos < m <= |s| ==> s[..m][pos] == s[pos];
    return true, pos;
  }

  // ----- Choosing among patterns

  /** The first pattern that matches, and its length. */
  function FirstMatch(patterns: seq<string -> Option<nat>>, s: string): (r: Option<(nat, nat)>) {
    if patterns == [] then None
    else
      match patterns[0](s)
      case Some(n) => Some((0, n))
      case None =>
        match FirstMatch(patterns[1..], s)
        case Some((i, n)) => Some((i + 1, n))
        case None => None
  }

  /** Composing two pattern lists tries the second only where the first finds nothing. */
  lemma {:induction false} ComposedPatterns(p: seq<string -> Option<nat>>, q: seq<string -> Option<nat>>, s: string)
    ensures FirstMatch(p + q, s)
         == match FirstMatch(p, s)
            case Some(m) => Some(m)
            case None =>
              match FirstMatch(q, s)
              case Some((i, n)) => Some((|p| + i, n))
              case None => None
    decreases |p|
  {
    if p == [] {
      assert p + q == q;
    } else {
      assert (p + q)[1..] == p[1..] + q;
      ComposedPatterns(p[1..], q, s);
    }
  }
}
