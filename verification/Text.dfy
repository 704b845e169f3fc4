/** Strings as the HTTP code uses them: substring search, splitting and numerals. */
module Text {

  datatype Option<+T> = None | Some(value: T)

  const CRLF := "\r\n"

  /** `needle` occurs in `s` at index `i`. */
  predicate At(s: string, i: int, needle: string) {
    0 <= i && i + |needle| <= |s| && s[i..i + |needle|] == needle
  }

  lemma AtTail(s: string, needle: string)
    requires s != ""
    ensures forall j :: 0 < j ==> (At(s, j, needle) <==> At(s[1..], j - 1, needle))
  {
    forall j | 0 < j
      ensures At(s, j, needle) <==> At(s[1..], j - 1, needle)
    {
      if j + |needle| <= |s| {
        assert s[1..][j - 1..j - 1 + |needle|] == s[j..j + |needle|];
      }
    }
  }

  /** `std::string::find`, with -1 for `npos`: the first occurrence. */
  function Find(s: string, needle: string): (i: int)
    ensures -1 <= i
    ensures 0 <= i ==> At(s, i, needle)
    ensures forall j :: 0 <= j && (i < 0 || j < i) ==> !At(s, j, needle)
  {
    if At(s, 0, needle) then 0
    else if s == "" then -1
    else
      AtTail(s, needle);
      var r := Find(s[1..], needle);
      if r < 0 then -1 else r + 1
  }

  /** An occurrence that ends inside a prefix is an occurrence in that prefix, and conversely. */
  lemma AtPrefix(s: string, t: string, i: int, needle: string)
    requires 0 <= i && i + |needle| <= |s|
    ensures At(s + t, i, needle) <==> At(s, i, needle)
  {
    assert (s + t)[i..i + |needle|] == s[i..i + |needle|];
  }

  /** The first occurrence is the only index with an occurrence and none before it. */
  lemma FindUnique(s: string, needle: string, i: int)
    requires At(s, i, needle)
    requires forall j :: 0 <= j < i ==> !At(s, j, needle)
    ensures Find(s, needle) == i
  {
  }

  /** Appending never moves a match already found, and a new match ends in the appended part. */
  lemma FindExtends(s: string, t: string, needle: string)
    ensures Find(s, needle) >= 0 ==> Find(s + t, needle) == Find(s, needle)
    ensures Find(s, needle) < 0 && Find(s + t, needle) >= 0 ==> Find(s + t, needle) + |needle| > |s|
  {
    var i := Find(s, needle);
    forall j | 0 <= j && j + |needle| <= |s|
      ensures At(s + t, j, needle) <==> At(s, j, needle)
    {
      AtPrefix(s, t, j, needle);
    }
    if i >= 0 {
      FindUnique(s + t, needle, i);
    }
  }

  /** A line holds no CRLF of its own. */
  predicate Line(s: string) {
    Find(s, CRLF) < 0
  }

  lemma CrlfAt(s: string, i: int)
    ensures At(s, i, CRLF) <==> 0 <= i && i + 1 < |s| && s[i] == '\r' && s[i + 1] == '\n'
  {
    if 0 <= i && i + 1 < |s| {
      assert s[i..i + 2] == [s[i], s[i + 1]];
    }
  }

  const BLANK := "\r\n\r\n"

  /** A blank line is two CRLFs in a row. */
  lemma BlankAt(s: string, i: int)
    ensures At(s, i, BLANK) <==> At(s, i, CRLF) && At(s, i + 2, CRLF)
  {
    CrlfAt(s, i);
    CrlfAt(s, i + 2);
    if 0 <= i && i + 4 <= |s| {
      assert s[i..i + 4] == [s[i], s[i + 1], s[i + 2], s[i + 3]];
    }
  }

  /** A line followed by CRLF is exactly what the first CRLF delimits, whatever follows. */
  lemma LineEnds(line: string, rest: string)
    requires Line(line)
    ensures Find(line + CRLF + rest, CRLF) == |line|
  {
    var s := line + CRLF + rest;
    forall j | 0 <= j <= |line|
      ensures At(s, j, CRLF) <==> j == |line|
    {
      CrlfAt(s, j);
      CrlfAt(line, j);
    }
    FindUnique(s, CRLF, |line|);
  }

  /** Two lines joined by text without CR or LF, not empty, form one line. */
  lemma LineJoin(a: string, sep: string, b: string)
    requires Line(a) && Line(b)
    requires sep != "" && forall k :: 0 <= k < |sep| ==> sep[k] != '\r' && sep[k] != '\n'
    ensures Line(a + sep + b)
  {
    var s := a + sep + b;
    var i := Find(s, CRLF);
    CrlfAt(s, i);
    CrlfAt(a, i);
    CrlfAt(b, i - |a| - |sep|);
  }

  /** Every part of a line is a line. */
  lemma LineSlice(s: string, i: nat, j: nat)
    requires Line(s) && i <= j <= |s|
    ensures Line(s[i..j])
  {
    var k := Find(s[i..j], CRLF);
    CrlfAt(s[i..j], k);
    CrlfAt(s, i + k);
  }

  /** What precedes the first CRLF is a line. */
  lemma LineBefore(s: string)
    requires Find(s, CRLF) >= 0
    ensures Line(s[..Find(s, CRLF)])
  {
    var k := Find(s[..Find(s, CRLF)], CRLF);
    CrlfAt(s[..Find(s, CRLF)], k);
    CrlfAt(s, k);
  }

  /** A character that does not occur is not found. */
  lemma CharAbsent(s: string, c: char)
    requires c !in s
    ensures Find(s, [c]) < 0
  {
    forall i | 0 <= i
      ensures !At(s, i, [c])
    {
      if i < |s| {
        assert s[i] in s;
        assert s[i..i + 1] == [s[i]];
      }
    }
  }

  /** `split` on a one-character separator: always at least one token. */
  function Split(s: string, sep: char): (tokens: seq<string>)
    ensures tokens != []
  {
    var i := Find(s, [sep]);
    if i < 0 then [s] else [s[..i]] + Split(s[i + 1..], sep)
  }

  /** A text without separators is one token; the tokens of `a`, a separator and `rest` are `a` and
      those of `rest`. */
  lemma SplitFirst(a: string, sep: char, rest: string)
    requires sep !in a
    ensures Split(a, sep) == [a]
    ensures Split(a + [sep] + rest, sep) == [a] + Split(rest, sep)
  {
    CharAbsent(a, sep);
    var s := a + [sep] + rest;
    assert forall j :: 0 <= j < |a| ==> s[j] == a[j];
    FirstChar(s, sep, |a|);
    assert s[..|a|] == a && s[|a| + 1..] == rest;
  }

  /** A character is found where it stands first. */
  lemma FirstChar(s: string, c: char, i: nat)
    requires i < |s| && s[i] == c && forall j :: 0 <= j < i ==> s[j] != c
    ensures Find(s, [c]) == i
  {
    forall j | 0 <= j <= i
      ensures At(s, j, [c]) <==> j == i
    {
      assert s[j..j + 1] == [s[j]];
    }
    FindUnique(s, [c], i);
  }

  /** `token` is what follows the last separator in `s`. */
  predicate LastToken(s: string, sep: char, token: string) {
    && sep !in token && |token| <= |s| && s[|s| - |token|..] == token
    && (|token| == |s| || s[|s| - |token| - 1] == sep)
  }

  /** `token` is what precedes the first separator in `s`. */
  predicate FirstToken(s: string, sep: char, token: string) {
    && sep !in token && |token| <= |s| && s[..|token|] == token
    && (|token| == |s| || s[|token|] == sep)
  }

  lemma SplitBegins(s: string, sep: char, token: string)
    requires FirstToken(s, sep, token)
    ensures Split(s, sep)[0] == token
  {
    hide Split;
    if |token| < |s| {
      SplitFirst(token, sep, s[|token| + 1..]);
      assert s == token + [sep] + s[|token| + 1..];
    } else {
      assert s == token;
      SplitFirst(token, sep, "");
    }
  }

  lemma {:induction false} SplitEnds(s: string, sep: char, token: string)
    requires LastToken(s, sep, token)
    ensures Split(s, sep)[|Split(s, sep)| - 1] == token
    decreases |s|
  {
    hide Split;
    if |token| == |s| {
      assert s == token;
      SplitFirst(token, sep, "");
    } else {
      var k := |s| - |token| - 1;
      var i := FirstAt(s, sep, k);
      var rest := s[i + 1..];
      SplitFirst(s[..i], sep, rest);
      assert s == s[..i] + [sep] + rest;
      assert rest[|rest| - |token|..] == token;
      assert |token| < |rest| ==> rest[|rest| - |token| - 1] == s[k];
      SplitEnds(rest, sep, token);
    }
  }

  /** The first and the last token of `split` are those. */
  lemma {:induction false} SplitTokens(s: string, sep: char)
    ensures FirstToken(s, sep, Split(s, sep)[0])
    ensures LastToken(s, sep, Split(s, sep)[|Split(s, sep)| - 1])
    decreases |s|
  {
    hide Split, FirstToken, LastToken;
    if sep !in s {
      SplitFirst(s, sep, "");
      OnlyToken(s, sep);
    } else {
      var k :| 0 <= k < |s| && s[k] == sep;
      var i := FirstAt(s, sep, k);
      var rest := s[i + 1..];
      SplitFirst(s[..i], sep, rest);
      assert s == s[..i] + [sep] + rest;
      SplitTokens(rest, sep);
      assert FirstToken(s, sep, s[..i]) by { TokenBefore(s, sep, i); }
      LastTokenBehind(s, sep, i, Split(rest, sep)[|Split(rest, sep)| - 1]);
    }
  }

  lemma OnlyToken(s: string, sep: char)
    requires sep !in s
    ensures FirstToken(s, sep, s) && LastToken(s, sep, s)
  {
  }

  lemma TokenBefore(s: string, sep: char, i: nat)
    requires i < |s| && s[i] == sep && sep !in s[..i]
    ensures FirstToken(s, sep, s[..i])
  {
  }

  lemma LastTokenBehind(s: string, sep: char, i: nat, token: string)
    requires i < |s| && s[i] == sep && LastToken(s[i + 1..], sep, token)
    ensures LastToken(s, sep, token)
  {
    var rest := s[i + 1..];
    assert s[|s| - |token|..] == rest[|rest| - |token|..];
    if |token| < |rest| {
      assert rest[|rest| - |token| - 1] == s[|s| - |token| - 1];
    }
  }

  /** Where a character that occurs occurs first. */
  lemma {:induction false} FirstAt(s: string, c: char, k: nat) returns (i: nat)
    requires k < |s| && s[k] == c
    ensures i <= k && s[i] == c && c !in s[..i]
    decreases k
  {
    if c !in s[..k] {
      i := k;
    } else {
      var j :| 0 <= j < k && s[..k][j] == c;
      i := FirstAt(s, c, j);
    }
  }

  /** Drop leading spaces; the empty string if there is nothing else. */
  function StripSpaces(s: string): (r: string)
    ensures r == "" || r[0] != ' '
    ensures |r| <= |s| && r == s[|s| - |r|..]
    ensures forall k :: 0 <= k < |s| - |r| ==> s[k] == ' '
  {
    if s == "" || s[0] != ' ' then s else StripSpaces(s[1..])
  }

  function ToLower(c: char): char {
    if 'A' <= c <= 'Z' then (c as int + 32) as char else c
  }

  /** Case-insensitive comparison after dropping leading spaces. */
  predicate EquivalentStrings(a: string, b: string) {
    var x, y := StripSpaces(a), StripSpaces(b);
    |x| == |y| && forall k :: 0 <= k < |x| ==> ToLower(x[k]) == ToLower(y[k])
  }

  predicate IsSpace(c: char) {
    c == ' ' || '\t' <= c <= '\r'
  }

  /** Value of a digit in any base up to 36, or 36 for a character that is no digit. */
  function DigitValue(c: char): nat {
    if '0' <= c <= '9' then c as int - '0' as int
    else if 'a' <= c <= 'z' then 10 + (c as int - 'a' as int)
    else if 'A' <= c <= 'Z' then 10 + (c as int - 'A' as int)
    else 36
  }

  /** All of `s` as digits of `base`, most significant first. */
  function Digits(s: string, base: nat): Option<nat> {
    if s == "" then Some(0)
    else
      var d, rest := DigitValue(s[|s| - 1]), Digits(s[..|s| - 1], base);
      if d >= base || rest.None? then None else Some(rest.value * base + d)
  }

  /** Digits after the prefix that base 16 allows. */
  function Magnitude(u: string, base: nat): Option<nat> {
    var v := if base == 16 && |u| > 2 && (u[..2] == "0x" || u[..2] == "0X") then u[2..] else u;
    if v == "" then None else Digits(v, base)
  }

  /** `myatoi`: `strtol` over the whole string; None where it throws. */
  function Atoi(s: string, base: nat): Option<int> {
    if s == "" then None
    else if IsSpace(s[0]) then Atoi(s[1..], base)
    else
      match Magnitude(if s[0] == '-' || s[0] == '+' then s[1..] else s, base)
      case None => None
      case Some(n) =>
        var r := if s[0] == '-' then 0 - n else n;
        if -0x8000_0000_0000_0000 <= r < 0x8000_0000_0000_0000 then Some(r) else None
  }

  /** All pieces, one after the other. */
  function Concat(pieces: seq<string>): string {
    if pieces == [] then "" else pieces[0] + Concat(pieces[1..])
  }

  // ---------------------------------------------------------------- numerals

  /** A digit, and whether a letter is written in upper case. */
  datatype Digit = Digit(value: nat, upper: bool)

  /** One or more digits of a base up to 16. */
  predicate Numeral(ds: seq<Digit>, base: nat) {
    ds != [] && base <= 16 && forall k :: 0 <= k < |ds| ==> ds[k].value < base
  }

  function Power(base: nat, n: nat): nat {
    if n == 0 then 1 else base * Power(base, n - 1)
  }

  /** The number that the digits stand for: the sum of digit times base to the power of its place. */
  function Value(ds: seq<Digit>, base: nat): nat {
    if ds == [] then 0 else ds[0].value * Power(base, |ds| - 1) + Value(ds[1..], base)
  }

  function Written(d: Digit): char {
    if d.value < 10 then ('0' as int + d.value) as char
    else if d.value >= 36 then '?'
    else if d.upper then ('A' as int + d.value - 10) as char
    else ('a' as int + d.value - 10) as char
  }

  function Spell(ds: seq<Digit>): (s: string)
    ensures |s| == |ds| && forall k :: 0 <= k < |ds| ==> s[k] == Written(ds[k])
  {
    if ds == [] then "" else [Written(ds[0])] + Spell(ds[1..])
  }

  lemma WrittenReads(d: Digit)
    ensures d.value < 36 ==> DigitValue(Written(d)) == d.value
    ensures d.value < 16 ==> '0' <= Written(d) <= '9' || 'A' <= Written(d) <= 'F' || 'a' <= Written(d) <= 'f'
  {
  }

  /** A digit at the end multiplies what precedes it by the base. */
  lemma {:induction false} ValueSnoc(ds: seq<Digit>, d: Digit, base: nat)
    ensures Value(ds + [d], base) == Value(ds, base) * base + d.value
  {
    if ds == [] {
      assert Value([d][1..], base) == 0 && Power(base, 0) == 1;
    } else {
      ValueSnoc(ds[1..], d, base);
      assert (ds + [d])[1..] == ds[1..] + [d];
      PlaceUp(ds[0].value, Power(base, |ds| - 1), Value(ds[1..], base), base);
    }
  }

  lemma PlaceUp(v: nat, p: nat, rest: nat, base: nat)
    ensures v * (base * p) + rest * base == (v * p + rest) * base
  {
    assert v * (base * p) == (v * p) * base;
  }

  /** What the conversion makes of digits is the number they stand for. */
  lemma {:induction false} DigitsOfNumeral(ds: seq<Digit>, base: nat)
    requires base <= 16 && forall k :: 0 <= k < |ds| ==> ds[k].value < base
    ensures Digits(Spell(ds), base) == Some(Value(ds, base))
    decreases |ds|
  {
    hide Digits, Value, DigitValue, Written;
    if ds == [] {
      NoDigits(base);
    } else {
      var front, d := ds[..|ds| - 1], ds[|ds| - 1];
      DigitsOfNumeral(front, base);
      WrittenReads(d);
      DigitsSnoc(Spell(front), Written(d), base);
      assert Spell(ds) == Spell(front) + [Written(d)];
      assert front + [d] == ds;
      ValueSnoc(front, d, base);
    }
  }

  lemma NoDigits(base: nat)
    ensures Digits("", base) == Some(0) && Value([], base) == 0
  {
  }

  lemma DigitsSnoc(s: string, c: char, base: nat)
    ensures Digits(s + [c], base) ==
            if DigitValue(c) < base && Digits(s, base).Some? then Some(Digits(s, base).value * base + DigitValue(c))
            else None
  {
    hide DigitValue;
    assert (s + [c])[..|s|] == s;
  }

  /** A numeral does not look like a prefix, nor like a blank or a sign. */
  lemma NumeralPlain(ds: seq<Digit>, base: nat)
    requires Numeral(ds, base)
    ensures |ds| > 2 ==> Spell(ds)[..2] != "0x" && Spell(ds)[..2] != "0X"
    ensures !IsSpace(Spell(ds)[0]) && Spell(ds)[0] != '-' && Spell(ds)[0] != '+'
  {
    hide Written;
    WrittenReads(ds[0]);
    if |ds| > 2 {
      WrittenReads(ds[1]);
      assert Spell(ds)[..2][1] == Written(ds[1]);
    }
  }

  lemma NumeralMagnitude(ds: seq<Digit>, base: nat)
    requires Numeral(ds, base)
    ensures Magnitude(Spell(ds), base) == Some(Value(ds, base))
    ensures base == 16 ==>
              && Magnitude("0x" + Spell(ds), base) == Some(Value(ds, base))
              && Magnitude("0X" + Spell(ds), base) == Some(Value(ds, base))
  {
    hide Digits, Value, Spell;
    DigitsOfNumeral(ds, base);
    NumeralPlain(ds, base);
    var low, up := "0x" + Spell(ds), "0X" + Spell(ds);
    assert low[..2] == "0x" && low[2..] == Spell(ds) && up[..2] == "0X" && up[2..] == Spell(ds);
  }

  /** A numeral is converted to the number it stands for, if that fits in 63 bits. */
  lemma AtoiOfNumeral(ds: seq<Digit>, base: nat)
    requires Numeral(ds, base)
    ensures Atoi(Spell(ds), base) ==
            if Value(ds, base) < 0x8000_0000_0000_0000 then Some(Value(ds, base)) else None
  {
    hide Magnitude, Value, IsSpace;
    NumeralPlain(ds, base);
    NumeralMagnitude(ds, base);
  }

  /** The digit that a character is. */
  function Unwritten(c: char): Digit {
    Digit(DigitValue(c), 'A' <= c <= 'Z')
  }

  function Unspell(s: string): (ds: seq<Digit>)
    ensures |ds| == |s| && forall k :: 0 <= k < |s| ==> ds[k] == Unwritten(s[k])
  {
    if s == "" then [] else [Unwritten(s[0])] + Unspell(s[1..])
  }

  /** Only digits are converted. */
  lemma {:induction false} DigitsOnly(s: string, base: nat)
    requires base <= 16 && Digits(s, base).Some?
    ensures forall k :: 0 <= k < |s| ==> DigitValue(s[k]) < base
    ensures Spell(Unspell(s)) == s
    decreases |s|
  {
    hide DigitValue, Written;
    if s != "" {
      DigitsOnly(s[..|s| - 1], base);
      forall k | 0 <= k < |s|
        ensures DigitValue(s[k]) < base && Written(Unwritten(s[k])) == s[k]
      {
        if k < |s| - 1 {
          assert s[..|s| - 1][k] == s[k];
        }
        assert DigitValue(s[k]) < base;
        UnwrittenReads(s[k]);
      }
    }
  }

  lemma UnwrittenReads(c: char)
    requires DigitValue(c) < 16
    ensures Written(Unwritten(c)) == c
  {
  }

  /** A number as `strtol` takes it: blanks, a sign, a prefix in base 16, and a numeral. */
  datatype Number = Number(blanks: string, sign: string, prefix: string, digits: seq<Digit>)

  /** Without blanks and sign, without blanks, and all of it. */
  function Unsigned(n: Number): string {
    n.prefix + Spell(n.digits)
  }

  function Unblanked(n: Number): string {
    n.sign + Unsigned(n)
  }

  function Show(n: Number): string {
    n.blanks + Unblanked(n)
  }

  predicate Proper(n: Number, base: nat) {
    && (forall k :: 0 <= k < |n.blanks| ==> n.blanks[k] == ' ' || 9 <= n.blanks[k] as int <= 13)
    && (n.sign == "" || n.sign == "+" || n.sign == "-")
    && (n.prefix == "" || (base == 16 && (n.prefix == "0x" || n.prefix == "0X")))
    && Numeral(n.digits, base)
  }

  function Signed(n: Number, base: nat): int {
    var v: int := Value(n.digits, base);
    if n.sign == "-" then 0 - v else v
  }

  /** A text that begins with neither blank nor sign, with or without a sign before it. */
  lemma SignedReads(sign: string, u: string, base: nat)
    requires u != "" && !IsSpace(u[0]) && u[0] != '-' && u[0] != '+'
    requires sign == "" || sign == "+" || sign == "-"
    ensures Atoi(sign + u, base) ==
            match Magnitude(u, base)
            case None => None
            case Some(n) =>
              var r := if sign == "-" then 0 - n else n;
              if -0x8000_0000_0000_0000 <= r < 0x8000_0000_0000_0000 then Some(r) else None
  {
    hide Magnitude, IsSpace;
    var s := sign + u;
    if sign == "" {
      assert s == u;
    } else {
      assert s[0] == sign[0] && s[1..] == u && !IsSpace(s[0]) by { SignIsPlain(sign); }
    }
  }

  lemma SignIsPlain(sign: string)
    requires sign == "+" || sign == "-"
    ensures !IsSpace(sign[0])
  {
  }

  lemma UnsignedReads(n: Number, base: nat)
    requires Proper(n, base)
    ensures var u := Unsigned(n);
            && u != "" && !IsSpace(u[0]) && u[0] != '-' && u[0] != '+'
            && Magnitude(u, base) == Some(Value(n.digits, base))
  {
    hide Magnitude, Value, Spell;
    NumeralPlain(n.digits, base);
    NumeralMagnitude(n.digits, base);
    if n.prefix == "" {
      assert Unsigned(n) == Spell(n.digits);
    }
  }

  /** The number without its blanks. */
  lemma UnblankedReads(n: Number, base: nat)
    requires Proper(n, base) && n.blanks == ""
    ensures Atoi(Show(n), base) ==
            if -0x8000_0000_0000_0000 <= Signed(n, base) < 0x8000_0000_0000_0000 then Some(Signed(n, base)) else None
  {
    hide Magnitude, Value, Atoi, Unsigned, IsSpace;
    UnsignedReads(n, base);
    SignedReads(n.sign, Unsigned(n), base);
    assert "" + Unblanked(n) == Unblanked(n);
  }

  lemma ShowNonempty(n: Number, base: nat)
    requires Proper(n, base)
    ensures Show(n) != ""
  {
    hide Spell;
  }

  /** Every such number is converted to its value, if that fits in 64 bits with its sign. */
  lemma {:induction false} NumberReads(n: Number, base: nat)
    requires Proper(n, base)
    ensures Atoi(Show(n), base) ==
            if -0x8000_0000_0000_0000 <= Signed(n, base) < 0x8000_0000_0000_0000 then Some(Signed(n, base)) else None
    decreases |n.blanks|
  {
    hide Magnitude, Value, Unblanked;
    if n.blanks == "" {
      UnblankedReads(n, base);
    } else {
      var m := n.(blanks := n.blanks[1..]);
      assert Unblanked(m) == Unblanked(n) by { SameUnblanked(n, m); }
      assert Show(n)[0] == n.blanks[0] && Show(n)[1..] == Show(m);
      NumberReads(m, base);
    }
  }

  lemma SameUnblanked(n: Number, m: Number)
    requires m == n.(blanks := m.blanks)
    ensures Unblanked(m) == Unblanked(n)
  {
  }

  lemma OnlyMagnitudes(u: string, base: nat) returns (prefix: string, ds: seq<Digit>)
    requires base <= 16 && Magnitude(u, base).Some?
    ensures u == prefix + Spell(ds) && Numeral(ds, base)
    ensures prefix == "" || (base == 16 && (prefix == "0x" || prefix == "0X"))
  {
    hide Digits, Spell, Unspell, DigitValue;
    prefix := if base == 16 && |u| > 2 && (u[..2] == "0x" || u[..2] == "0X") then u[..2] else "";
    var v := u[|prefix|..];
    assert u == prefix + v;
    DigitsOnly(v, base);
    ds := Unspell(v);
    assert forall k :: 0 <= k < |ds| ==> ds[k].value == DigitValue(v[k]);
  }

  lemma OnlyUnblanked(s: string, base: nat) returns (n: Number)
    requires base <= 16 && Atoi(s, base).Some? && !IsSpace(s[0])
    ensures Proper(n, base) && Show(n) == s && n.blanks == ""
  {
    hide Magnitude, Spell, IsSpace, Numeral;
    var sign := if s[0] == '-' || s[0] == '+' then [s[0]] else "";
    var u := if s[0] == '-' || s[0] == '+' then s[1..] else s;
    var prefix, ds := OnlyMagnitudes(u, base);
    n := Number("", sign, prefix, ds);
    ShowAll(n);
    SignThenRest(s, sign, u);
  }

  lemma ShowAll(n: Number)
    requires n.blanks == ""
    ensures Show(n) == n.sign + (n.prefix + Spell(n.digits))
  {
    hide Unsigned;
    assert "" + Unblanked(n) == Unblanked(n);
    assert Unsigned(n) == n.prefix + Spell(n.digits) by { UnsignedParts(n); }
  }

  lemma UnsignedParts(n: Number)
    ensures Unsigned(n) == n.prefix + Spell(n.digits)
  {
    hide Spell;
  }

  lemma SignThenRest(s: string, sign: string, u: string)
    requires (s == u && sign == "") || (s != "" && u == s[1..] && sign == [s[0]])
    ensures sign + u == s
  {
  }

  lemma ShowBlank(c: char, n: Number)
    ensures Show(n.(blanks := [c] + n.blanks)) == [c] + Show(n)
  {
    hide Unblanked;
    SameUnblanked(n, n.(blanks := [c] + n.blanks));
  }

  /** And nothing else is converted: whatever is accepted is such a number. */
  lemma {:induction false} OnlyNumbersRead(s: string, base: nat) returns (n: Number)
    requires base <= 16 && Atoi(s, base).Some?
    ensures Proper(n, base) && Show(n) == s
  {
    hide Magnitude, Show, Numeral;
    if IsSpace(s[0]) {
      var m := OnlyNumbersRead(s[1..], base);
      n := m.(blanks := [s[0]] + m.blanks);
      ShowBlank(s[0], m);
      assert s == [s[0]] + s[1..];
    } else {
      n := OnlyUnblanked(s, base);
    }
  }

  /** Decimal digits of a number, without leading zeros. */
  function Decimal(n: nat): (ds: seq<Digit>)
    ensures Numeral(ds, 10)
  {
    if n < 10 then [Digit(n, false)] else Decimal(n / 10) + [Digit(n % 10, false)]
  }

  lemma {:induction false} DecimalValue(n: nat)
    ensures Value(Decimal(n), 10) == n
  {
    hide Power;
    if n < 10 {
      ValueSnoc([], Digit(n, false), 10);
      assert [] + [Digit(n, false)] == [Digit(n, false)];
    } else {
      DecimalValue(n / 10);
      ValueSnoc(Decimal(n / 10), Digit(n % 10, false), 10);
    }
  }

  /** Decimal notation is read back. */
  lemma DecimalRoundTrip(n: nat)
    requires n < 0x8000_0000_0000_0000
    ensures Atoi(Spell(Decimal(n)), 10) == Some(n)
  {
    DecimalValue(n);
    AtoiOfNumeral(Decimal(n), 10);
  }
}
