/** Numbers and lines as text: what fscanf("%d"), strconv.Itoa, strconv.Atoi and strings.Split do. */
module Text {
  import opened NodeState

  predicate IsDigit(c: char) {
    '0' <= c <= '9'
  }

  predicate IsSpace(c: char) {
    c == ' ' || c == '\t' || c == '\n' || c == '\r' || c as int == 11 || c as int == 12
  }

  function DigitOf(c: char): (d: nat)
    requires IsDigit(c)
    ensures d < 10
  {
    c as int - '0' as int
  }

  function CharOf(d: nat): (c: char)
    requires d < 10
    ensures IsDigit(c) && DigitOf(c) == d
  {
    (d + '0' as int) as char
  }

  predicate AllDigits(s: string) {
    forall i :: 0 <= i < |s| ==> IsDigit(s[i])
  }

  /** strconv.Itoa for numbers that are not negative. */
  function Itoa(n: nat): (s: string)
    ensures s != [] && AllDigits(s)
  {
    if n < 10 then [CharOf(n)] else Itoa(n / 10) + [CharOf(n % 10)]
  }

  /** The number that a string of digits denotes when it is read behind `acc`. */
  function Value(s: string, acc: nat): nat
    requires AllDigits(s)
  {
    if s == [] then acc else Value(s[1..], 10 * acc + DigitOf(s[0]))
  }

  lemma {:induction false} ValueOfLast(s: string, c: char, acc: nat)
    requires AllDigits(s) && IsDigit(c)
    ensures AllDigits(s + [c]) && Value(s + [c], acc) == 10 * Value(s, acc) + DigitOf(c)
  {
    if s == [] {
      assert s + [c] == [c] && [c][1..] == [];
    } else {
      assert (s + [c])[1..] == s[1..] + [c];
      ValueOfLast(s[1..], c, 10 * acc + DigitOf(s[0]));
    }
  }

  lemma {:induction false} ItoaValue(n: nat)
    ensures Value(Itoa(n), 0) == n
  {
    if n < 10 {
      ValueOfLast([], CharOf(n), 0);
      assert [] + [CharOf(n)] == [CharOf(n)];
    } else {
      ItoaValue(n / 10);
      ValueOfLast(Itoa(n / 10), CharOf(n % 10), 0);
    }
  }

  // ---------------------------------------------------------------------------------------------
  // fscanf
  // ---------------------------------------------------------------------------------------------

  // A number and the input behind it.
  datatype Scan = Scan(value: int, rest: string)

  function SkipSpace(t: string): string {
    if t != [] && IsSpace(t[0]) then SkipSpace(t[1..]) else t
  }

  function ScanDigits(t: string, acc: nat): Scan {
    if t != [] && IsDigit(t[0]) then ScanDigits(t[1..], 10 * acc + DigitOf(t[0])) else Scan(acc, t)
  }

  /** The conversion %d; blanks in a format only skip blanks, which %d does on its own. */
  function ScanInt(t: string): Option<Scan> {
    var u := SkipSpace(t);
    var signed := u != [] && (u[0] == '-' || u[0] == '+');
    var w := if signed then u[1..] else u;
    if w == [] || !IsDigit(w[0]) then None
    else
      var s := ScanDigits(w, 0);
      Some(if u[0] == '-' then Scan(-s.value, s.rest) else s)
  }

  ghost predicate NoDigitAhead(rest: string) {
    rest != [] ==> !IsDigit(rest[0])
  }

  lemma {:induction false} ScanAllDigits(s: string, rest: string, acc: nat)
    requires AllDigits(s) && NoDigitAhead(rest)
    ensures ScanDigits(s + rest, acc) == Scan(Value(s, acc), rest)
  {
    if s == [] {
      assert s + rest == rest;
    } else {
      assert (s + rest)[1..] == s[1..] + rest;
      ScanAllDigits(s[1..], rest, 10 * acc + DigitOf(s[0]));
    }
  }

  /** Scanning gives back a printed number, and stops right behind it. */
  lemma ScanPrinted(n: nat, rest: string)
    requires NoDigitAhead(rest)
    ensures ScanInt(Itoa(n) + rest) == Some(Scan(n, rest))
  {
    var t := Itoa(n) + rest;
    assert IsDigit(t[0]);
    ScanAllDigits(Itoa(n), rest, 0);
    ItoaValue(n);
  }

  /** The characters that C counts as white space are skipped. */
  lemma ScanSkips(c: char, t: string)
    requires c in " \t\n\r" || 11 <= c as int <= 12
    ensures ScanInt([c] + t) == ScanInt(t)
  {
    assert ([c] + t)[1..] == t;
  }

  // ---------------------------------------------------------------------------------------------
  // strings.Split and strconv.Atoi
  // ---------------------------------------------------------------------------------------------

  /** The part of t before the first c, or all of it. */
  function Before(t: string, c: char): (s: string)
    ensures |s| <= |t| && s == t[..|s|] && c !in s
  {
    if t == [] || t[0] == c then [] else [t[0]] + Before(t[1..], c)
  }

  /** strings.Split(t, c) for a separator of one character. */
  function Split(t: string, c: char): (parts: seq<string>)
    ensures parts != []
    decreases |t|
  {
    var first := Before(t, c);
    if |first| == |t| then [t] else [first] + Split(t[|first| + 1..], c)
  }

  /** strconv.Atoi; the caller ignores the error, which comes with the value 0. */
  function Atoi(s: string): int {
    var digits := if s != [] && (s[0] == '-' || s[0] == '+') then s[1..] else s;
    if digits == [] || !AllDigits(digits) then 0
    else if s[0] == '-' then 0 - Value(digits, 0) else Value(digits, 0)
  }

  /** A sign in front of a printed number is read by both, a lone sign by neither. */
  lemma SignsAreRead(n: nat, rest: string)
    requires NoDigitAhead(rest)
    ensures ScanInt("-" + Itoa(n) + rest) == Some(Scan(0 - n, rest))
    ensures ScanInt("+" + Itoa(n) + rest) == Some(Scan(n, rest))
    ensures ScanInt("-" + rest) == None && ScanInt("+" + rest) == None
    ensures Atoi("-" + Itoa(n)) == 0 - n && Atoi("+" + Itoa(n)) == n && Atoi(Itoa(n)) == n
    ensures Atoi("-") == 0 && Atoi("") == 0
  {
    ScanAllDigits(Itoa(n), rest, 0);
    ItoaValue(n);
    SignTaken('-', Itoa(n), rest);
    SignTaken('+', Itoa(n), rest);
    assert ("-" + rest)[1..] == rest && ("+" + rest)[1..] == rest;
    assert ("-" + Itoa(n))[1..] == Itoa(n) && ("+" + Itoa(n))[1..] == Itoa(n);
    assert IsDigit(Itoa(n)[0]);
  }

  lemma SignTaken(sign: char, s: string, rest: string)
    ensures ([sign] + s + rest)[1..] == s + rest
  {
  }

  /** A field with any other character in it counts as 0, and stops the scanner where a number should begin. */
  lemma NotANumber(s: string, k: nat)
    requires 0 < k < |s| && !IsDigit(s[k])
    ensures Atoi(s) == 0
  {
    if s[0] == '-' || s[0] == '+' {
      assert s[1..][k - 1] == s[k];
    }
  }

  lemma NothingToScan(c: char, rest: string)
    requires !IsDigit(c) && !IsSpace(c) && c != '-' && c != '+'
    ensures ScanInt([c] + rest) == None && ScanInt("") == None
  {
  }

  lemma {:induction false} BeforePrinted(s: string, c: char, rest: string)
    requires c !in s
    ensures Before(s + [c] + rest, c) == s && Before(s, c) == s
  {
    if s == [] {
      assert s + [c] + rest == [c] + rest;
    } else {
      assert (s + [c] + rest)[1..] == s[1..] + [c] + rest;
      BeforePrinted(s[1..], c, rest);
      assert s == [s[0]] + s[1..];
    }
  }

  lemma SplitFirst(s: string, c: char, rest: string)
    requires c !in s
    ensures Split(s + [c] + rest, c) == [s] + Split(rest, c)
    ensures Split(s, c) == [s]
  {
    BeforePrinted(s, c, rest);
    assert (s + [c] + rest)[|s| + 1..] == rest;
  }
}
