/** Text operations the programs share: trimming, splitting at dots, and numbers in base 36. */
module Texts {
  import opened Basics

  // --------------------------------------------------------------------- trimming

  predicate IsSpace(c: char) {
    c in "\t\n\r " || c == 11 as char || c == 12 as char || c == 0xa0 as char || c == 0x1680 as char
    || 0x2000 as char <= c <= 0x200a as char || c == 0x2028 as char || c == 0x2029 as char
    || c == 0x202f as char || c == 0x205f as char || c == 0x3000 as char || c == 0xfeff as char
  }

  function TrimEnd(s: string): string {
    if s != "" && IsSpace(s[|s| - 1]) then TrimEnd(s[..|s| - 1]) else s
  }

  function TrimStart(s: string): string {
    if s != "" && IsSpace(s[0]) then TrimStart(s[1..]) else s
  }

  function Trim(s: string): string {
    TrimStart(TrimEnd(s))
  }

  ghost predicate Tight(s: string) {
    s != "" && !IsSpace(s[0]) && !IsSpace(s[|s| - 1])
  }

  lemma TrimLine(s: string)
    requires Tight(s)
    ensures Trim(s + "\n") == s
  {
    hide IsSpace;
    assert IsSpace('\n') by { SpaceNewline(); }
    assert (s + "\n")[..|s|] == s;
    assert TrimEnd(s) == s && TrimStart(s) == s;
    assert TrimEnd(s + "\n") == TrimEnd(s);
  }

  lemma SpaceNewline()
    ensures IsSpace('\n')
  {}

  lemma TrimByExample()
    ensures Trim(" a b\n") == "a b" && Trim("") == ""
  {
    TrimLine("a b");
    assert TrimEnd("a b") == "a b" && TrimEnd(" a b") == " a b" && " a b\n"[..4] == " a b" && " a b"[1..] == "a b";
  }

  // --------------------------------------------------------------- joining with dots

  function Split(s: string): (r: seq<string>)
    ensures |r| > 0
  {
    if s == "" then [""]
    else
      var t := Split(s[1..]);
      if s[0] == '.' then [""] + t else [[s[0]] + t[0]] + t[1..]
  }

  function Join(parts: seq<string>): string {
    if parts == [] then ""
    else if |parts| == 1 then parts[0]
    else parts[0] + "." + Join(parts[1..])
  }

  ghost predicate Dotless(s: string) {
    '.' !in s
  }

  lemma {:induction false} SplitDotless(s: string)
    requires Dotless(s)
    ensures Split(s) == [s]
  {
    if s != "" {
      SplitDotless(s[1..]);
      assert [s[0]] + s[1..] == s;
    }
  }

  lemma {:induction false} SplitAtDot(a: string, b: string)
    requires Dotless(a)
    ensures Split(a + "." + b) == [a] + Split(b)
  {
    var s := a + "." + b;
    if a == "" {
      assert s[0] == '.' && s[1..] == b;
    } else {
      assert s[0] == a[0] && s[1..] == a[1..] + "." + b;
      SplitAtDot(a[1..], b);
      var t := [a[1..]] + Split(b);
      assert t[0] == a[1..] && t[1..] == Split(b);
      assert [a[0]] + a[1..] == a;
    }
  }

  /** Splitting undoes joining parts without dots. */
  lemma {:induction false} SplitUndoesJoin(parts: seq<string>)
    requires parts != [] && forall p | p in parts :: Dotless(p)
    ensures Split(Join(parts)) == parts
  {
    if |parts| == 1 {
      SplitDotless(parts[0]);
    } else {
      SplitUndoesJoin(parts[1..]);
      SplitAtDot(parts[0], Join(parts[1..]));
      CutJoins(parts, 1);
    }
  }

  lemma JoinHead(head: string, parts: seq<string>)
    requires parts != []
    ensures Join([head] + parts) == head + "." + Join(parts)
  {
    assert ([head] + parts)[1..] == parts;
  }

  lemma {:induction false} JoinAppend(parts: seq<string>, last: string)
    requires parts != []
    ensures Join(parts + [last]) == Join(parts) + "." + last
  {
    if |parts| == 1 {
      assert parts + [last] == [parts[0], last];
      assert [parts[0], last][1..] == [last];
    } else {
      assert (parts + [last])[1..] == parts[1..] + [last] && (parts + [last])[0] == parts[0];
      JoinAppend(parts[1..], last);
      var tail := Join(parts[1..]);
      assert parts[0] + "." + (tail + "." + last) == parts[0] + "." + tail + "." + last;
    }
  }

  /** A text is split at every dot, and at nothing else. */
  lemma {:induction false} DotsSeparate(s: string)
    ensures forall p | p in Split(s) :: '.' !in p
    ensures |Split(s)| == 1 + |Dots(s)|
    ensures Join(Split(s)) == s
  {
    if s != "" {
      var t := Split(s[1..]);
      DotsSeparate(s[1..]);
      assert [s[0]] + s[1..] == s;
      if s[0] == '.' {
        JoinHead("", t);
        assert "" + "." + s[1..] == s;
      } else {
        JoinGrows(s[0], t);
        assert forall p | p in t[1..] :: p in t;
        assert t[0] in t;
      }
    }
  }

  function Dots(s: string): string {
    if s == "" then "" else (if s[0] == '.' then "." else "") + Dots(s[1..])
  }

  lemma JoinGrows(c: char, parts: seq<string>)
    requires parts != []
    ensures Join([[c] + parts[0]] + parts[1..]) == [c] + Join(parts)
  {
    var longer := [[c] + parts[0]] + parts[1..];
    assert longer[1..] == parts[1..];
    if |parts| > 1 {
      assert longer[0] + "." + Join(parts[1..]) == [c] + (parts[0] + "." + Join(parts[1..]));
    }
  }

  // -------------------------------------------------------------------- base 36

  function DigitOf(d: nat): char
    requires d < 36
  {
    if d < 10 then (d + 48) as char else (d + 87) as char
  }

  function DigitValue(c: char): Option<nat> {
    if '0' <= c <= '9' then Some(c as int - 48)
    else if 'a' <= c <= 'z' then Some(c as int - 87)
    else if 'A' <= c <= 'Z' then Some(c as int - 55)
    else None
  }

  function PrintNat(n: nat): string {
    if n < 36 then [DigitOf(n)] else PrintNat(n / 36) + [DigitOf(n % 36)]
  }

  function Print(n: int): string {
    if n < 0 then "-" + PrintNat(-n) else PrintNat(n)
  }

  /** The digits a number starts with. */
  function Leading(s: string): string {
    if s == "" || DigitValue(s[0]) == None then "" else [s[0]] + Leading(s[1..])
  }

  function Evaluate(s: string): nat {
    if s == "" then 0
    else
      var last := DigitValue(s[|s| - 1]);
      36 * Evaluate(s[..|s| - 1]) + if last.Some? then last.value else 0
  }

  /** What follows the number is ignored; no digits at all is no number. */
  function Parse(s: string): Option<int> {
    var t := TrimStart(s);
    var unsigned := if t != "" && (t[0] == '-' || t[0] == '+') then t[1..] else t;
    var digits := Leading(unsigned);
    var value: int := Evaluate(digits);
    if digits == "" then None else if t[0] == '-' then Some(-value) else Some(value)
  }

  lemma DigitRoundTrip(d: nat)
    requires d < 36
    ensures DigitValue(DigitOf(d)) == Some(d) && !IsSpace(DigitOf(d))
    ensures DigitOf(d) != '-' && DigitOf(d) != '+' && DigitOf(d) != '.'
  {}

  ghost predicate AllDigits36(s: string) {
    forall i | 0 <= i < |s| :: DigitValue(s[i]).Some? && s[i] != '.' && s[i] != '-' && s[i] != '+' && !IsSpace(s[i])
  }

  lemma {:induction false} PrintNatShape(n: nat)
    ensures PrintNat(n) != "" && AllDigits36(PrintNat(n)) && Evaluate(PrintNat(n)) == n
  {
    if n < 36 {
      DigitRoundTrip(n);
      hide DigitValue, DigitOf, IsSpace;
      assert [DigitOf(n)][..0] == "";
    } else {
      DigitRoundTrip(n % 36);
      PrintNatShape(n / 36);
      hide DigitValue, DigitOf, IsSpace;
      var s := PrintNat(n);
      assert s[..|s| - 1] == PrintNat(n / 36);
    }
  }

  lemma {:induction false} LeadingAll(s: string)
    requires AllDigits36(s)
    ensures Leading(s) == s
  {
    if s != "" {
      assert s[0] == s[0] && DigitValue(s[0]).Some?;
      hide DigitValue, IsSpace;
      LeadingAll(s[1..]);
      assert [s[0]] + s[1..] == s;
    }
  }

  lemma ParseDigits(digits: string)
    requires digits != "" && AllDigits36(digits)
    ensures Parse(digits) == Some(Evaluate(digits))
  {
    LeadingAll(digits);
    assert !IsSpace(digits[0]) && digits[0] != '-' && digits[0] != '+';
    hide IsSpace, Evaluate, Leading, AllDigits36;
  }

  lemma ParseNegative(digits: string)
    requires digits != "" && AllDigits36(digits)
    ensures
      var value: int := Evaluate(digits);
      Parse("-" + digits) == Some(-value)
  {
    LeadingAll(digits);
    var s := "-" + digits;
    assert s[0] == '-' && s[1..] == digits;
    assert !IsSpace('-') by {}
    hide IsSpace, Evaluate, Leading, AllDigits36;
  }

  lemma AllDigitsDotless(digits: string)
    requires AllDigits36(digits)
    ensures Dotless(digits) && Dotless("-" + digits)
  {}

  /** Parsing undoes printing, negative numbers included. */
  lemma ParseUndoesPrint(n: int)
    ensures Parse(Print(n)) == Some(n) && Dotless(Print(n))
  {
    var digits := PrintNat(if n < 0 then -n else n);
    PrintNatShape(if n < 0 then -n else n);
    hide AllDigits36, PrintNat, Evaluate, Parse;
    ParseDigits(digits);
    ParseNegative(digits);
    AllDigitsDotless(digits);
  }

  function Power36(n: nat): nat {
    if n == 0 then 1 else 36 * Power36(n - 1)
  }

  lemma {:induction false} PrintNatLength(n: nat, width: nat)
    requires width > 0 && n < Power36(width)
    ensures |PrintNat(n)| <= width
  {
    if n >= 36 {
      assert Power36(1) == 36;
      PrintNatLength(n / 36, width - 1);
    }
  }

  predicate IsSafe(n: int) {
    -MAX_SAFE_INTEGER <= n <= MAX_SAFE_INTEGER
  }

  lemma {:induction false} PrintNatIsLong(n: nat, width: nat)
    requires n >= Power36(width)
    ensures |PrintNat(n)| > width
  {
    if width > 0 {
      PrintNatIsLong(n / 36, width - 1);
    }
  }

  /** The tenth power of 36. */
  const ELEVEN_DIGITS: int := 3656158440062976

  /** At most eleven digits and a sign; twelve characters are needed for the most negative numbers only. */
  lemma PrintLength(n: int)
    requires IsSafe(n)
    ensures 0 < |Print(n)| <= (if n <= -ELEVEN_DIGITS then 12 else 11)
    ensures n <= -ELEVEN_DIGITS ==> |Print(n)| == 12
  {
    assert Power36(3) == 46656;
    assert Power36(6) == 2176782336;
    assert Power36(9) == 101559956668416;
    assert Power36(10) == ELEVEN_DIGITS;
    var m: nat := if n < 0 then -n else n;
    PrintNatLength(m, 11);
    if m < ELEVEN_DIGITS {
      PrintNatLength(m, 10);
    } else {
      PrintNatIsLong(m, 10);
    }
    PrintNatShape(if n < 0 then -n else n);
  }

  /** Numbers as the platform prints them in base 36. */
  lemma NumbersByExample()
    ensures Print(0) == "0" && Print(35) == "z" && Print(-37) == "-11" && Print(1295) == "zz" && Print(1296) == "100"
  {
    assert PrintNat(1) == "1" && PrintNat(37) == "11";
    assert PrintNat(35) == "z" && PrintNat(1295) == "zz";
    assert PrintNat(36) == "10" && PrintNat(1296) == "100";
  }
}
