/** Reading and writing text the way C++ streams do, as far as versions and sync messages use them. */
module Texts {
  import opened Bytes

  predicate IsSpace(c: char) {
    c == ' ' || c == '\t' || c == '\n' || c == '\r'
  }

  predicate IsDigit(c: char) {
    '0' <= c <= '9'
  }

  /** `stream << n`. */
  function Decimal(n: nat): (s: string)
    ensures s != "" && forall c <- s :: IsDigit(c)
  {
    var last := ['0' + (n % 10) as char];
    if n < 10 then last else Decimal(n / 10) + last
  }

  function DigitValue(c: char): nat
    requires IsDigit(c)
  {
    c as int - '0' as int
  }

  function Value(digits: string): nat
    requires forall c <- digits :: IsDigit(c)
  {
    if digits == "" then 0
    else
      var n := |digits| - 1;
      assert digits[n] in digits;
      Value(digits[..n]) * 10 + DigitValue(digits[n])
  }

  /** How many characters at the front satisfy a test. */
  function Run(s: string, test: char -> bool): (n: nat)
    ensures n <= |s| && (forall i | 0 <= i < n :: test(s[i])) && (n < |s| ==> !test(s[n]))
  {
    if s == "" || !test(s[0]) then 0 else 1 + Run(s[1..], test)
  }

  function SkipSpace(s: string): string {
    s[Run(s, IsSpace)..]
  }

  predicate IsSign(c: char) {
    c == '+' || c == '-'
  }

  /** `stream >> number`, for a number without a sign of its own: nothing, if there are no digits or the number is too
      large; a minus in front counts down from the type's range. */
  function ReadNumber(s: string, max: nat): Option<(nat, string)> {
    var t := SkipSpace(s);
    var u := if t != "" && IsSign(t[0]) then t[1..] else t;
    var n := Run(u, IsDigit);
    if n == 0 || Value(u[..n]) > max then None
    else
      var value := Value(u[..n]);
      Some((if t[0] == '-' && value > 0 then max + 1 - value else value, u[n..]))
  }

  /** `stream >> string`. */
  function ReadToken(s: string): Option<(string, string)> {
    var t := SkipSpace(s);
    var n := Run(t, c => !IsSpace(c));
    if n == 0 then None else Some((t[..n], t[n..]))
  }

  /** The first place of a character from `start` on. */
  function Find(s: string, c: char, start: nat): Option<nat> {
    if start >= |s| then None
    else
      var n := Run(s[start..], x => x != c);
      if start + n == |s| then None else Some(start + n)
  }

  lemma RunIs(s: string, n: nat, test: char -> bool)
    requires n <= |s| && (forall i | 0 <= i < n :: test(s[i])) && (n < |s| ==> !test(s[n]))
    ensures Run(s, test) == n
  {
  }

  lemma {:induction false} ValueOfDecimal(n: nat)
    ensures Value(Decimal(n)) == n
  {
    if n >= 10 {
      ValueOfDecimal(n / 10);
      assert Decimal(n)[..|Decimal(n)| - 1] == Decimal(n / 10);
    }
  }

  lemma NoSpace(s: string)
    requires s == "" || !IsSpace(s[0])
    ensures SkipSpace(s) == s
  {
    RunIs(s, 0, IsSpace);
  }

  lemma OneSpace(s: string)
    requires s == "" || !IsSpace(s[0])
    ensures SkipSpace([' '] + s) == s
  {
    RunIs([' '] + s, 1, IsSpace);
  }

  lemma Starts(n: nat, rest: string)
    ensures Decimal(n) + rest != "" && IsDigit((Decimal(n) + rest)[0]) && !IsSign((Decimal(n) + rest)[0])
  {
    var s := Decimal(n) + rest;
    assert s[0] == Decimal(n)[0] && Decimal(n)[0] in Decimal(n);
  }

  /** How a number is read when no digit follows it. */
  lemma DigitsRead(s: string, sign: string, n: nat, rest: string, max: nat)
    requires sign == "" || (|sign| == 1 && IsSign(sign[0]))
    requires (rest == "" || !IsDigit(rest[0])) && SkipSpace(s) == sign + (Decimal(n) + rest)
    ensures ReadNumber(s, max) ==
      if n > max then None else Some((if sign == "-" && n > 0 then max + 1 - n else n, rest))
  {
    Starts(n, rest);
    hide Decimal, Value, SkipSpace, Run;
    var t, u, k := SkipSpace(s), Decimal(n) + rest, |Decimal(n)|;
    if sign == "" {
      assert t == u;
    } else {
      assert sign == [t[0]] && t[1..] == u;
    }
    RunIs(u, k, IsDigit);
    assert u[..k] == Decimal(n) && u[k..] == rest;
    ValueOfDecimal(n);
  }

  /** A number is read, with or without a sign and with or without a space in front, if it is not too large; a minus
      counts down from the type's range. */
  lemma NumberIsRead(n: nat, rest: string, max: nat)
    requires rest == "" || !IsDigit(rest[0])
    ensures ReadNumber(Decimal(n) + rest, max) == if n > max then None else Some((n, rest))
    ensures ReadNumber([' '] + Decimal(n) + rest, max) == if n > max then None else Some((n, rest))
    ensures ReadNumber("+" + (Decimal(n) + rest), max) == if n > max then None else Some((n, rest))
    ensures ReadNumber("-" + (Decimal(n) + rest), max) ==
      if n > max then None else Some((if n == 0 then 0 else max + 1 - n, rest))
  {
    Starts(n, rest);
    hide Decimal, SkipSpace, ReadNumber;
    var s := Decimal(n) + rest;
    NoSpace(s);
    NoSpace("+" + s);
    NoSpace("-" + s);
    OneSpace(s);
    assert [' '] + Decimal(n) + rest == [' '] + s && "" + s == s;
    DigitsRead(s, "", n, rest, max);
    DigitsRead([' '] + Decimal(n) + rest, "", n, rest, max);
    DigitsRead("+" + s, "+", n, rest, max);
    DigitsRead("-" + s, "-", n, rest, max);
  }

  /** A number reads back, with or without a space in front, when no digit follows. */
  lemma NumberReadsBack(n: nat, rest: string, max: nat)
    requires n <= max && (rest == "" || !IsDigit(rest[0]))
    ensures ReadNumber(Decimal(n) + rest, max) == Some((n, rest))
    ensures ReadNumber([' '] + Decimal(n) + rest, max) == Some((n, rest))
  {
    hide Decimal, ReadNumber;
    NumberIsRead(n, rest, max);
  }

  /** A word reads back, with a space in front, when the text ends or a space follows. */
  lemma TokenReadsBack(word: string, rest: string)
    requires word != "" && (forall c <- word :: !IsSpace(c)) && (rest == "" || IsSpace(rest[0]))
    ensures ReadToken([' '] + word + rest) == Some((word, rest))
  {
    var s := word + rest;
    assert [' '] + word + rest == [' '] + s;
    assert s[0] == word[0];
    OneSpace(s);
    RunIs(s, |word|, c => !IsSpace(c));
    assert s[..|word|] == word && s[|word|..] == rest;
  }

  lemma Finds(before: string, c: char, after: string, start: nat)
    requires start <= |before| && forall i | start <= i < |before| :: before[i] != c
    ensures Find(before + [c] + after, c, start) == Some(|before|)
  {
    var s := before + [c] + after;
    RunIs(s[start..], |before| - start, x => x != c);
  }

  lemma FindsNone(s: string, c: char, start: nat)
    requires forall i | start <= i < |s| :: s[i] != c
    ensures Find(s, c, start) == None
  {
    if start < |s| {
      RunIs(s[start..], |s| - start, x => x != c);
    }
  }

  /** `str::split`: the pieces between the separators. */
  function Split(s: string, c: char): seq<string>
    decreases |s|
  {
    match Find(s, c, 0)
    case None => [s]
    case Some(i) => [s[..i]] + Split(s[i + 1..], c)
  }

  function Joined(parts: seq<string>, c: char): string
    requires parts != []
  {
    if |parts| == 1 then parts[0] else parts[0] + [c] + Joined(parts[1..], c)
  }

  lemma {:induction false} SplitsBack(parts: seq<string>, c: char)
    requires parts != [] && forall p <- parts :: c !in p
    ensures Split(Joined(parts, c), c) == parts
  {
    hide Find;
    assert forall i | 0 <= i < |parts[0]| :: parts[0][i] in parts[0];
    if |parts| == 1 {
      FindsNone(parts[0], c, 0);
    } else {
      var rest := Joined(parts[1..], c);
      Finds(parts[0], c, rest, 0);
      var s := parts[0] + [c] + rest;
      assert s[..|parts[0]|] == parts[0] && s[|parts[0]| + 1..] == rest;
      SplitsBack(parts[1..], c);
    }
  }
}
