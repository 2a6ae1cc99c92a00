/** Optional values, results, and the few string operations the plugin relies on. */
module Text {

  datatype Option<+T> = None | Some(value: T)

  datatype Result<+T, +E> = Ok(value: T) | Err(error: E)

  /** The program's int, 64 bits wide. */
  type Int64 = x: int | -0x8000_0000_0000_0000 <= x < 0x8000_0000_0000_0000

  // ----- trimming and case -----

  /** The white space that strings.TrimSpace strips. */
  predicate IsSpace(c: char) {
    || c == ' ' || '\t' <= c <= '\r' || c == '\U{0085}' || c == '\U{00A0}' || c == '\U{1680}'
    || '\U{2000}' <= c <= '\U{200A}' || c == '\U{2028}' || c == '\U{2029}' || c == '\U{202F}'
    || c == '\U{205F}' || c == '\U{3000}'
  }

  function TrimLeft(s: string): (r: string)
    ensures r == [] || !IsSpace(r[0])
  {
    if s != [] && IsSpace(s[0]) then TrimLeft(s[1..]) else s
  }

  function TrimRight(s: string): (r: string)
    ensures r <= s
    ensures r == [] || !IsSpace(r[|r| - 1])
  {
    if s != [] && IsSpace(s[|s| - 1]) then TrimRight(s[..|s| - 1]) else s
  }

  function Trim(s: string): (r: string)
    ensures r == [] || (!IsSpace(r[0]) && !IsSpace(r[|r| - 1]))
  {
    TrimRight(TrimLeft(s))
  }

  lemma TrimIdempotent(s: string)
    ensures Trim(Trim(s)) == Trim(s)
  {
  }

  predicate AllSpace(s: string) { forall i | 0 <= i < |s| :: IsSpace(s[i]) }

  /** Trimming takes white space off both ends, all of it, and nothing else. */
  lemma TrimStrips(s: string) returns (before: string, after: string)
    ensures s == before + Trim(s) + after && AllSpace(before) && AllSpace(after)
  {
    before := LeftStrips(s);
    after := RightStrips(TrimLeft(s));
  }

  lemma {:induction false} LeftStrips(s: string) returns (before: string)
    ensures s == before + TrimLeft(s) && AllSpace(before)
  {
    before := "";
    if s != [] && IsSpace(s[0]) {
      var more := LeftStrips(s[1..]);
      before := [s[0]] + more;
    }
  }

  lemma {:induction false} RightStrips(s: string) returns (after: string)
    ensures s == TrimRight(s) + after && AllSpace(after)
  {
    after := "";
    if s != [] && IsSpace(s[|s| - 1]) {
      var more := RightStrips(s[..|s| - 1]);
      after := more + [s[|s| - 1]];
    }
  }

  /** What has no white space at its ends is its own trimmed form. */
  lemma TrimKeeps(s: string)
    requires s != [] && !IsSpace(s[0]) && !IsSpace(s[|s| - 1])
    ensures Trim(s) == s
  {
  }

  /** The string is the other one with white space around it. */
  ghost predicate Surrounds(s: string, core: string) {
    exists before, after :: AllSpace(before) && AllSpace(after) && s == before + core + after
  }

  /** For what is its own trimmed form, being a string's trimmed form is standing in it with nothing
      but white space around it. */
  lemma TrimsTo(s: string, core: string)
    requires core != "" && Trim(core) == core
    ensures Trim(s) == core <==> Surrounds(s, core)
  {
    if Surrounds(s, core) {
      var before, after :| AllSpace(before) && AllSpace(after) && s == before + core + after;
      assert s == before + (core + after);
      SkipsSpace(before, core + after);
      DropsSpace(core, after);
    }
    var before, after := TrimStrips(s);
  }

  lemma {:induction false} SkipsSpace(before: string, rest: string)
    requires AllSpace(before) && (rest == "" || !IsSpace(rest[0]))
    ensures TrimLeft(before + rest) == rest
  {
    if before == "" {
      assert before + rest == rest;
    } else {
      assert (before + rest)[1..] == before[1..] + rest;
      SkipsSpace(before[1..], rest);
    }
  }

  lemma {:induction false} DropsSpace(core: string, after: string)
    requires AllSpace(after) && core != "" && !IsSpace(core[|core| - 1])
    ensures TrimRight(core + after) == core
    decreases |after|
  {
    if after == "" {
      assert core + after == core;
    } else {
      assert (core + after)[..|core + after| - 1] == core + after[..|after| - 1];
      DropsSpace(core, after[..|after| - 1]);
    }
  }

  predicate Blank(s: string) { Trim(s) == "" }

  /** Blank is empty but for white space. */
  lemma BlankIsAllSpace(s: string)
    ensures Blank(s) <==> AllSpace(s)
  {
    var before, after := TrimStrips(s);
    if Blank(s) {
      assert before + "" + after == before + after;
    } else {
      assert s[|before|] == Trim(s)[0];
    }
  }

  /** Lower-casing, for the ASCII letters. */
  function Lower(s: string): (r: string)
    ensures |r| == |s|
  {
    if s == [] then [] else [LowerChar(s[0])] + Lower(s[1..])
  }

  function LowerChar(c: char): char {
    if 'A' <= c <= 'Z' then c - 'A' + 'a' else c
  }

  lemma {:induction false} LowerAppend(a: string, b: string)
    ensures Lower(a + b) == Lower(a) + Lower(b)
  {
    if a == [] {
      assert a + b == b;
    } else {
      assert (a + b)[1..] == a[1..] + b;
      LowerAppend(a[1..], b);
    }
  }

  /** Lower-casing changes the ASCII capitals and nothing else. */
  lemma {:induction false} LowerAt(s: string, i: nat)
    requires i < |s|
    ensures Lower(s)[i] == if 'A' <= s[i] <= 'Z' then s[i] - 'A' + 'a' else s[i]
  {
    if i > 0 {
      LowerAt(s[1..], i - 1);
    }
  }

  predicate EqualFold(a: string, b: string) { Lower(a) == Lower(b) }

  /** Go's `<` on strings. */
  predicate Before(a: string, b: string) {
    b != [] && (a == [] || a[0] < b[0] || (a[0] == b[0] && Before(a[1..], b[1..])))
  }

  lemma {:induction false} BeforeTotal(a: string, b: string)
    ensures Before(a, b) || Before(b, a) || a == b
  {
    if a != [] && b != [] && a[0] == b[0] {
      BeforeTotal(a[1..], b[1..]);
      assert a == [a[0]] + a[1..] && b == [b[0]] + b[1..];
    }
  }

  /** Strings are compared by their first parts first. */
  lemma {:induction false} BeforeByParts(a: string, b: string, c: string, d: string)
    requires |a| == |c|
    ensures Before(a + b, c + d) <==> Before(a, c) || (a == c && Before(b, d))
  {
    if a == [] {
      assert a + b == b && c + d == d;
    } else {
      assert (a + b)[1..] == a[1..] + b && (c + d)[1..] == c[1..] + d;
      BeforeByParts(a[1..], b, c[1..], d);
      assert a == [a[0]] + a[1..] && c == [c[0]] + c[1..];
    }
  }

  lemma {:induction false} BeforeAsymmetric(a: string, b: string)
    requires Before(a, b)
    ensures !Before(b, a)
  {
    if a != [] && a[0] == b[0] {
      BeforeAsymmetric(a[1..], b[1..]);
    }
  }

  lemma {:induction false} BeforeTransitive(a: string, b: string, c: string)
    requires Before(a, b) && Before(b, c)
    ensures Before(a, c)
  {
    if a != [] && a[0] == b[0] == c[0] {
      BeforeTransitive(a[1..], b[1..], c[1..]);
    }
  }

  // ----- decimal integers -----

  function Digit(d: nat): (c: char)
    requires d < 10
    ensures '0' <= c <= '9' && DigitValue(c) == d
  {
    '0' + d as char
  }

  function DigitValue(c: char): nat
    requires '0' <= c <= '9'
  {
    (c - '0') as nat
  }

  function Digits(n: nat): (s: string)
    ensures s != [] && AllDigits(s)
  {
    if n < 10 then [Digit(n)] else Digits(n / 10) + [Digit(n % 10)]
  }

  predicate AllDigits(s: string) { forall i | 0 <= i < |s| :: '0' <= s[i] <= '9' }

  function DigitsValue(s: string): nat
    requires AllDigits(s)
  {
    if s == [] then 0 else DigitsValue(s[..|s| - 1]) * 10 + DigitValue(s[|s| - 1])
  }

  /** strconv.Itoa */
  function Itoa(n: int): string {
    if n < 0 then "-" + Digits(-n) else Digits(n)
  }

  /** strconv.ParseInt(s, 10, 64), which is also strconv.Atoi on a 64-bit platform. */
  function ParseInt(s: string): Option<Int64> {
    if s == [] then None
    else if s[0] == '-' then Signed(s[1..], -1)
    else if s[0] == '+' then Signed(s[1..], 1)
    else Signed(s, 1)
  }

  function Signed(digits: string, sign: int): Option<Int64>
    requires sign == 1 || sign == -1
  {
    if digits == [] || !AllDigits(digits) then None
    else
      var magnitude: int := DigitsValue(digits);
      var value := if sign == 1 then magnitude else -magnitude;
      if -0x8000_0000_0000_0000 <= value < 0x8000_0000_0000_0000 then Some(value) else None
  }

  lemma {:induction false} DigitsRoundTrip(n: nat)
    ensures DigitsValue(Digits(n)) == n
  {
    if n >= 10 {
      DigitsRoundTrip(n / 10);
      assert Digits(n)[..|Digits(n)| - 1] == Digits(n / 10);
    }
  }

  /** Every integer the plugin prints is read back as itself. */
  lemma ParseItoa(n: Int64)
    ensures ParseInt(Itoa(n)) == Some(n)
  {
    hide Signed;
    var k: int := n;
    if k < 0 {
      assert Itoa(k)[1..] == Digits(-k);
      SignedDigits(-k, -1);
    } else {
      var first := Digits(k)[0];
      assert first != '-' && first != '+';
      SignedDigits(k, 1);
    }
  }

  lemma SignedDigits(magnitude: nat, sign: int)
    requires sign == 1 || sign == -1
    requires magnitude < 0x8000_0000_0000_0000 || (sign == -1 && magnitude == 0x8000_0000_0000_0000)
    ensures Signed(Digits(magnitude), sign) == Some(if sign == 1 then magnitude else 0 - magnitude)
  {
    DigitsRoundTrip(magnitude);
  }

  /** The format verb %02d for a number below one hundred. */
  function TwoDigits(n: nat): (s: string)
    requires n < 100
    ensures |s| == 2 && AllDigits(s)
  {
    [Digit(n / 10), Digit(n % 10)]
  }

  lemma ItoaIsTrimmed(n: int)
    ensures Trim(Itoa(n)) == Itoa(n)
  {
    var s := Itoa(n);
    assert AllDigits(if n < 0 then s[1..] else s);
    TrimKeeps(s);
  }

  /** Two digits are in string order as their numbers are. */
  lemma TwoDigitsOrdered(a: nat, b: nat)
    requires a < 100 && b < 100
    ensures Before(TwoDigits(a), TwoDigits(b)) <==> a < b
  {
    BeforeByParts([Digit(a / 10)], [Digit(a % 10)], [Digit(b / 10)], [Digit(b % 10)]);
    BeforeChars(Digit(a / 10), Digit(b / 10));
    BeforeChars(Digit(a % 10), Digit(b % 10));
    assert TwoDigits(a) == [Digit(a / 10)] + [Digit(a % 10)] && TwoDigits(b) == [Digit(b / 10)] + [Digit(b % 10)];
    assert Digit(a / 10) == Digit(b / 10) <==> a / 10 == b / 10;
  }

  lemma BeforeChars(c: char, d: char)
    ensures Before([c], [d]) <==> c < d
    ensures [c] == [d] <==> c == d
  {
    assert [c][0] == c && [d][0] == d && [c][1..] == [d][1..] == [];
  }

  lemma TwoDigitsInjective(a: nat, b: nat)
    requires a < 100 && b < 100 && TwoDigits(a) == TwoDigits(b)
    ensures a == b
  {
  }
}
