/** Decimal integers as Rust's `format!("{n}")` prints them and `str::parse` reads them. */
module Decimal {
  import opened Wrappers

  /** The largest port, and the largest `u16`. */
  const PORT_MAX := 65535

  predicate IsDigit(c: char) {
    '0' <= c <= '9'
  }

  predicate AllDigits(s: string) {
    forall i :: 0 <= i < |s| ==> IsDigit(s[i])
  }

  function Value(s: string): nat
    requires AllDigits(s)
  {
    if s == [] then 0 else 10 * Value(s[..|s| - 1]) + (s[|s| - 1] - '0') as nat
  }

  function Format(n: nat): string {
    (if n < 10 then [] else Format(n / 10)) + ['0' + (n % 10) as char]
  }

  /** `parse::<u16>` / `parse::<u32>`: an optional `+`, then digits, at most `max`. */
  function ParseUnsigned(s: string, max: nat): Option<nat> {
    var t := if "+" <= s then s[1..] else s;
    if t == [] || !AllDigits(t) || Value(t) > max then None else Some(Value(t))
  }

  const I64_MAX := 0x7FFF_FFFF_FFFF_FFFF

  /** `parse::<i64>`. */
  function ParseI64(s: string): Option<int> {
    if "-" <= s then
      if s[1..] == [] || !AllDigits(s[1..]) || Value(s[1..]) > I64_MAX + 1 then None else Some(-(Value(s[1..]) as int))
    else
      match ParseUnsigned(s, I64_MAX)
      case Some(v) => Some(v as int)
      case None => None
  }

  lemma {:induction false} ValueFormat(n: nat)
    ensures Format(n) != [] && AllDigits(Format(n)) && Value(Format(n)) == n
  {
    var s := Format(n);
    if n >= 10 {
      ValueFormat(n / 10);
      assert s[..|s| - 1] == Format(n / 10);
    }
  }

  /** Printing and reading back is the identity, for both readers. */
  lemma ParseFormat(n: nat, max: nat)
    requires n <= max
    ensures ParseUnsigned(Format(n), max) == Some(n)
    ensures n <= I64_MAX ==> ParseI64(Format(n)) == Some(n)
  {
    ValueFormat(n);
    assert IsDigit(Format(n)[0]);
  }

  lemma FormatInjective(m: nat, n: nat)
    ensures Format(m) == Format(n) ==> m == n
  {
    ValueFormat(m);
    ValueFormat(n);
  }

  /** Digits are positional, the first the most significant. */
  lemma ValueSays(s: string, c: char)
    requires AllDigits(s) && IsDigit(c)
    ensures AllDigits([c]) && Value([c]) == c as nat - '0' as nat
    ensures AllDigits(s + [c]) && Value(s + [c]) == 10 * Value(s) + Value([c])
  {
    assert (s + [c])[..|s|] == s && [c][..0] == [];
  }

  /** What the readers take: digits, a sign in front or not, within the bound. */
  lemma ReadersSay(s: string, max: nat)
    requires AllDigits(s) && s != []
    ensures ParseUnsigned(s, max) == ParseUnsigned("+" + s, max) == if Value(s) <= max then Some(Value(s)) else None
    ensures ParseUnsigned([], max) == None && ParseUnsigned("-" + s, max) == None
  {
    assert ("+" + s)[1..] == s && IsDigit(s[0]);
    assert ("-" + s)[0] == '-';
  }

  /** The signed reader takes the 64-bit range, with either sign in front. */
  lemma SignedSays(s: string)
    requires AllDigits(s) && s != []
    ensures ParseI64(s) == if Value(s) < 0x8000_0000_0000_0000 then Some(Value(s) as int) else None
    ensures ParseI64("-" + s) == if Value(s) <= 0x8000_0000_0000_0000 then Some(-(Value(s) as int)) else None
  {
    assert IsDigit(s[0]) && ("-" + s)[1..] == s;
  }

  lemma PlusSays(s: string)
    requires AllDigits(s) && s != []
    ensures ParseI64("+" + s) == ParseI64(s)
  {
    ReadersSay(s, I64_MAX);
    assert IsDigit(s[0]) && ("+" + s)[0] == '+';
  }
}
