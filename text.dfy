/** String helpers the session relies on: Python's `str.lower()` restricted to
    ASCII, `str(k)` and `int(s)` for decimal ordinals, the membership test that
    accepts a site selection, and `str.strip`/`str.rstrip` with a character set. */
module Text {

  datatype Option<+T> = None | Some(value: T)

  // ---------------------------------------------------------------------------
  // Lower-casing (the key canonicalisation of the state index)
  // ---------------------------------------------------------------------------

  predicate IsUpper(c: char) { 'A' <= c <= 'Z' }

  function LowerChar(c: char): char {
    if IsUpper(c) then (c as int - 'A' as int + 'a' as int) as char else c
  }

  /** `s.lower()` for ASCII letters; every other character is kept as is
      (in particular no whitespace is removed). */
  function Lower(s: string): (r: string)
    ensures |r| == |s|
    ensures forall i :: 0 <= i < |s| ==> r[i] == LowerChar(s[i])
  {
    seq(|s|, i requires 0 <= i < |s| => LowerChar(s[i]))
  }

  predicate IsLowerCase(s: string) {
    forall i :: 0 <= i < |s| ==> !IsUpper(s[i])
  }

  /** Lower-casing yields a key that lower-casing no longer changes: a stored
      key and a looked-up name are canonicalised the same way. */
  lemma LowerCanonical(s: string)
    ensures IsLowerCase(Lower(s))
    ensures Lower(Lower(s)) == Lower(s)
    ensures IsLowerCase(s) ==> Lower(s) == s
  {
    assert forall i :: 0 <= i < |s| ==> !IsUpper(LowerChar(s[i]));
  }

  /** Two inputs address the same key exactly when they agree letter by letter
      up to ASCII case. */
  lemma LowerSameKey(a: string, b: string)
    ensures Lower(a) == Lower(b) <==>
            (|a| == |b| && forall i :: 0 <= i < |a| ==> LowerChar(a[i]) == LowerChar(b[i]))
  {
    if |a| == |b| && forall i :: 0 <= i < |a| ==> LowerChar(a[i]) == LowerChar(b[i]) {
      assert forall i :: 0 <= i < |a| ==> Lower(a)[i] == Lower(b)[i];
    }
  }

  /** "Michigan" and "michigan" address the same entry; " michigan" does not,
      because nothing is trimmed. */
  lemma MichiganExample()
    ensures Lower("Michigan") == Lower("michigan") == "michigan"
    ensures Lower(" michigan") != "michigan"
  {
    assert |Lower(" michigan")| == 9;
  }

  // ---------------------------------------------------------------------------
  // Decimal ordinals: `str(k)`, `int(s)` and the site selection test
  // ---------------------------------------------------------------------------

  predicate IsDigit(c: char) { '0' <= c <= '9' }

  function Digit(d: nat): (c: char)
    requires d < 10
    ensures IsDigit(c) && c as int - '0' as int == d
  {
    ('0' as int + d) as char
  }

  /** `str(n)` for a natural number: shortest decimal form. */
  function Str(n: nat): (r: string)
    ensures |r| > 0
    ensures forall i :: 0 <= i < |r| ==> IsDigit(r[i])
    ensures r[0] == '0' <==> n == 0
    decreases n
  {
    if n < 10 then [Digit(n)] else Str(n / 10) + [Digit(n % 10)]
  }

  /** `int(s)` on a string of decimal digits. */
  function Value(s: string): int
  {
    if |s| == 0 then 0 else Value(s[..|s| - 1]) * 10 + (s[|s| - 1] as int - '0' as int)
  }

  /** The reference form of an accepted selection: digits only, no leading zero. */
  predicate Canonical(s: string) {
    |s| > 0 && s[0] != '0' && forall i :: 0 <= i < |s| ==> IsDigit(s[i])
  }

  lemma {:induction false} ValueOfStr(n: nat)
    ensures Value(Str(n)) == n
    ensures n >= 1 ==> Canonical(Str(n))
    decreases n
  {
    if n >= 10 {
      ValueOfStr(n / 10);
      var p := Str(n / 10);
      assert (p + [Digit(n % 10)])[..|p|] == p;
    }
  }

  lemma {:induction false} StrOfCanonical(s: string)
    requires Canonical(s)
    ensures Value(s) >= 1 && Str(Value(s)) == s
    decreases |s|
  {
    if |s| > 1 {
      var p := s[..|s| - 1];
      var d := s[|s| - 1] as int - '0' as int;
      assert Canonical(p);
      StrOfCanonical(p);
      var v := Value(s);
      assert v == Value(p) * 10 + d;
      assert v / 10 == Value(p) && v % 10 == d;
      assert s == p + [s[|s| - 1]];
    }
  }

  /** The strings offered at the site prompt: `str(1)`, ..., `str(n)`. */
  function Ordinals(n: nat): (r: seq<string>)
    ensures |r| == n
  {
    seq(n, i requires 0 <= i < n => Str(i + 1))
  }

  /** Membership in the offered list is exactly "canonical decimal in 1..n":
      "0", "01", "+1" and out-of-range numbers are refused. */
  lemma OrdinalsExactlyCanonical(s: string, n: nat)
    ensures s in Ordinals(n) <==> (Canonical(s) && 1 <= Value(s) <= n)
  {
    if s in Ordinals(n) {
      var i :| 0 <= i < n && Ordinals(n)[i] == s;
      ValueOfStr(i + 1);
    }
    if Canonical(s) && 1 <= Value(s) <= n {
      StrOfCanonical(s);
      assert Ordinals(n)[Value(s) - 1] == s;
    }
  }

  /** The selection test and the index it yields: `s` is accepted iff it is
      `str(k)` for some `k` in `1..n`, and the list index is `k - 1`. */
  function SelectIndex(s: string, n: nat): (r: Option<nat>)
    ensures r.Some? <==> s in Ordinals(n)
    ensures r.Some? ==> r.value < n && s == Str(r.value + 1)
  {
    if s in Ordinals(n) then
      OrdinalsExactlyCanonical(s, n);
      StrOfCanonical(s);
      Some(Value(s) - 1)
    else None
  }

  /** Concrete refusals at the site prompt of a three-site list. */
  lemma SelectionExamples()
    ensures SelectIndex("1", 3) == Some(0) && SelectIndex("3", 3) == Some(2)
    ensures SelectIndex("0", 3).None? && SelectIndex("01", 3).None? && SelectIndex("4", 3).None?
  {
    OrdinalsExactlyCanonical("1", 3);
    OrdinalsExactlyCanonical("3", 3);
    OrdinalsExactlyCanonical("0", 3);
    OrdinalsExactlyCanonical("01", 3);
    ValueOfStr(4);
    OrdinalsExactlyCanonical("4", 3);
  }

  // ---------------------------------------------------------------------------
  // strip / rstrip with a set of characters (the state page link)
  // ---------------------------------------------------------------------------

  /** `s.rstrip(chars)`: drops trailing characters that belong to `chars`. */
  function RStrip(s: string, chars: set<char>): (r: string)
    ensures |r| <= |s| && r == s[..|r|]
    ensures |r| > 0 ==> r[|r| - 1] !in chars
    ensures forall i :: |r| <= i < |s| ==> s[i] in chars
    decreases |s|
  {
    if |s| > 0 && s[|s| - 1] in chars then RStrip(s[..|s| - 1], chars) else s
  }

  /** `s.lstrip(chars)`: drops leading characters that belong to `chars`. */
  function LStrip(s: string, chars: set<char>): (r: string)
    ensures |r| <= |s| && r == s[|s| - |r|..]
    ensures |r| > 0 ==> r[0] !in chars
    ensures forall i :: 0 <= i < |s| - |r| ==> s[i] in chars
    decreases |s|
  {
    if |s| > 0 && s[0] in chars then
      var r := LStrip(s[1..], chars);
      assert s[1..][|s| - 1 - |r|..] == s[|s| - |r|..];
      r
    else s
  }

  function Strip(s: string, chars: set<char>): string {
    LStrip(RStrip(s, chars), chars)
  }

  /** What `s.strip(chars)` leaves neither starts nor ends with a character of
      `chars`. */
  lemma StripEnds(s: string, chars: set<char>)
    ensures var t := Strip(s, chars);
            |t| > 0 ==> t[0] !in chars && t[|t| - 1] !in chars
  {
    var r := RStrip(s, chars);
    var t := LStrip(r, chars);
    if |t| > 0 {
      assert t[|t| - 1] == r[|r| - 1];
    }
  }

  /** `t` is a slice of `s` that leaves out only a leading and a trailing run
      of characters of `chars`. */
  predicate TrimmedFrom(t: string, s: string, chars: set<char>) {
    exists a, b :: 0 <= a <= b <= |s| && t == s[a..b] &&
                   (forall i :: 0 <= i < a ==> s[i] in chars) &&
                   (forall i :: b <= i < |s| ==> s[i] in chars)
  }

  /** `s.strip(chars)` is the slice of `s` left once the leading and trailing
      runs of characters of `chars` are cut off. */
  lemma StripSlice(s: string, chars: set<char>)
    ensures TrimmedFrom(Strip(s, chars), s, chars)
  {
    var t := RStrip(s, chars);
    var b := |t|;
    var a := b - |LStrip(t, chars)|;
    assert t == s[..b];
    assert Strip(s, chars) == t[a..] == s[a..b];
    assert forall i :: 0 <= i < a ==> s[i] == t[i] && t[i] in chars;
  }
}
