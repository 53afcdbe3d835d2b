/** The string operations the library relies on: decimal formatting of
    integers (`f"{i}"`), `str.join`, `str.startswith`, and ASCII case
    mapping (`str.upper`/`str.lower` on identifiers). */
module Strings {
  import opened Wrappers

  predicate IsDigit(c: char) { '0' <= c <= '9' }

  predicate AllDigits(s: string) { forall k | 0 <= k < |s| :: IsDigit(s[k]) }

  function DigitChar(d: nat): (c: char)
    requires d < 10
    ensures IsDigit(c) && (c as int) - ('0' as int) == d
  {
    (('0' as int) + d) as char
  }

  /** Decimal representation without leading zeros. */
  function NatToString(n: nat): (s: string)
    ensures |s| > 0 && AllDigits(s)
    ensures |s| > 1 ==> s[0] != '0'
    decreases n
  {
    if n < 10 then [DigitChar(n)] else NatToString(n / 10) + [DigitChar(n % 10)]
  }

  function IntToString(i: int): string {
    if i < 0 then "-" + NatToString(-i) else NatToString(i)
  }

  /** The value of a string of decimal digits, most significant first. */
  function DigitsValue(s: string): nat
    requires AllDigits(s)
  {
    if |s| == 0 then 0
    else DigitsValue(s[..|s| - 1]) * 10 + ((s[|s| - 1] as int) - ('0' as int))
  }

  /** Reading back the decimal representation gives the number. */
  lemma {:induction false} NatToStringRoundTrip(n: nat)
    ensures DigitsValue(NatToString(n)) == n
    decreases n
  {
    if n >= 10 {
      var s := NatToString(n);
      assert s[..|s| - 1] == NatToString(n / 10);
      NatToStringRoundTrip(n / 10);
    }
  }

  lemma NatToStringInjective(a: nat, b: nat)
    ensures NatToString(a) == NatToString(b) ==> a == b
  {
    NatToStringRoundTrip(a);
    NatToStringRoundTrip(b);
  }

  /** A run of zeros reads as zero. */
  lemma {:induction false} ZerosValue(z: nat)
    ensures AllDigits(seq(z, _ => '0')) && DigitsValue(seq(z, _ => '0')) == 0
  {
    if z > 0 {
      assert seq(z, _ => '0')[..z - 1] == seq(z - 1, _ => '0');
      ZerosValue(z - 1);
    }
  }

  /** Leading zeros (the `0` fill of a `:03d` format) do not change the
      value of a string of digits. */
  lemma {:induction false} PaddedValue(z: nat, s: string)
    requires AllDigits(s)
    ensures AllDigits(seq(z, _ => '0') + s)
    ensures DigitsValue(seq(z, _ => '0') + s) == DigitsValue(s)
  {
    var zeros := seq(z, _ => '0');
    var t := zeros + s;
    if |s| == 0 {
      assert t == zeros;
      ZerosValue(z);
    } else {
      assert AllDigits(s[..|s| - 1]);
      assert t[..|t| - 1] == zeros + s[..|s| - 1];
      PaddedValue(z, s[..|s| - 1]);
    }
  }

  /** `s.startswith(p)`. */
  predicate StartsWith(s: string, p: string) {
    |p| <= |s| && s[..|p|] == p
  }

  /** `sep.join(parts)`. */
  function Join(parts: seq<string>, sep: string): (r: string)
    ensures |parts| == 0 ==> r == ""
    ensures |parts| == 1 ==> r == parts[0]
  {
    if |parts| == 0 then ""
    else if |parts| == 1 then parts[0]
    else Join(parts[..|parts| - 1], sep) + sep + parts[|parts| - 1]
  }

  function UpperChar(c: char): char {
    if 'a' <= c <= 'z' then ((c as int) - 32) as char else c
  }

  function LowerChar(c: char): char {
    if 'A' <= c <= 'Z' then ((c as int) + 32) as char else c
  }

  function Upper(s: string): (r: string)
    ensures |r| == |s| && forall k | 0 <= k < |s| :: r[k] == UpperChar(s[k])
  {
    seq(|s|, k requires 0 <= k < |s| => UpperChar(s[k]))
  }

  function Lower(s: string): (r: string)
    ensures |r| == |s| && forall k | 0 <= k < |s| :: r[k] == LowerChar(s[k])
  {
    seq(|s|, k requires 0 <= k < |s| => LowerChar(s[k]))
  }

  /** Upper-casing forgets the case of the input. */
  lemma UpperOfLower(s: string)
    ensures Upper(Lower(s)) == Upper(s)
  {
  }

  /** `base`, then `base` + `sep` + 1, 2, ...: the candidates of a
      name-uniquing loop. */
  function Numbered(base: string, sep: string, k: nat): string {
    if k == 0 then base else base + sep + NatToString(k)
  }

  lemma NumberedDistinct(base: string, sep: string, j: nat, k: nat)
    requires j != k
    ensures Numbered(base, sep, j) != Numbered(base, sep, k)
  {
    if j > 0 && k > 0 {
      var pre := base + sep;
      if Numbered(base, sep, j) == Numbered(base, sep, k) {
        assert NatToString(j) == Numbered(base, sep, j)[|pre|..];
        assert NatToString(k) == Numbered(base, sep, k)[|pre|..];
        NatToStringInjective(j, k);
      }
    }
  }

  /** The candidate names below index `k`. */
  function Tried(base: string, sep: string, k: nat): set<string> {
    set j | 0 <= j < k :: Numbered(base, sep, j)
  }

  lemma TriedStep(base: string, sep: string, existing: set<string>, k: nat)
    requires Numbered(base, sep, k) in existing
    ensures existing - Tried(base, sep, k + 1) < existing - Tried(base, sep, k)
  {
    forall x | x in Tried(base, sep, k)
      ensures x != Numbered(base, sep, k)
    {
      var j :| 0 <= j < k && x == Numbered(base, sep, j);
      NumberedDistinct(base, sep, j, k);
    }
    assert Tried(base, sep, k + 1) == Tried(base, sep, k) + {Numbered(base, sep, k)};
  }

  /** Index of the first untaken candidate from `k` on: the name the host
      gives a new data block or node whose base name is taken. */
  function FirstFree(base: string, sep: string, existing: set<string>, k: nat): (r: nat)
    ensures k <= r && Numbered(base, sep, r) !in existing
    ensures forall j | k <= j < r :: Numbered(base, sep, j) in existing
    decreases existing - Tried(base, sep, k)
  {
    if Numbered(base, sep, k) !in existing then k
    else
      TriedStep(base, sep, existing, k);
      FirstFree(base, sep, existing, k + 1)
  }

  /** Only one index is the first untaken one. */
  lemma FirstFreeUnique(base: string, sep: string, existing: set<string>, r: nat)
    requires Numbered(base, sep, r) !in existing
    requires forall j | 0 <= j < r :: Numbered(base, sep, j) in existing
    ensures r == FirstFree(base, sep, existing, 0)
  {
  }

  /** The first candidate name that is not taken. */
  method FreeName(base: string, sep: string, existing: set<string>) returns (name: string, k: nat)
    ensures name == Numbered(base, sep, k) && name !in existing
    ensures forall j | 0 <= j < k :: Numbered(base, sep, j) in existing
    ensures k == FirstFree(base, sep, existing, 0)
  {
    k, name := 0, base;
    ghost var tried: set<string> := {};
    while name in existing
      invariant name == Numbered(base, sep, k)
      invariant forall j | 0 <= j < k :: Numbered(base, sep, j) in existing
      invariant tried == set j | 0 <= j < k :: Numbered(base, sep, j)
      invariant tried <= existing
      decreases existing - tried
    {
      forall j | 0 <= j < k
        ensures Numbered(base, sep, j) != name
      {
        NumberedDistinct(base, sep, j, k);
      }
      tried := tried + {name};
      k := k + 1;
      name := Numbered(base, sep, k);
    }
    FirstFreeUnique(base, sep, existing, k);
  }

  /** `s.index(c)`: the first position of `c` in `s`, none when absent. */
  function IndexOf(s: string, c: char): (r: Option<nat>)
    ensures r.None? <==> c !in s
    ensures r.Some? ==> r.value < |s| && s[r.value] == c && c !in s[..r.value]
  {
    if |s| == 0 then None
    else if s[0] == c then Some(0)
    else
      var rest := IndexOf(s[1..], c);
      assert forall k | 1 <= k < |s| :: s[1..][k - 1] == s[k];
      if rest.None? then None
      else
        assert s[..rest.value + 1] == [s[0]] + s[1..][..rest.value];
        Some(rest.value + 1)
  }

  /** `s.split(c)`: the pieces between the occurrences of `c`. */
  function Split(s: string, c: char): (r: seq<string>)
    ensures |r| > 0
    decreases |s|
  {
    match IndexOf(s, c)
    case None => [s]
    case Some(i) => [s[..i]] + Split(s[i + 1..], c)
  }

  /** Joining one more part in front. */
  lemma {:induction false} JoinCons(p: string, rest: seq<string>, sep: string)
    requires |rest| > 0
    ensures Join([p] + rest, sep) == p + sep + Join(rest, sep)
    decreases |rest|
  {
    if |rest| > 1 {
      var n := |rest| - 1;
      assert ([p] + rest)[..|rest|] == [p] + rest[..n];
      JoinCons(p, rest[..n], sep);
    } else {
      assert [p] + rest == [p, rest[0]];
    }
  }

  /** The first `c` of `p + [c] + t` is the one after `p` when `p` has none. */
  lemma IndexAfter(p: string, c: char, t: string)
    requires c !in p
    ensures IndexOf(p + [c] + t, c) == Some(|p|)
  {
    assert (p + [c] + t)[|p|] == c;
  }

  /** Splitting what was joined with a separator no part holds gives the
      parts back. */
  lemma {:induction false} SplitJoin(parts: seq<string>, c: char)
    requires |parts| > 0 && forall k | 0 <= k < |parts| :: c !in parts[k]
    ensures Split(Join(parts, [c]), c) == parts
    decreases |parts|
  {
    if |parts| > 1 {
      var rest := parts[1..];
      assert parts == [parts[0]] + rest;
      JoinCons(parts[0], rest, [c]);
      IndexAfter(parts[0], c, Join(rest, [c]));
      var s := parts[0] + [c] + Join(rest, [c]);
      assert s[..|parts[0]|] == parts[0] && s[|parts[0]| + 1..] == Join(rest, [c]);
      SplitJoin(rest, c);
    } else {
      assert IndexOf(parts[0], c).None?;
    }
  }
}
