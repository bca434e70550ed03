/**
 * The few Python `str` operations the program relies on, on `string` (a sequence of
 * Unicode scalar values, which is how Python indexes a `str`).
 */
module Text {
  import opened Common

  /** The characters for which Python's `str.isspace()` holds; `str.strip()` and the
      regular-expression class `\s` both use this set. */
  predicate IsSpace(c: char) {
    || c == ' '
    || ('\t' <= c <= '\r')
    || ('\U{1C}' <= c <= '\U{1F}')
    || c == '\U{85}' || c == '\U{A0}' || c == '\U{1680}'
    || ('\U{2000}' <= c <= '\U{200A}')
    || c == '\U{2028}' || c == '\U{2029}' || c == '\U{202F}' || c == '\U{205F}' || c == '\U{3000}'
  }

  predicate AllSpace(s: string) {
    forall i | 0 <= i < |s| :: IsSpace(s[i])
  }

  /** A string with no whitespace at either end, as `str.strip()` leaves it. */
  predicate IsStripped(s: string) {
    s == [] || (!IsSpace(s[0]) && !IsSpace(s[|s| - 1]))
  }

  /** `s` without its trailing whitespace. */
  function StripEnd(s: string): (r: string)
    ensures |r| <= |s| && r == s[..|r|]
    ensures r == [] || !IsSpace(r[|r| - 1])
  {
    if |s| > 0 && IsSpace(s[|s| - 1]) then StripEnd(s[..|s| - 1]) else s
  }

  /** Python's `s.strip()`: `s` with the whitespace runs at both ends removed. */
  function Strip(s: string): (r: string)
    ensures |r| <= |s|
    ensures IsStripped(r)
  {
    if |s| > 0 && IsSpace(s[0]) then Strip(s[1..])
    else
      var r := StripEnd(s);
      assert r != [] ==> r[0] == s[0];
      r
  }

  /** A whitespace prefix is removed, and only the end of the rest is left to strip. */
  lemma {:induction false} StripStartOf(a: string, rest: string)
    requires AllSpace(a) && (rest == [] || !IsSpace(rest[0]))
    ensures Strip(a + rest) == StripEnd(rest)
  {
    if |a| == 0 {
      assert a + rest == rest;
    } else {
      assert (a + rest)[0] == a[0];
      assert (a + rest)[1..] == a[1..] + rest;
      StripStartOf(a[1..], rest);
    }
  }

  /** A whitespace suffix is exactly what `StripEnd` removes. */
  lemma {:induction false} StripEndOf(rest: string, c: string)
    requires AllSpace(c) && (rest == [] || !IsSpace(rest[|rest| - 1]))
    ensures StripEnd(rest + c) == rest
  {
    if |c| == 0 {
      assert rest + c == rest;
    } else {
      var s := rest + c;
      assert s[|s| - 1] == c[|c| - 1];
      assert s[..|s| - 1] == rest + c[..|c| - 1];
      StripEndOf(rest, c[..|c| - 1]);
    }
  }

  /** Stripping is idempotent: a stripped string is left as it is. */
  lemma StripStripped(s: string)
    requires IsStripped(s)
    ensures Strip(s) == s
  {
    StripStartOf([], s);
    StripEndOf(s, []);
    assert [] + s == s && s + [] == s;
  }

  lemma StripIdempotent(s: string)
    ensures Strip(Strip(s)) == Strip(s)
  {
    StripStripped(Strip(s));
  }

  /** A string of whitespace strips to the empty string. */
  lemma StripAllSpace(s: string)
    requires AllSpace(s)
    ensures Strip(s) == []
  {
    StripStartOf(s, []);
    assert s + [] == s;
  }

  /** Whitespace around a stripped string is exactly what `strip()` removes. */
  lemma StripSurrounded(a: string, body: string, c: string)
    requires AllSpace(a) && AllSpace(c) && IsStripped(body)
    ensures Strip(a + body + c) == body
  {
    var s := a + body + c;
    if |body| == 0 {
      assert s == a + c;
      assert AllSpace(s) by {
        forall i | 0 <= i < |s| ensures IsSpace(s[i]) {
          if i < |a| { assert s[i] == a[i]; } else { assert s[i] == c[i - |a|]; }
        }
      }
      StripAllSpace(s);
    } else {
      assert s == a + (body + c);
      StripStartOf(a, body + c);
      StripEndOf(body, c);
    }
  }

  function StartsWith(s: string, prefix: string): bool {
    |prefix| <= |s| && s[..|prefix|] == prefix
  }

  predicate OccursAt(s: string, pat: string, k: int) {
    0 <= k && k + |pat| <= |s| && s[k..k + |pat|] == pat
  }

  /** Python's `s.find(pat, start)` with -1 read as `None`: the first occurrence at or after `start`. */
  function FindFrom(s: string, pat: string, start: nat): (r: Option<nat>)
    ensures r.Some? ==> start <= r.value && OccursAt(s, pat, r.value)
    ensures forall k | start <= k && (r.None? || k < r.value) :: !OccursAt(s, pat, k)
    decreases |s| - start
  {
    if start + |pat| > |s| then None
    else if s[start..start + |pat|] == pat then Some(start)
    else FindFrom(s, pat, start + 1)
  }

  /** Python's `s.find(pat)`: the first occurrence. */
  function Find(s: string, pat: string): Option<nat> {
    FindFrom(s, pat, 0)
  }

  /** Python's `pat in s`. */
  predicate Contains(s: string, pat: string) {
    Find(s, pat).Some?
  }

  lemma ContainsAt(s: string, pat: string, k: int)
    requires OccursAt(s, pat, k)
    ensures Contains(s, pat)
  {
  }

  /** The occurrence at `q` is the first one at or after `start` when none lies between. */
  lemma FindFromFirst(s: string, pat: string, start: nat, q: nat)
    requires start <= q && OccursAt(s, pat, q)
    requires forall k | start <= k < q :: !OccursAt(s, pat, k)
    ensures FindFrom(s, pat, start) == Some(q)
  {
  }

  /** Skipping positions where `pat` does not occur leaves the search result unchanged. */
  lemma FindFromSkip(s: string, pat: string, a: nat, b: nat)
    requires a <= b
    requires forall k | a <= k < b :: !OccursAt(s, pat, k)
    ensures FindFrom(s, pat, a) == FindFrom(s, pat, b)
  {
  }

  /** Python's `s.rfind(c)` for one character, with -1 read as `None`: the last occurrence. */
  function RFindChar(s: string, c: char): (r: Option<nat>)
    ensures r.Some? ==> r.value < |s| && s[r.value] == c
    ensures r.Some? ==> forall k | r.value < k < |s| :: s[k] != c
    ensures r.None? ==> forall k | 0 <= k < |s| :: s[k] != c
  {
    if |s| == 0 then None
    else if s[|s| - 1] == c then Some(|s| - 1)
    else RFindChar(s[..|s| - 1], c)
  }

  /** Python's `s[a:b]` for indices inside the string: empty when `b` lies before `a`. */
  function Slice(s: string, a: nat, b: nat): string
    requires a <= |s| && b <= |s|
  {
    if a <= b then s[a..b] else []
  }

  /** Python's `s.replace(pat, "")`: every occurrence found by a left-to-right scan is
      deleted, and the scan resumes after the deleted text. */
  function RemoveAll(s: string, pat: string): (r: string)
    ensures |r| <= |s|
    decreases |s|
  {
    if |pat| == 0 || |s| < |pat| then s
    else if s[..|pat|] == pat then RemoveAll(s[|pat|..], pat)
    else [s[0]] + RemoveAll(s[1..], pat)
  }

  /** A leading occurrence is deleted and the scan goes on with the rest. */
  lemma RemoveAllPrefix(pat: string, s: string)
    requires |pat| > 0
    ensures RemoveAll(pat + s, pat) == RemoveAll(s, pat)
  {
    assert (pat + s)[..|pat|] == pat;
    assert (pat + s)[|pat|..] == s;
  }

  /** Text that does not contain the first character of `pat` is left unchanged. */
  lemma {:induction false} RemoveAllAbsent(s: string, pat: string)
    requires |pat| > 0
    requires forall i | 0 <= i < |s| :: s[i] != pat[0]
    ensures RemoveAll(s, pat) == s
  {
    if |s| < |pat| {
    } else {
      assert s[..|pat|][0] == s[0];
      RemoveAllAbsent(s[1..], pat);
      assert s == [s[0]] + s[1..];
    }
  }

  /** Python's `sep.join(parts)`. */
  function Join(sep: string, parts: seq<string>): string {
    if |parts| == 0 then ""
    else if |parts| == 1 then parts[0]
    else parts[0] + sep + Join(sep, parts[1..])
  }

  function DigitChar(d: nat): char
    requires d < 10
  {
    "0123456789"[d]
  }

  /** Python's `str(n)` for a non-negative integer. */
  function NatToString(n: nat): (r: string)
    ensures |r| > 0
    ensures forall i | 0 <= i < |r| :: '0' <= r[i] <= '9'
  {
    if n < 10 then [DigitChar(n)] else NatToString(n / 10) + [DigitChar(n % 10)]
  }

  /** Python's `str(i)` for an integer. */
  function IntToString(i: int): string {
    if i < 0 then "-" + NatToString(-i) else NatToString(i)
  }

  /** A character of a lower-case hexadecimal digest, as `hexdigest()` produces. */
  predicate IsHexDigit(c: char) {
    ('0' <= c <= '9') || ('a' <= c <= 'f')
  }
}
