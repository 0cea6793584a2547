/** String helpers standing for the JavaScript built-ins the bot relies on
    (`toLowerCase`, `trim`, `includes`, `startsWith`, `split`, `join`). */
module Strings {

  /** The characters JavaScript's `trim` and the regex class `\s` treat as white space. */
  predicate IsSpace(c: char)
  {
    c == ' ' || c == '\t' || c == '\n' || c == '\r' || c == '\U{B}' || c == '\U{C}'
    || c == '\U{A0}' || c == '\U{1680}' || ('\U{2000}' <= c <= '\U{200A}')
    || c == '\U{2028}' || c == '\U{2029}' || c == '\U{202F}' || c == '\U{205F}'
    || c == '\U{3000}' || c == '\U{FEFF}'
  }

  /** `\d` in a JavaScript regex: the ASCII digits only. */
  predicate IsDigit(c: char)
  {
    '0' <= c <= '9'
  }

  function LowerChar(c: char): (r: char)
    ensures 'A' <= c <= 'Z' ==> 'a' <= r <= 'z'
    ensures !('A' <= c <= 'Z') ==> r == c
  {
    if 'A' <= c <= 'Z' then (c as int - 'A' as int + 'a' as int) as char else c
  }

  /** `toLowerCase`, restricted to the ASCII letters. */
  function ToLower(s: string): (r: string)
    ensures |r| == |s|
    ensures forall i :: 0 <= i < |s| ==> r[i] == LowerChar(s[i])
  {
    if s == [] then [] else [LowerChar(s[0])] + ToLower(s[1..])
  }

  function TrimStart(s: string): (r: string)
    ensures r == [] || !IsSpace(r[0])
    ensures |r| <= |s| && r == s[|s| - |r|..]
  {
    if s != [] && IsSpace(s[0]) then TrimStart(s[1..]) else s
  }

  function TrimEnd(s: string): (r: string)
    ensures r == [] || !IsSpace(r[|r| - 1])
    ensures |r| <= |s| && r == s[..|r|]
  {
    if s != [] && IsSpace(s[|s| - 1]) then TrimEnd(s[..|s| - 1]) else s
  }

  /** `trim`: the input without leading and trailing white space. */
  function Trim(s: string): (r: string)
    ensures r == [] || (!IsSpace(r[0]) && !IsSpace(r[|r| - 1]))
    ensures |r| <= |s|
  {
    TrimEnd(TrimStart(s))
  }

  /** Trimming adds no character. */
  lemma TrimAddsNothing(s: string, c: char)
    requires c !in s
    ensures c !in Trim(s)
  {
    var t := TrimStart(s);
    assert t == s[|s| - |t|..];
    assert Trim(s) == t[..|Trim(s)|];
  }

  /** `sub` appears in `s` starting at index `k`. */
  predicate OccursAt(s: string, sub: string, k: int)
  {
    0 <= k && k + |sub| <= |s| && s[k..k + |sub|] == sub
  }

  /** `s.includes(sub)`. */
  predicate Contains(s: string, sub: string)
  {
    exists k :: 0 <= k <= |s| && OccursAt(s, sub, k)
  }

  /** `s.startsWith(p)`. */
  predicate StartsWith(s: string, p: string)
  {
    |p| <= |s| && s[..|p|] == p
  }

  lemma ContainsConcat(a: string, b: string, c: string)
    ensures Contains(a + b + c, b)
  {
    var s := a + b + c;
    assert s[|a|..|a| + |b|] == b;
    assert OccursAt(s, b, |a|);
  }

  lemma ContainsPrefix(s: string, t: string, sub: string)
    requires Contains(s, sub)
    ensures Contains(s + t, sub)
  {
    var k :| 0 <= k <= |s| && OccursAt(s, sub, k);
    assert (s + t)[k..k + |sub|] == sub;
    assert OccursAt(s + t, sub, k);
  }

  /** `s.split(c)` for a one-character separator: never empty, like JavaScript's. */
  function Split(s: string, c: char): (parts: seq<string>)
    ensures |parts| >= 1
    ensures c !in s ==> parts == [s]
  {
    if s == [] then [""]
    else
      var rest := Split(s[1..], c);
      if s[0] == c then [""] + rest
      else
        assert c !in s ==> s == [s[0]] + s[1..];
        [[s[0]] + rest[0]] + rest[1..]
  }

  /** No piece contains the separator. */
  lemma {:induction false} SplitPiecesLackSeparator(s: string, c: char)
    ensures forall i :: 0 <= i < |Split(s, c)| ==> c !in Split(s, c)[i]
  {
    if s != [] {
      SplitPiecesLackSeparator(s[1..], c);
    }
  }

  /** A separator in the input gives at least two pieces. */
  lemma {:induction false} SplitAtSeparator(s: string, c: char)
    requires c in s
    ensures |Split(s, c)| >= 2
  {
    if s[0] != c {
      SplitAtSeparator(s[1..], c);
    }
  }

  /** `parts.join(sep)`. */
  function Join(parts: seq<string>, sep: string): string
  {
    if parts == [] then ""
    else if |parts| == 1 then parts[0]
    else parts[0] + sep + Join(parts[1..], sep)
  }

  /** `.map(x => x.trim())`. */
  function TrimAll(parts: seq<string>): (r: seq<string>)
    ensures |r| == |parts|
    ensures forall i :: 0 <= i < |parts| ==> r[i] == Trim(parts[i])
  {
    if parts == [] then [] else [Trim(parts[0])] + TrimAll(parts[1..])
  }

  /** `s.split(c).map(x => x.trim())`: the pieces between separators, each trimmed. */
  function TrimmedPieces(s: string, c: char): (r: seq<string>)
    ensures |r| >= 1
    ensures c !in s ==> r == [Trim(s)]
  {
    TrimAll(Split(s, c))
  }

  /** `.filter(Boolean)` on strings: drops the empty ones, keeps the order. */
  function NonEmpty(parts: seq<string>): (r: seq<string>)
    ensures |r| <= |parts|
    ensures forall x :: x in r <==> x in parts && x != ""
  {
    if parts == [] then []
    else if parts[0] == "" then NonEmpty(parts[1..])
    else [parts[0]] + NonEmpty(parts[1..])
  }

  /** `s.replace(/\D/g, '')`: the digits of `s`, in order. */
  function DigitsOnly(s: string): (r: string)
    ensures |r| <= |s|
    ensures forall i :: 0 <= i < |r| ==> IsDigit(r[i])
  {
    if s == [] then []
    else if IsDigit(s[0]) then [s[0]] + DigitsOnly(s[1..])
    else DigitsOnly(s[1..])
  }

  lemma {:induction false} DigitsOnlyConcat(a: string, b: string)
    ensures DigitsOnly(a + b) == DigitsOnly(a) + DigitsOnly(b)
  {
    if a != [] {
      var ab := a + b;
      assert ab[0] == a[0] && ab[1..] == a[1..] + b;
      DigitsOnlyConcat(a[1..], b);
      if IsDigit(a[0]) {
        assert DigitsOnly(ab) == [a[0]] + DigitsOnly(a[1..] + b);
      } else {
        assert DigitsOnly(ab) == DigitsOnly(a[1..] + b);
      }
    } else {
      assert a + b == b;
    }
  }

  /** Stripping the non-digits of a string that has none leaves it as it is. */
  lemma {:induction false} DigitsOnlyKeepsDigits(s: string)
    requires forall i :: 0 <= i < |s| ==> IsDigit(s[i])
    ensures DigitsOnly(s) == s
  {
    if s != [] {
      DigitsOnlyKeepsDigits(s[1..]);
    }
  }

  /** `s.replace(/x/g, y)` for single characters. */
  function ReplaceChar(s: string, x: char, y: char): (r: string)
    ensures |r| == |s|
    ensures forall i :: 0 <= i < |s| ==> r[i] == if s[i] == x then y else s[i]
  {
    if s == [] then [] else [if s[0] == x then y else s[0]] + ReplaceChar(s[1..], x, y)
  }

  /** `s.replace(x, '')` with a one-character string pattern: only the first occurrence goes. */
  function RemoveFirst(s: string, x: char): (r: string)
    ensures x in s ==> |r| == |s| - 1
    ensures x !in s ==> r == s
  {
    if s == [] then []
    else if s[0] == x then s[1..]
    else [s[0]] + RemoveFirst(s[1..], x)
  }

  /** Removes every character of `s` that belongs to `xs`. */
  function RemoveAll(s: string, xs: set<char>): (r: string)
    ensures forall c :: c in r ==> c in s && c !in xs
  {
    if s == [] then []
    else if s[0] in xs then RemoveAll(s[1..], xs)
    else [s[0]] + RemoveAll(s[1..], xs)
  }

  /** `s.substring(0, n)`. */
  function Take(s: string, n: nat): (r: string)
    ensures |r| == if |s| < n then |s| else n
    ensures StartsWith(s, r)
  {
    if |s| <= n then s else s[..n]
  }

  /** The last element of `s.split(/\s+/)` for a trimmed `s`: its last run of
      non-space characters. */
  function LastWord(s: string): (r: string)
    ensures forall c :: c in r ==> !IsSpace(c)
    ensures |r| <= |s| && r == s[|s| - |r|..]
  {
    if s == [] || IsSpace(s[|s| - 1]) then []
    else LastWord(s[..|s| - 1]) + [s[|s| - 1]]
  }

  function DigitChar(d: nat): (c: char)
    requires d < 10
    ensures IsDigit(c)
  {
    ('0' as int + d) as char
  }

  /** Decimal rendering of a natural number, as template literals print it. */
  function NatToString(n: nat): (r: string)
    ensures r != []
    ensures forall i :: 0 <= i < |r| ==> IsDigit(r[i])
  {
    if n < 10 then [DigitChar(n)] else NatToString(n / 10) + [DigitChar(n % 10)]
  }
}
