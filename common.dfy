/** Small helpers shared by every part of the model: an optional value,
    integer clamps, ASCII string operations standing in for JavaScript's
    string methods, and an order-preserving filter. */
module Common {

  datatype Option<+T> = None | Some(value: T) {
    function GetOr(default: T): T {
      match this
      case Some(v) => v
      case None => default
    }
  }

  function Max(a: int, b: int): int { if a >= b then a else b }
  function Min(a: int, b: int): int { if a <= b then a else b }

  // ---------------------------------------------------------------------------
  // Strings (ASCII stand-ins for JavaScript's trim / toLowerCase / includes ...)
  // ---------------------------------------------------------------------------

  /** The whitespace that `String.prototype.trim` removes, restricted to ASCII. */
  predicate IsSpace(c: char) {
    c == ' ' || c == '\t' || c == '\n' || c == '\r' || c == '\U{000B}' || c == '\U{000C}'
  }

  /** The number of whitespace characters `s` starts with. */
  function LeadingSpaces(s: string): (n: nat)
    ensures n <= |s|
    ensures forall i :: 0 <= i < n ==> IsSpace(s[i])
    ensures n < |s| ==> !IsSpace(s[n])
  {
    if s == [] || !IsSpace(s[0]) then 0
    else
      var n := LeadingSpaces(s[1..]);
      assert forall i :: 1 <= i <= n && i < |s| ==> s[i] == s[1..][i - 1];
      1 + n
  }

  /** Where `s[lo..hi]` ends once its trailing whitespace is dropped. */
  function TrimmedEnd(s: string, lo: nat, hi: nat): (e: nat)
    requires lo <= hi <= |s|
    ensures lo <= e <= hi
    ensures forall i :: e <= i < hi ==> IsSpace(s[i])
    ensures lo < e ==> !IsSpace(s[e - 1])
    decreases hi
  {
    if lo < hi && IsSpace(s[hi - 1]) then TrimmedEnd(s, lo, hi - 1) else hi
  }

  /** `r` occurs in `s` starting at position `i`. */
  predicate InfixAt(r: string, s: string, i: int) {
    0 <= i && i + |r| <= |s| && s[i..i + |r|] == r
  }

  /** `s.trim()`: the characters between the leading and the trailing whitespace. */
  function Trim(s: string): (r: string)
    ensures |r| <= |s|
    ensures r == [] || (!IsSpace(r[0]) && !IsSpace(r[|r| - 1]))
  {
    var lo := LeadingSpaces(s);
    s[lo..TrimmedEnd(s, lo, |s|)]
  }

  /** Trimming keeps a contiguous slice of `s` and removes only whitespace
      before and after it. */
  lemma TrimIsSlice(s: string)
    ensures var lo := LeadingSpaces(s);
      && InfixAt(Trim(s), s, lo)
      && (forall i :: 0 <= i < lo ==> IsSpace(s[i]))
      && (forall i :: lo + |Trim(s)| <= i < |s| ==> IsSpace(s[i]))
  {
  }

  /** Trimming leaves nothing exactly when every character is whitespace. */
  lemma TrimEmptyIff(s: string)
    ensures Trim(s) == [] <==> forall i :: 0 <= i < |s| ==> IsSpace(s[i])
  {
  }

  function LowerChar(c: char): char {
    if 'A' <= c <= 'Z' then ((c as int) + 32) as char else c
  }

  function UpperChar(c: char): char {
    if 'a' <= c <= 'z' then ((c as int) - 32) as char else c
  }

  /** `s.toLowerCase()` on ASCII letters. */
  function Lower(s: string): (r: string)
    ensures |r| == |s| && forall i :: 0 <= i < |s| ==> r[i] == LowerChar(s[i])
  {
    if s == [] then [] else [LowerChar(s[0])] + Lower(s[1..])
  }

  /** `s.toUpperCase()` on ASCII letters. */
  function Upper(s: string): (r: string)
    ensures |r| == |s| && forall i :: 0 <= i < |s| ==> r[i] == UpperChar(s[i])
  {
    if s == [] then [] else [UpperChar(s[0])] + Upper(s[1..])
  }

  /** The UTF-16 code units of one character: a character outside the Basic
      Multilingual Plane is a surrogate pair, anything else one unit. */
  function Utf16Units(c: char): nat {
    if c as int > 0xFFFF then 2 else 1
  }

  /** JavaScript's `s.length`, which counts UTF-16 code units, not characters. */
  function Utf16Length(s: string): (n: nat)
    ensures |s| <= n <= 2 * |s|
  {
    if s == [] then 0 else Utf16Units(s[0]) + Utf16Length(s[1..])
  }

  /** On the Basic Multilingual Plane `length` is the number of characters. */
  lemma {:induction false} Utf16LengthBmp(s: string)
    requires forall i :: 0 <= i < |s| ==> s[i] as int <= 0xFFFF
    ensures Utf16Length(s) == |s|
  {
    if s != [] {
      assert forall i :: 0 <= i < |s[1..]| ==> s[1..][i] == s[i + 1];
      Utf16LengthBmp(s[1..]);
    }
  }

  /** Characters outside the Basic Multilingual Plane count twice. */
  lemma {:induction false} Utf16LengthAstral(s: string)
    requires forall i :: 0 <= i < |s| ==> s[i] as int > 0xFFFF
    ensures Utf16Length(s) == 2 * |s|
  {
    if s != [] {
      assert forall i :: 0 <= i < |s[1..]| ==> s[1..][i] == s[i + 1];
      Utf16LengthAstral(s[1..]);
    }
  }

  predicate StartsWith(s: string, prefix: string) {
    |prefix| <= |s| && s[..|prefix|] == prefix
  }

  /** `s.includes(sub)`, computed by scanning the start positions. */
  function Contains(s: string, sub: string): bool {
    if StartsWith(s, sub) then true
    else if s == [] then false
    else Contains(s[1..], sub)
  }

  /** The scan finds `sub` exactly when it occurs at some position of `s`. */
  lemma {:induction false} ContainsIff(s: string, sub: string)
    ensures Contains(s, sub) <==> exists i :: InfixAt(sub, s, i)
  {
    if StartsWith(s, sub) {
      assert InfixAt(sub, s, 0);
    } else if s != [] {
      ContainsIff(s[1..], sub);
      assert forall i :: InfixAt(sub, s, i) && i >= 1 ==> InfixAt(sub, s[1..], i - 1);
      assert forall i :: InfixAt(sub, s[1..], i) ==> InfixAt(sub, s, i + 1);
    }
  }

  /** `column?.toLowerCase().includes(q.toLowerCase())`, and the ORM's
      `contains` with `mode: "insensitive"`: a null column never matches. */
  predicate ContainsIgnoringCase(column: Option<string>, q: string) {
    column.Some? && Contains(Lower(column.value), Lower(q))
  }

  /** The last element of `s.split(sep)`: the text after the last `sep`,
      or the whole string when `sep` does not occur. */
  function LastSegment(s: string, sep: char): (r: string)
    ensures |r| <= |s| && r == s[|s| - |r|..]
    ensures sep !in r
    ensures |r| < |s| ==> s[|s| - |r| - 1] == sep
  {
    if s == [] then []
    else if s[|s| - 1] == sep then []
    else LastSegment(s[..|s| - 1], sep) + [s[|s| - 1]]
  }

  /** Whatever precedes the last separator, the last segment is what follows it. */
  lemma {:induction false} LastSegmentAfter(prefix: string, sep: char, last: string)
    requires sep !in last
    ensures LastSegment(prefix + [sep] + last, sep) == last
  {
    if last != [] {
      var s := prefix + [sep] + last;
      assert s[..|s| - 1] == prefix + [sep] + last[..|last| - 1];
      LastSegmentAfter(prefix, sep, last[..|last| - 1]);
      assert last == last[..|last| - 1] + [last[|last| - 1]];
    } else {
      assert prefix + [sep] + last == prefix + [sep];
    }
  }

  /** A file path `prefix + middle + sep + last` starts with `prefix` and
      ends in the segment `last`. */
  lemma JoinedPath(prefix: string, middle: string, sep: char, last: string)
    requires sep !in last
    ensures StartsWith(prefix + middle + [sep] + last, prefix)
    ensures LastSegment(prefix + middle + [sep] + last, sep) == last
  {
    var s := prefix + middle + [sep] + last;
    assert s[..|prefix|] == prefix;
    LastSegmentAfter(prefix + middle, sep, last);
  }

  // ---------------------------------------------------------------------------
  // Sequences
  // ---------------------------------------------------------------------------

  /** `s.map(x => same(x) ? y : x)`: every element `same` picks is replaced
      by `y`, the others stay where they are. */
  function ReplaceWhere<T>(s: seq<T>, same: T -> bool, y: T): (r: seq<T>)
    ensures |r| == |s|
    ensures forall i :: 0 <= i < |r| ==> r[i] == if same(s[i]) then y else s[i]
  {
    if s == [] then [] else [if same(s[0]) then y else s[0]] + ReplaceWhere(s[1..], same, y)
  }

  /** `xs.filter(p)`. */
  function Filter<T>(s: seq<T>, p: T -> bool): (r: seq<T>)
    ensures |r| <= |s|
    ensures forall i :: 0 <= i < |r| ==> p(r[i])
    ensures forall i :: 0 <= i < |r| ==> r[i] in s
    ensures forall i :: 0 <= i < |s| && p(s[i]) ==> s[i] in r
  {
    if s == [] then [] else (if p(s[0]) then [s[0]] else []) + Filter(s[1..], p)
  }

  /** `r` is obtained from `s` by deleting elements: order is preserved. */
  predicate IsSubsequence<T(==)>(r: seq<T>, s: seq<T>)
    decreases |s|
  {
    if r == [] then true
    else if s == [] then false
    else if r[0] == s[0] then IsSubsequence(r[1..], s[1..])
    else IsSubsequence(r, s[1..])
  }

  lemma {:induction false} FilterIsSubsequence<T>(s: seq<T>, p: T -> bool)
    ensures IsSubsequence(Filter(s, p), s)
  {
    if s != [] {
      FilterIsSubsequence(s[1..], p);
      var rest := Filter(s[1..], p);
      if p(s[0]) {
        assert Filter(s, p) == [s[0]] + rest;
        assert Filter(s, p)[1..] == rest;
      } else {
        assert Filter(s, p) == rest;
        // a kept element satisfies p, so it cannot be the rejected head
        assert rest != [] ==> rest[0] != s[0];
      }
    }
  }

  /** Filtering with a predicate that accepts everything changes nothing. */
  lemma {:induction false} FilterAll<T>(s: seq<T>, p: T -> bool)
    requires forall x :: x in s ==> p(x)
    ensures Filter(s, p) == s
  {
    if s != [] {
      FilterAll(s[1..], p);
    }
  }

  lemma {:induction false} FilterConcat<T>(a: seq<T>, b: seq<T>, p: T -> bool)
    ensures Filter(a + b, p) == Filter(a, p) + Filter(b, p)
  {
    if a != [] {
      assert (a + b)[1..] == a[1..] + b;
      FilterConcat(a[1..], b, p);
    } else {
      assert a + b == b;
    }
  }

  /** Filters by conditions that agree on every element give the same result. */
  lemma {:induction false} FilterCongruent<T>(s: seq<T>, p: T -> bool, q: T -> bool)
    requires forall i :: 0 <= i < |s| ==> p(s[i]) == q(s[i])
    ensures Filter(s, p) == Filter(s, q)
  {
    if s != [] {
      FilterCongruent(s[1..], p, q);
    }
  }

  /** The number of elements satisfying `p` (`xs.filter(p).length`,
      or an ORM `count` with a `where`), counted from the end. */
  function Count<T>(s: seq<T>, p: T -> bool): (n: nat)
    ensures n <= |s|
  {
    if s == [] then 0 else Count(s[..|s| - 1], p) + (if p(s[|s| - 1]) then 1 else 0)
  }

  /** Counting agrees with the length of the filtered sequence. */
  lemma {:induction false} CountIsFilterLength<T>(s: seq<T>, p: T -> bool)
    ensures Count(s, p) == |Filter(s, p)|
  {
    if s != [] {
      var init, last := s[..|s| - 1], s[|s| - 1];
      assert s == init + [last];
      CountIsFilterLength(init, p);
      FilterConcat(init, [last], p);
      assert Filter([last], p) == if p(last) then [last] else [];
    }
  }

  /** Counting a weaker condition never gives less. */
  lemma {:induction false} CountMonotone<T>(s: seq<T>, p: T -> bool, q: T -> bool)
    requires forall i :: 0 <= i < |s| && p(s[i]) ==> q(s[i])
    ensures Count(s, p) <= Count(s, q)
  {
    if s != [] {
      CountMonotone(s[..|s| - 1], p, q);
    }
  }

  /** Replacing one element changes the count by what the two elements contribute. */
  lemma {:induction false} CountUpdate<T>(s: seq<T>, k: nat, x: T, p: T -> bool)
    requires k < |s|
    ensures Count(s[k := x], p) + (if p(s[k]) then 1 else 0) == Count(s, p) + (if p(x) then 1 else 0)
  {
    var t := s[k := x];
    if k == |s| - 1 {
      assert t[..|t| - 1] == s[..|s| - 1];
    } else {
      assert t[..|t| - 1] == s[..|s| - 1][k := x];
      CountUpdate(s[..|s| - 1], k, x, p);
    }
  }

  /** Decimal digits of `n`, as JavaScript prints a non-negative integer. */
  function NatToString(n: nat): (r: string)
    ensures |r| >= 1
    ensures forall i :: 0 <= i < |r| ==> '0' <= r[i] <= '9'
  {
    var d := ['0' + (n % 10) as char];
    if n < 10 then d else NatToString(n / 10) + d
  }

  /** The number a string of decimal digits denotes: its last digit plus ten
      times the number the rest denotes. */
  function DigitsValue(s: string): nat
    requires forall i :: 0 <= i < |s| ==> '0' <= s[i] <= '9'
  {
    if s == [] then 0
    else
      var rest := s[..|s| - 1];
      assert forall i :: 0 <= i < |rest| ==> rest[i] == s[i];
      10 * DigitsValue(rest) + (s[|s| - 1] - '0') as nat
  }

  /** `NatToString` prints the number itself, with no leading zero. */
  lemma {:induction false} NatToStringValue(n: nat)
    ensures DigitsValue(NatToString(n)) == n
    ensures |NatToString(n)| > 1 ==> NatToString(n)[0] != '0'
    decreases n
  {
    var d := ['0' + (n % 10) as char];
    if n >= 10 {
      NatToStringValue(n / 10);
      var r := NatToString(n);
      assert r == NatToString(n / 10) + d;
      assert r[..|r| - 1] == NatToString(n / 10);
      if |NatToString(n / 10)| == 1 {
        assert DigitsValue(NatToString(n / 10)) == (NatToString(n / 10)[0] - '0') as nat;
      }
    }
  }

  lemma {:induction false} CountConcat<T>(a: seq<T>, b: seq<T>, p: T -> bool)
    ensures Count(a + b, p) == Count(a, p) + Count(b, p)
    decreases |b|
  {
    if b == [] {
      assert a + b == a;
    } else {
      var init := b[..|b| - 1];
      assert (a + b)[..|a + b| - 1] == a + init;
      CountConcat(a, init, p);
    }
  }

  /** Counting by conditions that agree position by position gives the same number. */
  lemma {:induction false} CountPointwise<T, U>(a: seq<T>, p: T -> bool, b: seq<U>, q: U -> bool)
    requires |a| == |b|
    requires forall i :: 0 <= i < |a| ==> (p(a[i]) <==> q(b[i]))
    ensures Count(a, p) == Count(b, q)
  {
    if a != [] {
      CountPointwise(a[..|a| - 1], p, b[..|b| - 1], q);
    }
  }
}
