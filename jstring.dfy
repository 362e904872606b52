/** The java.lang.String and java.util.regex operations the generators use,
    stated over Dafny strings (sequences of chars). Upper- and lower-casing
    are modelled for the ASCII letters only. */
module JavaString {

  /** A character matched by the regular expression `\s`. */
  predicate IsSpace(c: char) {
    c == ' ' || c == '\t' || c == '\n' || c == '\U{000B}' || c == '\U{000C}' || c == '\r'
  }

  /** A character the regular expression `.` does not match. */
  predicate IsLineTerminator(c: char) {
    c == '\n' || c == '\r' || c == '\U{0085}' || c == '\U{2028}' || c == '\U{2029}'
  }

  predicate NoSpace(s: string) {
    forall i :: 0 <= i < |s| ==> !IsSpace(s[i])
  }

  /** `s.replaceAll("\\s", "")`: every whitespace character removed. */
  function StripWhitespace(s: string): (r: string)
    ensures |r| <= |s|
    ensures NoSpace(r)
    ensures NoSpace(s) ==> r == s
  {
    if s == [] then []
    else (if IsSpace(s[0]) then [] else [s[0]]) + StripWhitespace(s[1..])
  }

  lemma {:induction false} StripWhitespaceConcat(a: string, b: string)
    ensures StripWhitespace(a + b) == StripWhitespace(a) + StripWhitespace(b)
    decreases |a|
  {
    if a == [] {
      assert a + b == b;
    } else {
      StripWhitespaceCons(a, b);
      StripWhitespaceConcat(a[1..], b);
      var h := if IsSpace(a[0]) then [] else [a[0]];
      AssocThree(h, StripWhitespace(a[1..]), StripWhitespace(b));
    }
  }

  lemma StripWhitespaceCons(a: string, b: string)
    requires a != []
    ensures StripWhitespace(a + b) == (if IsSpace(a[0]) then [] else [a[0]]) + StripWhitespace(a[1..] + b)
  {
    assert (a + b)[1..] == a[1..] + b;
  }

  lemma AssocThree<T>(x: seq<T>, y: seq<T>, z: seq<T>)
    ensures x + (y + z) == (x + y) + z
  {
  }

  lemma HeadTail<T>(xs: seq<T>)
    requires xs != []
    ensures xs == [xs[0]] + xs[1..]
  {
  }

  /** A prefix grown by the next element. */
  lemma TakeNext<T>(xs: seq<T>, i: nat)
    requires i < |xs|
    ensures xs[..i] + [xs[i]] == xs[..i + 1]
  {
  }

  /** Whitespace removal only drops characters. */
  lemma {:induction false} StripWhitespaceKeeps(s: string, c: char)
    requires c !in s
    ensures c !in StripWhitespace(s)
  {
    if s != [] {
      assert c !in s[1..];
      StripWhitespaceKeeps(s[1..], c);
    }
  }

  predicate StartsWith(s: string, prefix: string) {
    |prefix| <= |s| && s[..|prefix|] == prefix
  }

  /** Prefixes that differ at position k cannot both begin a string. */
  lemma PrefixesExclusive(s: string, a: string, b: string, k: nat)
    requires k < |a| && k < |b| && a[k] != b[k]
    ensures StartsWith(s, a) ==> !StartsWith(s, b)
  {
    if StartsWith(s, a) && |b| <= |s| {
      assert s[..|a|][k] == s[k] == s[..|b|][k];
    }
  }

  predicate EndsWith(s: string, suffix: string) {
    |suffix| <= |s| && s[|s| - |suffix|..] == suffix
  }

  /** `s.contains(t)`. */
  predicate Contains(s: string, t: string)
    decreases |s|
  {
    StartsWith(s, t) || (|s| > 0 && Contains(s[1..], t))
  }

  /** `s.replace(target, replacement)`: every occurrence of a non-empty
      target, taken left to right without overlap, replaced. */
  function Replace(s: string, target: string, replacement: string): (r: string)
    requires |target| > 0
    ensures !Contains(s, target) ==> r == s
    decreases |s|
  {
    if |s| < |target| then s
    else if s[..|target|] == target then replacement + Replace(s[|target|..], target, replacement)
    else [s[0]] + Replace(s[1..], target, replacement)
  }

  lemma {:induction false} ReplaceBySelf(s: string, target: string)
    requires |target| > 0
    ensures Replace(s, target, target) == s
    decreases |s|
  {
    if |s| < |target| {
    } else if s[..|target|] == target {
      ReplaceBySelf(s[|target|..], target);
      assert s == s[..|target|] + s[|target|..];
    } else {
      ReplaceBySelf(s[1..], target);
      assert s == [s[0]] + s[1..];
    }
  }

  /** A one-character string occurs exactly when its character does. */
  lemma {:induction false} ContainsChar(s: string, c: char)
    ensures Contains(s, [c]) <==> c in s
    decreases |s|
  {
    if s != [] {
      ContainsChar(s[1..], c);
      assert s == [s[0]] + s[1..];
    }
  }

  /** `s.indexOf(c)`. */
  function IndexOf(s: string, c: char): (r: int)
    ensures -1 <= r < |s|
    ensures r == -1 <==> c !in s
    ensures r >= 0 ==> s[r] == c && c !in s[..r]
    decreases |s|
  {
    if s == [] then -1
    else if s[0] == c then 0
    else
      var k := IndexOf(s[1..], c);
      assert s[1..][..(if k < 0 then 0 else k)] == s[1..(if k < 0 then 1 else k + 1)];
      if k < 0 then -1 else k + 1
  }

  /** `s.lastIndexOf(c)`. */
  function LastIndexOf(s: string, c: char): (r: int)
    ensures -1 <= r < |s|
    ensures r == -1 <==> c !in s
    ensures r >= 0 ==> s[r] == c && c !in s[r + 1..]
    decreases |s|
  {
    if s == [] then -1
    else if s[|s| - 1] == c then |s| - 1
    else
      var t := s[..|s| - 1];
      var k := LastIndexOf(t, c);
      assert s == t + [s[|s| - 1]];
      assert k >= 0 ==> s[k + 1..] == t[k + 1..] + [s[|s| - 1]];
      k
  }

  /** The pieces between the occurrences of c, trailing empty pieces kept. */
  function RawSplit(s: string, c: char): (r: seq<string>)
    ensures |r| >= 1
    ensures forall i :: 0 <= i < |r| ==> c !in r[i]
    decreases |s|
  {
    var k := IndexOf(s, c);
    if k < 0 then [s] else [s[..k]] + RawSplit(s[k + 1..], c)
  }

  /** The pieces put back together with c between them. */
  function Join(parts: seq<string>, c: char): string
  {
    if |parts| == 0 then []
    else if |parts| == 1 then parts[0]
    else parts[0] + [c] + Join(parts[1..], c)
  }

  lemma {:induction false} JoinRawSplit(s: string, c: char)
    ensures Join(RawSplit(s, c), c) == s
    decreases |s|
  {
    var k := IndexOf(s, c);
    if k >= 0 {
      var head, tail := s[..k], s[k + 1..];
      RawSplitAtFirst(s, c, k);
      JoinRawSplit(tail, c);
      JoinCons(head, RawSplit(tail, c), c);
      SplitAround(s, k);
    } else {
      assert RawSplit(s, c) == [s];
    }
  }

  lemma SplitAround(s: string, k: nat)
    requires k < |s|
    ensures s == s[..k] + [s[k]] + s[k + 1..]
  {
  }

  lemma JoinCons(head: string, rest: seq<string>, c: char)
    requires |rest| >= 1
    ensures Join([head] + rest, c) == head + [c] + Join(rest, c)
  {
    assert ([head] + rest)[1..] == rest;
  }

  /** Splitting at the first occurrence of c, found at k. */
  lemma RawSplitAtFirst(s: string, c: char, k: nat)
    requires k < |s| && s[k] == c && c !in s[..k]
    ensures RawSplit(s, c) == [s[..k]] + RawSplit(s[k + 1..], c)
  {
    IndexOfAt(s, c, k);
  }

  lemma {:induction false} RawSplitJoin(parts: seq<string>, c: char)
    requires |parts| >= 1
    requires forall i :: 0 <= i < |parts| ==> c !in parts[i]
    ensures RawSplit(Join(parts, c), c) == parts
  {
    if |parts| > 1 {
      var s := Join(parts, c);
      var rest := Join(parts[1..], c);
      assert s == parts[0] + [c] + rest;
      assert s[..|parts[0]|] == parts[0];
      assert s[|parts[0]|] == c;
      assert IndexOf(s, c) == |parts[0]| by {
        assert c !in s[..|parts[0]|];
      }
      assert s[|parts[0]| + 1..] == rest;
      RawSplitJoin(parts[1..], c);
    }
  }

  /** The first occurrence of c is at k when s[k] is c and no earlier character is. */
  lemma {:induction false} IndexOfAt(s: string, c: char, k: nat)
    requires k < |s| && s[k] == c && c !in s[..k]
    ensures IndexOf(s, c) == k
    decreases k
  {
    if k > 0 {
      assert s[0] == s[..k][0];
      assert s[1..][..k - 1] == s[1..k];
      assert s[1..k] == s[..k][1..];
      IndexOfAt(s[1..], c, k - 1);
    }
  }

  /** With no c in a, the first piece of a + [c] + b is a. */
  lemma SplitAtSeparator(a: string, c: char, b: string)
    requires c !in a
    ensures RawSplit(a + [c] + b, c) == [a] + RawSplit(b, c)
  {
    var s := a + [c] + b;
    assert s[..|a|] == a && s[|a|] == c && s[|a| + 1..] == b;
    RawSplitAtFirst(s, c, |a|);
  }

  /** With the first c of a at k, the first piece of a + [c] + b is a[..k]. */
  lemma SplitInsideLeft(a: string, c: char, b: string, k: nat)
    requires k < |a| && a[k] == c && c !in a[..k]
    ensures RawSplit(a + [c] + b, c) == [a[..k]] + RawSplit(a[k + 1..] + [c] + b, c)
  {
    var s := a + [c] + b;
    assert s[..k] == a[..k] && s[k] == c && s[k + 1..] == a[k + 1..] + [c] + b;
    RawSplitAtFirst(s, c, k);
  }

  /** Splitting at a separator placed between two texts splits each of them. */
  lemma {:induction false} RawSplitConcat(a: string, b: string, c: char)
    ensures RawSplit(a + [c] + b, c) == RawSplit(a, c) + RawSplit(b, c)
    decreases |a|
  {
    var k := IndexOf(a, c);
    if k >= 0 {
      var head, tail := a[..k], a[k + 1..];
      SplitInsideLeft(a, c, b, k);
      RawSplitConcat(tail, b, c);
      RawSplitAtFirst(a, c, k);
      AssocThree([head], RawSplit(tail, c), RawSplit(b, c));
    } else {
      SplitAtSeparator(a, c, b);
      RawSplitWhole(a, c);
    }
  }

  /** A text without c is a single piece. */
  lemma RawSplitWhole(s: string, c: char)
    requires c !in s
    ensures RawSplit(s, c) == [s]
  {
  }

  /** The pieces with their trailing empty strings removed. */
  function DropTrailingEmpty(parts: seq<string>): (r: seq<string>)
    ensures |r| <= |parts| && r == parts[..|r|]
    ensures r == [] || r[|r| - 1] != []
    ensures forall i :: |r| <= i < |parts| ==> parts[i] == []
  {
    if parts == [] then []
    else if parts[|parts| - 1] == [] then DropTrailingEmpty(parts[..|parts| - 1])
    else parts
  }

  /** `s.split(c)` for a separator c that is not a regular-expression
      metacharacter (or is escaped): when c does not occur the whole string is
      the only piece, otherwise trailing empty pieces are dropped. */
  function Split(s: string, c: char): (r: seq<string>)
    ensures c !in s ==> r == [s]
    ensures forall i :: 0 <= i < |r| ==> c !in r[i]
    ensures c in s && r != [] ==> r[|r| - 1] != []
  {
    if c !in s then [s] else DropTrailingEmpty(RawSplit(s, c))
  }

  lemma SplitJoin(fields: seq<string>, c: char)
    requires |fields| >= 2
    requires forall i :: 0 <= i < |fields| ==> c !in fields[i]
    requires fields[|fields| - 1] != []
    ensures Split(Join(fields, c), c) == fields
  {
    RawSplitJoin(fields, c);
    var s := Join(fields, c);
    assert s == fields[0] + [c] + Join(fields[1..], c);
    assert s[|fields[0]|] == c;
  }

  /** Two pieces around one separator split back into those pieces. */
  lemma SplitTwo(a: string, b: string, c: char)
    requires c !in a && c !in b && b != []
    ensures Split(a + [c] + b, c) == [a, b]
  {
    assert [a, b][1..] == [b];
    assert Join([a, b], c) == a + [c] + b;
    SplitJoin([a, b], c);
  }

  function LowerAscii(c: char): char {
    if 'A' <= c <= 'Z' then (c as int + 32) as char else c
  }

  function UpperAscii(c: char): char {
    if 'a' <= c <= 'z' then (c as int - 32) as char else c
  }

  function Lower(s: string): (r: string)
    ensures |r| == |s|
    ensures forall i :: 0 <= i < |s| ==> r[i] == LowerAscii(s[i])
  {
    if s == [] then [] else [LowerAscii(s[0])] + Lower(s[1..])
  }

  /** `a.equalsIgnoreCase(b)`, for ASCII letters. */
  predicate EqualsIgnoreCase(a: string, b: string) {
    |a| == |b| && forall i :: 0 <= i < |a| ==> LowerAscii(a[i]) == LowerAscii(b[i])
  }

  lemma EqualsIgnoreCaseIsLowerEquality(a: string, b: string)
    ensures EqualsIgnoreCase(a, b) <==> Lower(a) == Lower(b)
  {
    if Lower(a) == Lower(b) {
      assert |a| == |b|;
      forall i | 0 <= i < |a| ensures LowerAscii(a[i]) == LowerAscii(b[i]) {
        assert Lower(a)[i] == Lower(b)[i];
      }
    }
  }

  /** `s.substring(0, 1).toUpperCase() + s.substring(1)` for a non-empty s. */
  function UpperFirst(s: string): (r: string)
    requires |s| > 0
    ensures |r| == |s| && r[0] == UpperAscii(s[0]) && r[1..] == s[1..]
  {
    [UpperAscii(s[0])] + s[1..]
  }

  /** A character of the regular-expression class `\w`. */
  predicate IsWordChar(c: char) {
    'a' <= c <= 'z' || 'A' <= c <= 'Z' || '0' <= c <= '9' || c == '_'
  }

  /** `s.replaceAll("\\W", "")`: every non-word character removed. */
  function RemoveNonWord(s: string): (r: string)
    ensures |r| <= |s|
    ensures forall i :: 0 <= i < |r| ==> IsWordChar(r[i])
    ensures (forall i :: 0 <= i < |s| ==> IsWordChar(s[i])) ==> r == s
  {
    if s == [] then []
    else (if IsWordChar(s[0]) then [s[0]] else []) + RemoveNonWord(s[1..])
  }

  predicate IsDigit(c: char) {
    '0' <= c <= '9'
  }

  function DigitChar(d: nat): (c: char)
    requires d < 10
    ensures IsDigit(c) && c as int - '0' as int == d
  {
    ('0' as int + d) as char
  }

  /** The decimal digits of a natural number, without leading zeros. */
  function NatToString(n: nat): (r: string)
    ensures |r| > 0 && forall i :: 0 <= i < |r| ==> IsDigit(r[i])
    decreases n
  {
    if n < 10 then [DigitChar(n)] else NatToString(n / 10) + [DigitChar(n % 10)]
  }

  /** `"" + n` for an int: a minus sign for negative values, then the digits. */
  function IntToString(n: int): (r: string)
    ensures |r| > 0 && forall i :: 0 <= i < |r| ==> IsDigit(r[i]) || r[i] == '-'
    ensures n >= 0 <==> IsDigit(r[0])
  {
    if n < 0 then "-" + NatToString(-n) else NatToString(n)
  }

  /** The value of a string of decimal digits. */
  function DigitsValue(s: string): nat
    requires forall i :: 0 <= i < |s| ==> IsDigit(s[i])
  {
    if s == [] then 0
    else
      assert IsDigit(s[|s| - 1]);
      DigitsValue(s[..|s| - 1]) * 10 + (s[|s| - 1] as int - '0' as int)
  }

  lemma {:induction false} DigitsValueOfNat(n: nat)
    ensures DigitsValue(NatToString(n)) == n
    decreases n
  {
    if n >= 10 {
      var r := NatToString(n);
      assert r[..|r| - 1] == NatToString(n / 10);
      DigitsValueOfNat(n / 10);
    }
  }

  /** Different numbers print differently, so counter values are distinct keys. */
  lemma IntToStringInjective(a: int, b: int)
    requires IntToString(a) == IntToString(b)
    ensures a == b
  {
    if a < 0 && b < 0 {
      assert NatToString(-a) == IntToString(a)[1..] == IntToString(b)[1..] == NatToString(-b);
      DigitsValueOfNat(-a);
      DigitsValueOfNat(-b);
    } else if a >= 0 && b >= 0 {
      DigitsValueOfNat(a);
      DigitsValueOfNat(b);
    }
  }
}
