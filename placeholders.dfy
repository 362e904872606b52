/** Placeholder recognition. Every engine finds placeholders with the
    pattern `<%(.*?)%>` and the quoted argument of a directive with
    `"(.*?)"`: the shortest span from an opening to a closing delimiter in
    which `.` matches every character except a line terminator. A Matcher is
    bound to one text and finds its spans left to right, each search
    starting where the previous match ended. */
module Placeholders {
  import opened Wrappers
  import opened JavaString

  const Open: string := "<%"
  const Close: string := "%>"

  /** A match of `open(.*?)close` found in a text: s[start..end]. */
  datatype Span = Span(start: nat, end: nat)

  /** Whether t occurs in s at position k. */
  predicate At(s: string, k: nat, t: string) {
    k + |t| <= |s| && s[k..k + |t|] == t
  }

  /** The end of the lazy `.*?close` that starts at j: just past the first
      `close` at or after j, provided no line terminator lies before it. */
  function CloseFrom(s: string, j: nat, close: string): (r: Option<nat>)
    requires |close| > 0
    ensures r.Some? ==> j + |close| <= r.value <= |s|
    decreases |s| - j
  {
    if j + |close| > |s| then None
    else if At(s, j, close) then Some(j + |close|)
    else if IsLineTerminator(s[j]) then None
    else CloseFrom(s, j + 1, close)
  }

  /** The lazy match ends at the first `close` and crosses no line terminator. */
  lemma {:induction false} CloseFromFirst(s: string, j: nat, close: string)
    requires |close| > 0 && CloseFrom(s, j, close).Some?
    ensures At(s, CloseFrom(s, j, close).value - |close|, close)
    ensures forall k :: j <= k < CloseFrom(s, j, close).value - |close| ==> !IsLineTerminator(s[k]) && !At(s, k, close)
    decreases |s| - j
  {
    if !At(s, j, close) {
      CloseFromFirst(s, j + 1, close);
    }
  }

  /** Whether `open(.*?)close` matches at position k. */
  predicate MatchesAt(s: string, k: nat, open: string, close: string)
    requires |close| > 0
  {
    At(s, k, open) && CloseFrom(s, k + |open|, close).Some?
  }

  /** Matcher.find() from position `from`: the leftmost match at or after it. */
  function FindFrom(s: string, from: nat, open: string, close: string): (r: Option<Span>)
    requires |open| > 0 && |close| > 0
    ensures r.Some? ==> from <= r.value.start && MatchesAt(s, r.value.start, open, close)
    ensures r.Some? ==> r.value.end == CloseFrom(s, r.value.start + |open|, close).value
    decreases |s| - from
  {
    if from + |open| > |s| then None
    else if MatchesAt(s, from, open, close) then
      Some(Span(from, CloseFrom(s, from + |open|, close).value))
    else FindFrom(s, from + 1, open, close)
  }

  /** find() returns the leftmost match: none starts between `from` and the
      span it returns, and none at all when it returns nothing. */
  lemma {:induction false} FindFromLeftmost(s: string, from: nat, open: string, close: string, k: nat)
    requires |open| > 0 && |close| > 0
    requires from <= k
    requires FindFrom(s, from, open, close).None? || k < FindFrom(s, from, open, close).value.start
    ensures !MatchesAt(s, k, open, close)
    decreases |s| - from
  {
    if from + |open| <= |s| && k > from {
      FindFromLeftmost(s, from + 1, open, close, k);
    }
  }

  /** The placeholders a matcher finds in s from position pos on, in order. */
  function SpansFrom(s: string, pos: nat): (r: seq<string>)
    requires pos <= |s|
    ensures forall i :: 0 <= i < |r| ==> IsPlaceholder(r[i])
    decreases |s| - pos
  {
    match FindFrom(s, pos, Open, Close)
    case None => []
    case Some(sp) =>
      PlaceholderShape(s, sp);
      [s[sp.start..sp.end]] + SpansFrom(s, sp.end)
  }

  /** All placeholders of s, in the order Matcher.find() returns them. */
  function Spans(s: string): seq<string> {
    SpansFrom(s, 0)
  }

  /** What a placeholder found by the pattern looks like: it opens with
      "<%", closes with "%>", stays on one line and closes at the first "%>". */
  predicate IsPlaceholder(p: string) {
    && |p| >= 4
    && At(p, 0, Open)
    && At(p, |p| - 2, Close)
    && (forall k :: 2 <= k < |p| - 2 ==> !IsLineTerminator(p[k]) && !At(p, k, Close))
  }

  lemma AtSlice(s: string, a: nat, b: nat, k: nat, t: string)
    requires a <= b <= |s| && a + k + |t| <= b
    ensures At(s[a..b], k, t) <==> At(s, a + k, t)
  {
    var p := s[a..b];
    assert |p| == b - a;
    forall i | k <= i < k + |t| ensures p[i] == s[a + i] {
    }
    assert p[k..k + |t|] == s[a + k..a + k + |t|];
  }

  lemma PlaceholderShape(s: string, sp: Span)
    requires MatchesAt(s, sp.start, Open, Close)
    requires sp.end == CloseFrom(s, sp.start + 2, Close).value
    ensures IsPlaceholder(s[sp.start..sp.end])
  {
    var p := s[sp.start..sp.end];
    CloseFromFirst(s, sp.start + 2, Close);
    AtSlice(s, sp.start, sp.end, 0, Open);
    AtSlice(s, sp.start, sp.end, |p| - 2, Close);
    forall k | 2 <= k < |p| - 2 ensures !IsLineTerminator(p[k]) && !At(p, k, Close) {
      assert p[k] == s[sp.start + k];
      AtSlice(s, sp.start, sp.end, k, Close);
    }
  }

  lemma {:induction false} ContainsAt(s: string, t: string, k: nat)
    requires At(s, k, t)
    ensures Contains(s, t)
    decreases k
  {
    if k > 0 {
      assert s[1..][k - 1..k - 1 + |t|] == s[k..k + |t|];
      ContainsAt(s[1..], t, k - 1);
    }
  }

  /** The lazy match from j ends just past the close at k when nothing
      before k closes it or ends the line. */
  lemma {:induction false} CloseFromAt(s: string, j: nat, close: string, k: nat)
    requires |close| > 0 && j <= k && At(s, k, close)
    requires forall m :: j <= m < k ==> !IsLineTerminator(s[m]) && !At(s, m, close)
    ensures CloseFrom(s, j, close) == Some(k + |close|)
    decreases k - j
  {
    if j < k {
      CloseFromAt(s, j + 1, close, k);
    }
  }

  /** A placeholder on its own is the one placeholder its matcher finds. */
  lemma SpansOfPlaceholder(p: string)
    requires IsPlaceholder(p)
    ensures Spans(p) == [p]
  {
    CloseFromAt(p, 2, Close, |p| - 2);
    assert MatchesAt(p, 0, Open, Close);
    assert FindFrom(p, 0, Open, Close) == Some(Span(0, |p|));
    assert p[0..|p|] == p;
    assert SpansFrom(p, |p|) == [];
  }

  /** A placeholder on a line of its own, as a file read line by line holds
      it, is still the one placeholder its matcher finds. */
  lemma SpansOfPlaceholderLine(p: string)
    requires IsPlaceholder(p)
    ensures Spans(p + "\n") == [p]
  {
    var s := p + "\n";
    forall m | 0 <= m <= |p| - 2 ensures At(s, m, Close) <==> At(p, m, Close) {
      assert s[m..m + 2] == p[m..m + 2];
    }
    assert s[0..2] == p[0..2];
    CloseFromAt(s, 2, Close, |p| - 2);
    assert MatchesAt(s, 0, Open, Close);
    assert FindFrom(s, 0, Open, Close) == Some(Span(0, |p|));
    assert s[0..|p|] == p;
    assert SpansFrom(s, |p|) == [];
  }

  /** A text without "<%" holds no placeholder. */
  lemma NoOpenNoSpans(s: string)
    requires !Contains(s, Open)
    ensures Spans(s) == []
  {
    match FindFrom(s, 0, Open, Close)
    case None =>
    case Some(sp) =>
      ContainsAt(s, Open, sp.start);
  }

  /** A placeholder with its whitespace removed still opens with "<%" and
      closes with "%>". */
  lemma {:induction false} StrippedShape(p: string)
    requires IsPlaceholder(p)
    ensures var q := StripWhitespace(p); |q| >= 4 && q[..2] == Open && q[|q| - 2..] == Close
  {
    var mid := p[2..|p| - 2];
    assert p == Open + mid + Close;
    StripWhitespaceConcat(Open + mid, Close);
    StripWhitespaceConcat(Open, mid);
    assert StripWhitespace(Open) == Open && StripWhitespace(Close) == Close;
    var q := StripWhitespace(p);
    assert q == Open + StripWhitespace(mid) + Close;
  }

  /** A stripped placeholder that starts with "<%=" is long enough for
      substring(3, length - 2): the variable name between "<%=" and "%>". */
  lemma VariableNameInRange(p: string)
    requires IsPlaceholder(p)
    requires StartsWith(StripWhitespace(p), "<%=")
    ensures |StripWhitespace(p)| >= 5
  {
    StrippedShape(p);
    var q := StripWhitespace(p);
    assert q[2] == '=';
    assert q[|q| - 2] == q[|q| - 2..][0] == '%';
  }

  /** The quoted argument: group(1) of the first match of `"(.*?)"`. */
  function FirstQuoted(s: string): (r: Option<string>)
    ensures r.Some? ==> Contains(s, "\"" + r.value + "\"")
    ensures r.Some? ==> '"' !in r.value
  {
    match FindFrom(s, 0, "\"", "\"")
    case None => None
    case Some(sp) =>
      QuoteMatch(s, sp);
      QuotedBetween(s, sp.start, sp.end);
      Some(s[sp.start + 1..sp.end - 1])
  }

  /** The match found from 0 opens with a quote at its start and closes at its end. */
  lemma QuoteMatch(s: string, sp: Span)
    requires FindFrom(s, 0, "\"", "\"") == Some(sp)
    ensures At(s, sp.start, ['"']) && CloseFrom(s, sp.start + 1, ['"']) == Some(sp.end)
  {
    assert ['"'] == "\"";
  }

  /** A quote at a, closed lazily at e: between them lies a quoted group with no quote. */
  lemma QuotedBetween(s: string, a: nat, e: nat)
    requires At(s, a, ['"']) && CloseFrom(s, a + 1, ['"']) == Some(e)
    ensures a + 2 <= e <= |s|
    ensures var v := s[a + 1..e - 1]; Contains(s, "\"" + v + "\"") && '"' !in v
  {
    var q := ['"'];
    assert q == "\"";
    CloseFromFirst(s, a + 1, q);
    var v := s[a + 1..e - 1];
    NoQuoteInside(s, a + 1, e - 1);
    AtOne(s, a, '"');
    AtOne(s, e - 1, '"');
    SliceEnds(s, a, e);
    assert At(s, a, q + v + q);
    ContainsAt(s, q + v + q, a);
  }

  /** No quote starts inside [j, e), so the slice holds none. */
  lemma NoQuoteInside(s: string, j: nat, e: nat)
    requires j <= e <= |s|
    requires forall k :: j <= k < e ==> !At(s, k, ['"'])
    ensures '"' !in s[j..e]
  {
    forall k | j <= k < e ensures s[k] != '"' {
      AtOne(s, k, '"');
    }
  }

  /** A slice of at least two characters is its first character, its inside and its last character. */
  lemma SliceEnds(s: string, i: nat, j: nat)
    requires i + 2 <= j <= |s|
    ensures s[i..j] == [s[i]] + s[i + 1..j - 1] + [s[j - 1]]
  {
  }

  /** find() from `from` returns the match at k when no match starts earlier. */
  lemma {:induction false} FindFromAt(s: string, from: nat, open: string, close: string, k: nat)
    requires |open| > 0 && |close| > 0 && from <= k
    requires MatchesAt(s, k, open, close)
    requires forall j :: from <= j < k ==> !At(s, j, open)
    ensures FindFrom(s, from, open, close) == Some(Span(k, CloseFrom(s, k + |open|, close).value))
    decreases k - from
  {
    if from < k {
      FindFromAt(s, from + 1, open, close, k);
    }
  }

  /** A one-character text occurs at j exactly where that character stands. */
  lemma AtOne(s: string, j: nat, c: char)
    ensures At(s, j, [c]) <==> j < |s| && s[j] == c
  {
    if j < |s| {
      assert s[j..j + 1] == [s[j]];
    }
  }

  /** The quoted argument is what lies between the quotes of the first match. */
  lemma FirstQuotedOfSpan(s: string, k: nat, e: nat)
    requires FindFrom(s, 0, "\"", "\"") == Some(Span(k, e + 1))
    ensures k + 1 <= e && FirstQuoted(s) == Some(s[k + 1..e])
  {
  }

  /** The first match of `"(.*?)"` in a text whose first quote opens v. */
  lemma FirstQuoteSpan(a: string, v: string, c: string)
    requires '"' !in a && '"' !in v
    requires forall k :: 0 <= k < |v| ==> !IsLineTerminator(v[k])
    ensures FindFrom(a + "\"" + v + "\"" + c, 0, "\"", "\"") == Some(Span(|a|, |a| + 1 + |v| + 1))
  {
    var q := ['"'];
    var s := a + q + v + q + c;
    var e := |a| + 1 + |v|;
    forall j | 0 <= j < |a| ensures !At(s, j, q) {
      AtOne(s, j, '"');
      assert s[j] == a[j];
    }
    forall j | |a| + 1 <= j < e ensures !IsLineTerminator(s[j]) && !At(s, j, q) {
      AtOne(s, j, '"');
      assert s[j] == v[j - |a| - 1];
    }
    AtOne(s, e, '"');
    AtOne(s, |a|, '"');
    CloseFromAt(s, |a| + 1, q, e);
    FindFromAt(s, 0, q, q, |a|);
  }

  /** The first quoted string of a text whose first quote opens v. */
  lemma FirstQuotedOf(a: string, v: string, c: string)
    requires '"' !in a && '"' !in v
    requires forall k :: 0 <= k < |v| ==> !IsLineTerminator(v[k])
    ensures FirstQuoted(a + "\"" + v + "\"" + c) == Some(v)
  {
    var s := a + "\"" + v + "\"" + c;
    var e := |a| + 1 + |v|;
    FirstQuoteSpan(a, v, c);
    FirstQuotedOfSpan(s, |a|, e);
    assert s[|a| + 1..e] == v;
  }

  /** java.util.regex.Matcher over `<%(.*?)%>`, bound to one text: the
      text and the position the next find() starts from. No matcher is
      shared, so its state is a value each find() replaces. */
  datatype Matcher = Matcher(text: string, pos: nat) {
    ghost predicate Valid() {
      pos <= |text|
    }

    /** The placeholders the remaining calls of Find will return. */
    ghost function Remaining(): seq<string>
      requires Valid()
    {
      SpansFrom(text, pos)
    }

    /** Matcher.find() followed by group(0); `next` is the matcher after the call. */
    method Find() returns (found: bool, group: string, next: Matcher)
      requires Valid()
      ensures next.Valid() && next.text == text
      ensures found <==> Remaining() != []
      ensures found ==> group == Remaining()[0] && next.Remaining() == Remaining()[1..]
      ensures !found ==> next.Remaining() == []
    {
      match FindFrom(text, pos, Open, Close)
      case None =>
        found, group, next := false, [], Matcher(text, |text|);
        assert FindFrom(text, |text|, Open, Close).None?;
      case Some(sp) =>
        found, group, next := true, text[sp.start..sp.end], Matcher(text, sp.end);
    }
  }

  /** `pattern.matcher(t)`: a matcher at the start of t. */
  function MatcherFor(t: string): (m: Matcher)
    ensures m.Valid() && m.text == t && m.Remaining() == Spans(t)
  {
    Matcher(t, 0)
  }
}
