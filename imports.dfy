/** The import block both template engines render: the import set, sorted
    with Collections.sort (String.compareTo), one "import X;\n" per entry. */
module Imports {
  import opened JavaString

  /** The code-point order standing for `a.compareTo(b) < 0`: lexicographic by
      character, a proper prefix first. */
  predicate Less(a: string, b: string)
    decreases |a|
  {
    if a == [] then b != []
    else if b == [] then false
    else if a[0] != b[0] then a[0] < b[0]
    else Less(a[1..], b[1..])
  }

  lemma {:induction false} LessIrreflexive(a: string)
    ensures !Less(a, a)
    decreases |a|
  {
    if a != [] {
      LessIrreflexive(a[1..]);
    }
  }

  lemma {:induction false} LessAsymmetric(a: string, b: string)
    ensures Less(a, b) ==> !Less(b, a)
    decreases |a|
  {
    if a != [] && b != [] && a[0] == b[0] {
      LessAsymmetric(a[1..], b[1..]);
    }
  }

  lemma {:induction false} LessTransitive(a: string, b: string, c: string)
    requires Less(a, b) && Less(b, c)
    ensures Less(a, c)
    decreases |a|
  {
    if a != [] && a[0] == b[0] && b[0] == c[0] {
      LessTransitive(a[1..], b[1..], c[1..]);
    }
  }

  lemma {:induction false} LessTotal(a: string, b: string)
    ensures a == b || Less(a, b) || Less(b, a)
    decreases |a|
  {
    if a != [] && b != [] && a[0] == b[0] {
      LessTotal(a[1..], b[1..]);
      if a[1..] == b[1..] {
        assert a == [a[0]] + a[1..] && b == [b[0]] + b[1..];
      }
    }
  }

  /** Strings that agree before position k and differ at k are ordered by their k-th characters. */
  lemma {:induction false} LessAt(a: string, b: string, k: nat)
    requires k < |a| && k < |b| && a[..k] == b[..k] && a[k] < b[k]
    ensures Less(a, b)
    decreases k
  {
    if k > 0 {
      assert a[0] == a[..k][0] == b[..k][0] == b[0];
      assert a[1..][..k - 1] == a[1..k] == b[1..k] == b[1..][..k - 1];
      LessAt(a[1..], b[1..], k - 1);
    }
  }

  predicate StrictlySorted(xs: seq<string>) {
    forall i, j :: 0 <= i < j < |xs| ==> Less(xs[i], xs[j])
  }

  predicate IsLeast(m: string, s: set<string>) {
    m in s && forall x :: x in s && x != m ==> Less(m, x)
  }

  lemma {:induction false} LeastExists(s: set<string>)
    requires s != {}
    ensures exists m :: IsLeast(m, s)
    decreases |s|
  {
    var y :| y in s;
    if s - {y} == {} {
      assert s == {y};
      assert IsLeast(y, s);
    } else {
      LeastExists(s - {y});
      var m :| IsLeast(m, s - {y});
      LessTotal(m, y);
      if Less(m, y) {
        assert IsLeast(m, s);
      } else {
        forall x | x in s && x != y ensures Less(y, x) {
          if x != m {
            LessTransitive(y, m, x);
          }
        }
        assert IsLeast(y, s);
      }
    }
  }

  lemma LeastUnique(s: set<string>)
    ensures forall m1, m2 :: IsLeast(m1, s) && IsLeast(m2, s) ==> m1 == m2
  {
    forall m1, m2 | IsLeast(m1, s) && IsLeast(m2, s) ensures m1 == m2 {
      LessAsymmetric(m1, m2);
    }
  }

  /** The least entry of a non-empty set. */
  function Least(s: set<string>): (m: string)
    requires s != {}
    ensures IsLeast(m, s)
  {
    LeastExists(s);
    LeastUnique(s);
    var m :| IsLeast(m, s);
    m
  }

  /** The entries of the set after `Collections.sort`: ascending and each once. */
  function SortedList(s: set<string>): (r: seq<string>)
    ensures |r| == |s|
    ensures forall x :: x in r <==> x in s
    ensures StrictlySorted(r)
    decreases |s|
  {
    if s == {} then []
    else
      var m := Least(s);
      var rest := SortedList(s - {m});
      assert StrictlySorted([m] + rest) by {
        forall i, j | 0 <= i < j < |[m] + rest| ensures Less(([m] + rest)[i], ([m] + rest)[j]) {
          if i > 0 {
            assert ([m] + rest)[i] == rest[i - 1];
          } else {
            assert rest[j - 1] in s - {m};
          }
        }
      }
      [m] + rest
  }

  /** Only one sorted list holds exactly the entries of a set. */
  lemma {:induction false} SortedListUnique(s: set<string>, xs: seq<string>)
    requires StrictlySorted(xs)
    requires forall x :: x in xs <==> x in s
    ensures xs == SortedList(s)
    decreases |xs|
  {
    if xs == [] {
      assert s == {};
    } else {
      var m := xs[0];
      HeadIsLeast(s, xs);
      SortedListHead(s, m);
      SortedTail(s, xs);
      SortedListUnique(s - {m}, xs[1..]);
      HeadTail(xs);
    }
  }


  /** The head of a sorted list of a set's entries is the set's least entry. */
  lemma HeadIsLeast(s: set<string>, xs: seq<string>)
    requires xs != [] && StrictlySorted(xs)
    requires forall x :: x in xs <==> x in s
    ensures IsLeast(xs[0], s)
  {
    assert xs[0] in xs;
    forall x | x in s && x != xs[0] ensures Less(xs[0], x) {
      var i :| 0 <= i < |xs| && xs[i] == x;
    }
  }

  /** The rest of such a list is sorted and holds the set's other entries. */
  lemma SortedTail(s: set<string>, xs: seq<string>)
    requires xs != [] && StrictlySorted(xs)
    requires forall x :: x in xs <==> x in s
    ensures StrictlySorted(xs[1..])
    ensures forall x :: x in xs[1..] <==> x in s - {xs[0]}
  {
    forall x ensures x in xs[1..] <==> x in s - {xs[0]} {
      if x in xs[1..] {
        var i :| 1 <= i < |xs| && xs[i] == x;
        LessIrreflexive(x);
      }
    }
  }

  /** SortedList of a non-empty set begins with its least entry. */
  lemma SortedListHead(s: set<string>, m: string)
    requires IsLeast(m, s)
    ensures SortedList(s) == [m] + SortedList(s - {m})
  {
    LeastUnique(s);
  }

  /** The text of the import block for an already sorted list. */
  function ImportLines(xs: seq<string>): string
  {
    if xs == [] then [] else "import " + xs[0] + ";\n" + ImportLines(xs[1..])
  }

  /** The StringBuilder loop that renders the import block. */
  method RenderImports(xs: seq<string>) returns (r: string)
    ensures r == ImportLines(xs)
  {
    r := [];
    var i := 0;
    while i < |xs|
      invariant 0 <= i <= |xs|
      invariant r + ImportLines(xs[i..]) == ImportLines(xs)
    {
      assert xs[i..][1..] == xs[i + 1..];
      r := r + "import " + xs[i] + ";\n";
      i := i + 1;
    }
  }

  /** The statement "import X;" for every entry, in order. */
  function Statements(xs: seq<string>): (r: seq<string>)
    ensures |r| == |xs|
    ensures forall i :: 0 <= i < |xs| ==> r[i] == "import " + xs[i] + ";"
  {
    if xs == [] then [] else ["import " + xs[0] + ";"] + Statements(xs[1..])
  }

  lemma ImportLinesCons(xs: seq<string>)
    requires xs != [] && '\n' !in xs[0]
    ensures '\n' !in "import " + xs[0] + ";"
    ensures ImportLines(xs) == ("import " + xs[0] + ";") + "\n" + ImportLines(xs[1..])
  {
  }

  /** Each entry becomes one line of the block, in order, when no entry holds a line break. */
  lemma {:induction false} ImportLinesAreLines(xs: seq<string>)
    requires forall i :: 0 <= i < |xs| ==> '\n' !in xs[i]
    ensures RawSplit(ImportLines(xs), '\n') == Statements(xs) + [[]]
  {
    if xs == [] {
      assert RawSplit([], '\n') == [[]];
    } else {
      var head := "import " + xs[0] + ";";
      ImportLinesCons(xs);
      SplitAtSeparator(head, '\n', ImportLines(xs[1..]));
      ImportLinesAreLines(xs[1..]);
      AssocThree([head], Statements(xs[1..]), [[]]);
    }
  }

  /** The block rendered for an import set. */
  function ImportBlock(imports: set<string>): string {
    ImportLines(SortedList(imports))
  }

  /** `Arrays.asList(inQuotes.split(","))`: the entries a requiresimports directive adds. */
  function CommaItems(inQuotes: string): (r: set<string>)
    ensures ',' !in inQuotes ==> r == {inQuotes}
    ensures forall x :: x in r ==> ',' !in x
  {
    var parts := Split(inQuotes, ',');
    var r := set i | 0 <= i < |parts| :: parts[i];
    assert ',' !in inQuotes ==> parts[0] in r;
    r
  }
}
