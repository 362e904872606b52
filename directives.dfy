/** The directives both template engines resolve the same way: `<%=name%>`
    variables, the `<%@imports%>` pass that runs after all other
    placeholders, and the path a root translation is written to. */
module Directives {
  import opened Wrappers
  import opened JavaString
  import opened Imports
  import opened Placeholders

  /** Every span has at least one character, so it can be a replace target. */
  predicate NonEmpty(spans: seq<string>) {
    forall i :: 0 <= i < |spans| ==> |spans[i]| > 0
  }

  lemma SpansNonEmpty(s: string)
    ensures NonEmpty(Spans(s))
  {
  }

  /** `stripped.substring(3, stripped.length() - 2)`: the name between
      "<%=" and "%>", or the exception substring throws when the span is
      shorter than five characters. */
  function VariableName(stripped: string): (r: Result<string>)
    ensures r.Ok? <==> |stripped| >= 5
    ensures r.Ok? ==> stripped == stripped[..3] + r.value + stripped[|stripped| - 2..]
  {
    if |stripped| < 5 then Err(IndexOutOfBounds) else Ok(stripped[3..|stripped| - 2])
  }

  /** The value of a variable: the class name or the package name, the
      names compared ignoring case; any other name yields "". */
  function Variable(className: string, packageName: string, name: string): (r: string)
    ensures r == className || r == packageName || r == []
    ensures EqualsIgnoreCase(name, "hadoopclassname") ==> r == className
    ensures EqualsIgnoreCase(name, "hadooppackagename") && !EqualsIgnoreCase(name, "hadoopclassname") ==> r == packageName
    ensures !EqualsIgnoreCase(name, "hadoopclassname") && !EqualsIgnoreCase(name, "hadooppackagename") ==> r == []
  {
    if EqualsIgnoreCase(name, "hadoopclassname") then className
    else if EqualsIgnoreCase(name, "hadooppackagename") then packageName
    else []
  }

  /** Two names that differ only in the case of their letters resolve to the same value. */
  lemma VariableIgnoresCase(className: string, packageName: string, a: string, b: string)
    requires EqualsIgnoreCase(a, b)
    ensures Variable(className, packageName, a) == Variable(className, packageName, b)
  {
    EqualsIgnoreCaseIsLowerEquality(a, b);
    EqualsIgnoreCaseIsLowerEquality(a, "hadoopclassname");
    EqualsIgnoreCaseIsLowerEquality(b, "hadoopclassname");
    EqualsIgnoreCaseIsLowerEquality(a, "hadooppackagename");
    EqualsIgnoreCaseIsLowerEquality(b, "hadooppackagename");
  }

  /** The import items one span contributes: the comma-separated entries
      of its first quoted string when it is a `requiresimports` directive. */
  function Required(placeholder: string): (r: set<string>)
  {
    var stripped := StripWhitespace(placeholder);
    if StartsWith(stripped, "<%@requiresimports") then
      match FirstQuoted(stripped)
      case Some(items) => CommaItems(items)
      case None => {}
    else {}
  }

  /** The span that renders the import block, after whitespace removal. */
  const ImportsDirective: string := "<%@imports%>"

  /** The second matcher loop of replaceImports: every span whose stripped
      form is exactly "<%@imports%>" replaced by the import block in the
      current text; every other span is left alone. */
  function RenderPass(text: string, spans: seq<string>, block: string): string
    requires NonEmpty(spans)
    decreases |spans|
  {
    if spans == [] then text
    else
      var next := if StripWhitespace(spans[0]) == ImportsDirective then Replace(text, spans[0], block) else text;
      RenderPass(next, spans[1..], block)
  }

  /** Spans other than "<%@imports%>" are left unchanged by the pass. */
  lemma {:induction false} RenderPassKeepsOthers(text: string, spans: seq<string>, block: string)
    requires NonEmpty(spans)
    requires forall i :: 0 <= i < |spans| ==> StripWhitespace(spans[i]) != ImportsDirective
    ensures RenderPass(text, spans, block) == text
    decreases |spans|
  {
    if spans != [] {
      RenderPassKeepsOthers(text, spans[1..], block);
    }
  }

  /** Replacing a whole text that is the target gives the replacement. */
  lemma ReplaceWhole(s: string, replacement: string)
    requires |s| > 0
    ensures Replace(s, s, replacement) == replacement
  {
    assert s[..|s|] == s;
    assert s[|s|..] == [];
  }

  lemma ImportsDirectiveIsPlaceholder()
    ensures IsPlaceholder(ImportsDirective)
  {
    var p := ImportsDirective;
    assert p[..2] == Open;
    assert p[|p| - 2..] == Close;
    forall k | 2 <= k < |p| - 2 ensures !IsLineTerminator(p[k]) && !At(p, k, Close) {
      assert p[k] != '\n' && p[k] != '%';
      assert p[k..k + 2][0] == p[k];
    }
  }

  /** A template that is just "<%@imports%>" becomes the import block: the
      sorted entries of the set, one "import X;" line each. */
  lemma ImportsDirectiveRendered(imports: set<string>)
    ensures RenderPass(ImportsDirective, Spans(ImportsDirective), ImportBlock(imports)) == ImportLines(SortedList(imports))
  {
    ImportsDirectiveReplaced(ImportBlock(imports));
  }

  /** The pass over a template that is just "<%@imports%>" yields the block. */
  lemma ImportsDirectiveReplaced(block: string)
    ensures RenderPass(ImportsDirective, Spans(ImportsDirective), block) == block
  {
    var p := ImportsDirective;
    ImportsDirectiveIsPlaceholder();
    SpansOfPlaceholder(p);
    ImportsDirectiveNoSpace();
    RenderPassSingle(p, p, block);
    ReplaceWhole(p, block);
  }

  lemma ImportsDirectiveNoSpace()
    ensures NoSpace(ImportsDirective)
  {
  }

  /** The pass over a single "<%@imports%>" span replaces it. */
  lemma RenderPassSingle(text: string, p: string, block: string)
    requires |p| > 0 && StripWhitespace(p) == ImportsDirective
    ensures RenderPass(text, [p], block) == Replace(text, p, block)
  {
    assert [p][0] == p && [p][1..] == [];
  }

  /** The import block the StringBuilder loop renders for a set. */
  method ImportsString(imports: set<string>) returns (r: string)
    ensures r == ImportBlock(imports)
  {
    var importsList := SortedList(imports);
    r := RenderImports(importsList);
  }

  /** The loop of RenderPass over a matcher bound to the template. */
  method RenderImportsPass(template: string, block: string) returns (r: string)
    ensures r == RenderPass(template, Spans(template), block)
  {
    var m := MatcherFor(template);
    r := template;
    var found, placeholder;
    found, placeholder, m := m.Find();
    while found
      invariant m.Valid() && NonEmpty(m.Remaining())
      invariant found ==> NonEmpty([placeholder] + m.Remaining())
      invariant (if found then RenderPass(r, [placeholder] + m.Remaining(), block) else r) == RenderPass(template, Spans(template), block)
      decreases found, |m.Remaining()|
    {
      assert ([placeholder] + m.Remaining())[1..] == m.Remaining();
      if StripWhitespace(placeholder) == ImportsDirective {
        r := Replace(r, placeholder, block);
      }
      found, placeholder, m := m.Find();
    }
  }

  /** `s.replaceAll("\\.", "/")`: every '.' turned into '/'. */
  function PackageDir(packageName: string): (r: string)
    ensures |r| == |packageName|
    ensures forall i :: 0 <= i < |r| ==> r[i] == if packageName[i] == '.' then '/' else packageName[i]
    ensures '.' !in r
  {
    DotsReplaced(packageName);
    Replace(packageName, ".", "/")
  }

  lemma {:induction false} DotsReplaced(s: string)
    ensures var r := Replace(s, ".", "/");
            |r| == |s| && forall i :: 0 <= i < |r| ==> r[i] == if s[i] == '.' then '/' else s[i]
    decreases |s|
  {
    if |s| >= 1 {
      DotsReplaced(s[1..]);
      var rest := Replace(s[1..], ".", "/");
      var head := if s[0] == '.' then "/" else [s[0]];
      assert Replace(s, ".", "/") == head + rest;
    }
  }

  /** The file a root translation writes: the package as directories
      below src/main/java, then the class name with ".java". */
  function RootFile(packageName: string, className: string): (r: string)
    ensures StartsWith(r, "src/main/java/") && EndsWith(r, "/" + className + ".java")
    ensures '.' !in packageName ==> r == "src/main/java/" + packageName + "/" + className + ".java"
  {
    var d := PackageDir(packageName);
    assert '.' !in packageName ==> d == packageName;
    var r := "src/main/java/" + d + "/" + className + ".java";
    assert r[..14] == "src/main/java/";
    assert r[|r| - |"/" + className + ".java"|..] == "/" + className + ".java";
    r
  }
}
