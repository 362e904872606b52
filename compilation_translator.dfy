/** The template engine of the older generator
    (taverna_compilation.convert.translators.TemplateTranslator and its
    subclass BeanshellTranslator). An `includefile` directive is replaced by
    the included file translated by a translator of its own, whose import
    set is then merged into the caller's; `requiresimports` directives are
    collected during the same placeholder pass. A plain translation renders
    `@imports` after all other placeholders; a Beanshell translation first
    injects the stage's script and renders no imports. Recursion through
    includes is bounded by `fuel`, which stands for the Java call stack: a
    translation that runs out of it ends in a StackOverflowError. */
module CompilationTemplateTranslator {
  import opened Wrappers
  import opened JavaString
  import opened Files
  import opened Imports
  import opened Placeholders
  import opened Directives
  import ToHadoopConfig

  /** The Config values the engine reads; it writes none of them. */
  datatype Env = Env(
    fs: map<string, string>,
    pathToTemplates: string,
    className: string,
    packageName: string,
    configurations: map<string, string>)

  /** What a pass yields: the text, or the exception that ended it, and the
      import set of the translator after it. */
  datatype Outcome = Outcome(text: Result<string>, imports: set<string>)

  /** What the script pass yields: the text and the script field after it. */
  datatype Injected = Injected(text: Result<string>, script: Option<string>)

  /** `script.replace("\"", "\\\"")`: every double quote preceded by a backslash. */
  function Escape(script: string): (r: string)
    ensures '"' !in script ==> r == script
  {
    ContainsChar(script, '"');
    Replace(script, "\"", "\\\"")
  }

  /** replaceActivitySpecificPlaceholders: every span whose whitespace-free
      form starts with "<%=script" is replaced by the quoted script, and the
      escaped script is stored back into the field, so each further script
      span escapes it again. A missing script ends the pass in a
      NullPointerException. */
  function Inject(text: string, spans: seq<string>, script: Option<string>): (r: Injected)
    requires NonEmpty(spans)
    decreases |spans|
  {
    if spans == [] then Injected(Ok(text), script)
    else if StartsWith(StripWhitespace(spans[0]), "<%=script") then
      match script
      case None => Injected(Err(NullPointer), script)
      case Some(s) =>
        var escaped := Escape(s);
        Inject(Replace(text, spans[0], "\"" + escaped + "\""), spans[1..], Some(escaped))
    else Inject(text, spans[1..], script)
  }

  /** The pass from the span p on, the spans after it being rest. */
  ghost function InjectOn(text: string, p: string, rest: seq<string>, script: Option<string>): Injected
    requires |p| > 0 && NonEmpty(rest)
  {
    if StartsWith(StripWhitespace(p), "<%=script") then
      match script
      case None => Injected(Err(NullPointer), script)
      case Some(s) =>
        var escaped := Escape(s);
        Inject(Replace(text, p, "\"" + escaped + "\""), rest, Some(escaped))
    else Inject(text, rest, script)
  }

  lemma InjectUnfold(text: string, spans: seq<string>, script: Option<string>)
    requires NonEmpty(spans) && spans != []
    ensures |spans[0]| > 0 && NonEmpty(spans[1..])
    ensures Inject(text, spans, script) == InjectOn(text, spans[0], spans[1..], script)
  {
  }

  /** `placeholder.split("\\|")[1]` without its last two characters: the key
      of the stage script a `beanshell-activity-reduce` include names. */
  function ScriptKey(stripped: string): (r: Result<string>)
    ensures r.Ok? <==> |Split(stripped, '|')| >= 2 && |Split(stripped, '|')[1]| >= 2
    ensures r.Ok? ==> var piece := Split(stripped, '|')[1]; |piece| == |r.value| + 2 && r.value == piece[..|r.value|]
  {
    var pieces := Split(stripped, '|');
    if |pieces| < 2 then Err(IndexOutOfBounds)
    else if |pieces[1]| < 2 then Err(IndexOutOfBounds)
    else Ok(pieces[1][..|pieces[1]| - 2])
  }

  /** translate(String) of a plain translator (beanshell false) or of a
      BeanshellTranslator holding `script`, starting from `imports`. */
  function Translated(env: Env, beanshell: bool, script: Option<string>, text: string, imports: set<string>, fuel: nat): (o: Outcome)
    decreases fuel, 3, 0
  {
    if beanshell then
      SpansNonEmpty(text);
      var injected := Inject(text, Spans(text), script);
      if injected.text.Err? then Outcome(injected.text, imports)
      else
        var t := injected.text.value;
        SpansNonEmpty(t);
        Passed(env, t, Spans(t), imports, fuel)
    else
      SpansNonEmpty(text);
      var o := Passed(env, text, Spans(text), imports, fuel);
      if o.text.Err? then o
      else
        var t := o.text.value;
        SpansNonEmpty(t);
        Outcome(Ok(RenderPass(t, Spans(t), ImportBlock(o.imports))), o.imports)
  }

  /** replacePlaceholders: the spans found in the text it starts from, each
      handled in the current text, until one of them throws. */
  function Passed(env: Env, text: string, spans: seq<string>, imports: set<string>, fuel: nat): (o: Outcome)
    requires NonEmpty(spans)
    decreases fuel, 2, |spans|
  {
    if spans == [] then Outcome(Ok(text), imports)
    else
      var o := Handled(env, text, spans[0], imports, fuel);
      if o.text.Err? then o else Passed(env, o.text.value, spans[1..], o.imports, fuel)
  }

  /** The pass from the span p on, the spans after it being rest. */
  ghost function PassedOn(env: Env, text: string, p: string, rest: seq<string>, imports: set<string>, fuel: nat): Outcome
    requires |p| > 0 && NonEmpty(rest)
  {
    var o := Handled(env, text, p, imports, fuel);
    if o.text.Err? then o else Passed(env, o.text.value, rest, o.imports, fuel)
  }

  lemma PassedUnfold(env: Env, text: string, spans: seq<string>, imports: set<string>, fuel: nat)
    requires NonEmpty(spans) && spans != []
    ensures |spans[0]| > 0 && NonEmpty(spans[1..])
    ensures Passed(env, text, spans, imports, fuel) == PassedOn(env, text, spans[0], spans[1..], imports, fuel)
  {
  }

  /** handlePlaceholder: the kind of a placeholder is decided by the prefix
      of its whitespace-free form. */
  function Handled(env: Env, text: string, placeholder: string, imports: set<string>, fuel: nat): (o: Outcome)
    requires |placeholder| > 0
    decreases fuel, 1, 0
  {
    var stripped := StripWhitespace(placeholder);
    if StartsWith(stripped, "<%@includefile") then
      match FirstQuoted(stripped)
      case None => Outcome(Ok(text), imports)
      case Some(reference) =>
        var nested := Included(env, reference, stripped, fuel);
        if nested.text.Err? then Outcome(nested.text, imports)
        else Outcome(Ok(Replace(text, placeholder, nested.text.value)), imports + nested.imports)
    else if StartsWith(stripped, "<%@requiresimports") then
      Outcome(Ok(Replace(text, placeholder, "")), imports + Required(placeholder))
    else if StartsWith(stripped, "<%=") then
      match VariableName(stripped)
      case Err(f) => Outcome(Err(f), imports)
      case Ok(name) => Outcome(Ok(Replace(text, placeholder, Variable(env.className, env.packageName, name))), imports)
    else Outcome(Ok(text), imports)
  }

  /** includeFile(reference, placeholder): the referenced file translated by
      a fresh translator one stack frame deeper, and that translator's
      import set. A `beanshell-activity-reduce` reference is translated by a
      BeanshellTranslator over the script stored under the key the
      directive names. */
  function Included(env: Env, reference: string, stripped: string, fuel: nat): (o: Outcome)
    decreases fuel, 0, 0
  {
    if fuel == 0 then Outcome(Err(StackOverflow), {})
    else
      var file := ReadFile(env.fs, env.pathToTemplates + reference);
      if StartsWith(reference, "beanshell-activity-reduce") then
        match ScriptKey(stripped)
        case Err(f) => Outcome(Err(f), {})
        case Ok(key) => Translated(env, true, ToHadoopConfig.Get(env.configurations, key), file, {}, fuel - 1)
      else Translated(env, false, None, file, {}, fuel - 1)
  }

  /** The directive prefixes exclude one another. */
  lemma KindsExclusive(s: string)
    ensures StartsWith(s, "<%@requiresimports") ==> !StartsWith(s, "<%@includefile")
    ensures StartsWith(s, "<%=") ==> !StartsWith(s, "<%@includefile") && !StartsWith(s, "<%@requiresimports")
  {
    PrefixesExclusive(s, "<%@requiresimports", "<%@includefile", 3);
    PrefixesExclusive(s, "<%=", "<%@includefile", 2);
    PrefixesExclusive(s, "<%=", "<%@requiresimports", 2);
  }

  /** A text in which the matcher finds no placeholder comes back unchanged
      from either kind of translator, and the import set with it. That
      covers a text without "<%" and one whose "<%" is never closed on its
      line. */
  lemma TranslateWithoutPlaceholders(env: Env, beanshell: bool, script: Option<string>, text: string, imports: set<string>, fuel: nat)
    requires Spans(text) == []
    ensures Translated(env, beanshell, script, text, imports, fuel) == Outcome(Ok(text), imports)
  {
  }

  /** A `requiresimports` directive adds the items of its first quoted
      string, or nothing when there is none, and is deleted either way. */
  lemma RequiresImportsDeleted(env: Env, text: string, p: string, imports: set<string>, fuel: nat)
    requires |p| > 0 && StartsWith(StripWhitespace(p), "<%@requiresimports")
    ensures Handled(env, text, p, imports, fuel) == Outcome(Ok(Replace(text, p, "")), imports + Required(p))
    ensures FirstQuoted(StripWhitespace(p)).None? ==> Handled(env, text, p, imports, fuel).imports == imports
    ensures FirstQuoted(StripWhitespace(p)) == Some("") ==> Handled(env, text, p, imports, fuel).imports == imports + {""}
  {
    KindsExclusive(StripWhitespace(p));
  }

  /** A variable placeholder is replaced by the class name or the package
      name, the names compared ignoring case, and by "" otherwise. */
  lemma VariableResolved(env: Env, text: string, p: string, name: string, imports: set<string>, fuel: nat)
    requires |p| > 0 && StripWhitespace(p) == "<%=" + name + "%>"
    ensures Handled(env, text, p, imports, fuel) == Outcome(Ok(Replace(text, p, Variable(env.className, env.packageName, name))), imports)
  {
    var stripped := StripWhitespace(p);
    assert StartsWith(stripped, "<%=") by {
      assert stripped[..3] == "<%=";
    }
    KindsExclusive(stripped);
    assert stripped[3..|stripped| - 2] == name;
  }

  /** An `includefile` placeholder is replaced by the translated file, and
      the nested import set is merged; when the nested translation throws,
      so does the caller, its import set unchanged. */
  lemma IncludeMerged(env: Env, text: string, p: string, reference: string, imports: set<string>, fuel: nat)
    requires |p| > 0 && StartsWith(StripWhitespace(p), "<%@includefile")
    requires FirstQuoted(StripWhitespace(p)) == Some(reference)
    ensures var nested := Included(env, reference, StripWhitespace(p), fuel);
            Handled(env, text, p, imports, fuel) ==
              if nested.text.Ok? then Outcome(Ok(Replace(text, p, nested.text.value)), imports + nested.imports)
              else Outcome(nested.text, imports)
  {
  }

  /** A `beanshell-activity-reduce` include is translated by a
      BeanshellTranslator over the stored script named by the directive's
      key, with a fresh import set; any other include by a plain one. */
  lemma IncludeTranslator(env: Env, reference: string, stripped: string, fuel: nat)
    requires fuel > 0
    ensures var file := ReadFile(env.fs, env.pathToTemplates + reference);
            !StartsWith(reference, "beanshell-activity-reduce") ==>
              Included(env, reference, stripped, fuel) == Translated(env, false, None, file, {}, fuel - 1)
    ensures var file := ReadFile(env.fs, env.pathToTemplates + reference);
            StartsWith(reference, "beanshell-activity-reduce") && ScriptKey(stripped).Ok? ==>
              Included(env, reference, stripped, fuel) ==
              Translated(env, true, ToHadoopConfig.Get(env.configurations, ScriptKey(stripped).value), file, {}, fuel - 1)
    ensures StartsWith(reference, "beanshell-activity-reduce") && ScriptKey(stripped).Err? ==>
              Included(env, reference, stripped, fuel) == Outcome(Err(IndexOutOfBounds), {})
  {
  }

  /** A translation never loses an import: the set it ends with holds the
      one it started from. */
  lemma {:induction false} TranslatedGrows(env: Env, beanshell: bool, script: Option<string>, text: string, imports: set<string>, fuel: nat)
    ensures imports <= Translated(env, beanshell, script, text, imports, fuel).imports
    decreases fuel, 3, 0
  {
    SpansNonEmpty(text);
    if beanshell {
      var injected := Inject(text, Spans(text), script);
      if injected.text.Ok? {
        SpansNonEmpty(injected.text.value);
        PassedGrows(env, injected.text.value, Spans(injected.text.value), imports, fuel);
      }
    } else {
      PassedGrows(env, text, Spans(text), imports, fuel);
    }
  }

  lemma {:induction false} PassedGrows(env: Env, text: string, spans: seq<string>, imports: set<string>, fuel: nat)
    requires NonEmpty(spans)
    ensures imports <= Passed(env, text, spans, imports, fuel).imports
    decreases fuel, 2, |spans|
  {
    if spans != [] {
      var o := Handled(env, text, spans[0], imports, fuel);
      HandledGrows(env, text, spans[0], imports, fuel);
      if o.text.Ok? {
        PassedGrows(env, o.text.value, spans[1..], o.imports, fuel);
      }
    }
  }

  lemma {:induction false} HandledGrows(env: Env, text: string, p: string, imports: set<string>, fuel: nat)
    requires |p| > 0
    ensures imports <= Handled(env, text, p, imports, fuel).imports
    decreases fuel, 1, 0
  {
  }

  /** Escaping adds one backslash per double quote and keeps every quote. */
  function Quotes(s: string): nat
  {
    if s == [] then 0 else (if s[0] == '"' then 1 else 0) + Quotes(s[1..])
  }

  lemma {:induction false} EscapeCounts(s: string)
    ensures |Escape(s)| == |s| + Quotes(s)
    ensures Quotes(Escape(s)) == Quotes(s)
    decreases |s|
  {
    if s != [] {
      EscapeCounts(s[1..]);
      var rest := Escape(s[1..]);
      if s[0] == '"' {
        assert s[..1] == "\"";
        assert Escape(s) == "\\\"" + rest;
        assert ("\\\"" + rest)[1..] == "\"" + rest;
        assert ("\"" + rest)[1..] == rest;
      } else {
        assert s[..1] != "\"";
        assert Escape(s) == [s[0]] + rest;
        assert ([s[0]] + rest)[1..] == rest;
      }
    }
  }

  /** Escaping is not idempotent: a script holding a double quote grows by
      one more backslash per quote each time it is escaped again. */
  lemma EscapeCompounds(s: string)
    requires '"' in s
    ensures |Escape(Escape(s))| == |Escape(s)| + Quotes(s) > |Escape(s)|
    ensures Escape(Escape(s)) != Escape(s)
  {
    EscapeCounts(s);
    EscapeCounts(Escape(s));
    QuotesPositive(s);
  }

  lemma {:induction false} QuotesPositive(s: string)
    requires '"' in s
    ensures Quotes(s) > 0
    decreases |s|
  {
    if s[0] != '"' {
      assert '"' in s[1..];
      QuotesPositive(s[1..]);
    }
  }

  /** The script pass leaves the text and the script alone when no span is a
      script placeholder. */
  lemma {:induction false} InjectKeepsOthers(text: string, spans: seq<string>, script: Option<string>)
    requires NonEmpty(spans)
    requires forall i :: 0 <= i < |spans| ==> !StartsWith(StripWhitespace(spans[i]), "<%=script")
    ensures Inject(text, spans, script) == Injected(Ok(text), script)
    decreases |spans|
  {
    if spans != [] {
      InjectKeepsOthers(text, spans[1..], script);
    }
  }

  /** Two script spans in a row: the first is replaced by the script escaped
      once, the second by the script escaped twice. */
  lemma InjectTwice(text: string, p: string, q: string, s: string)
    requires |p| > 0 && |q| > 0
    requires StartsWith(StripWhitespace(p), "<%=script") && StartsWith(StripWhitespace(q), "<%=script")
    ensures var once := Replace(text, p, "\"" + Escape(s) + "\"");
            Inject(text, [p, q], Some(s)) == Injected(Ok(Replace(once, q, "\"" + Escape(Escape(s)) + "\"")), Some(Escape(Escape(s))))
  {
    var once := Replace(text, p, "\"" + Escape(s) + "\"");
    var twice := Replace(once, q, "\"" + Escape(Escape(s)) + "\"");
    InjectUnfold(text, [p, q], Some(s));
    assert [p, q][0] == p && [p, q][1..] == [q];
    assert Inject(text, [p, q], Some(s)) == Inject(once, [q], Some(Escape(s)));
    InjectUnfold(once, [q], Some(Escape(s)));
    assert [q][0] == q && [q][1..] == [];
    assert Inject(once, [q], Some(Escape(s))) == Inject(twice, [], Some(Escape(Escape(s))));
  }

  /** A placeholder stored as a file of one line reads back as that line
      and its "\n": the text the self-include below starts from. */
  lemma SelfIncludeFileReads(fs: map<string, string>, path: string, p: string)
    requires IsPlaceholder(p) && path in fs && fs[path] == p + "\n"
    ensures ReadFile(fs, path) == p + "\n"
  {
    forall j | 0 <= j < |p| ensures !IsBreak(p[j]) {
      if 2 <= j < |p| - 2 {
        assert !IsLineTerminator(p[j]);
      } else if j < 2 {
        assert p[j] == p[0..2][j];
      } else {
        assert p[j] == p[|p| - 2..|p|][j - (|p| - 2)];
      }
    }
    ReadLinesTerminated([p]);
    assert Terminated([p]) == p + "\n";
  }

  /** A file whose text is one plain include of itself, on a line of its
      own, overflows the stack however deep the stack is. */
  lemma {:induction false} SelfIncludeOverflows(env: Env, p: string, reference: string, fuel: nat)
    requires IsPlaceholder(p)
    requires StartsWith(StripWhitespace(p), "<%@includefile")
    requires FirstQuoted(StripWhitespace(p)) == Some(reference)
    requires !StartsWith(reference, "beanshell-activity-reduce")
    requires ReadFile(env.fs, env.pathToTemplates + reference) == p + "\n"
    ensures Included(env, reference, StripWhitespace(p), fuel).text == Err(StackOverflow)
    decreases fuel
  {
    if fuel > 0 {
      var file := p + "\n";
      SelfIncludeOverflows(env, p, reference, fuel - 1);
      assert Handled(env, file, p, {}, fuel - 1).text == Err(StackOverflow);
      SpansOfPlaceholderLine(p);
      PassedUnfold(env, file, [p], {}, fuel - 1);
      assert [p][0] == p;
      assert Passed(env, file, Spans(file), {}, fuel - 1).text == Err(StackOverflow);
      assert Translated(env, false, None, file, {}, fuel - 1).text == Err(StackOverflow);
    }
  }

  class TemplateTranslator {
    /** The imports the translated class needs. */
    var imports: set<string>
    /** Only a root translator writes its result to disk. */
    const isRoot: bool
    /** Whether this is a BeanshellTranslator. */
    const beanshell: bool
    /** The Beanshell script; null when the table holds none for the key. */
    var script: Option<string>

    /** TemplateTranslator(isRoot). */
    constructor (isRoot: bool)
      ensures this.isRoot == isRoot && !beanshell && imports == {} && script == None
    {
      this.isRoot := isRoot;
      beanshell := false;
      imports := {};
      script := None;
    }

    /** BeanshellTranslator(script): the script stored as given. */
    constructor Beanshell(script: Option<string>)
      ensures !isRoot && beanshell && imports == {} && this.script == script
    {
      isRoot := false;
      beanshell := true;
      imports := {};
      this.script := script;
    }

    /** getImports(). */
    function GetImports(): set<string>
      reads this
    {
      imports
    }

    /** translate(File): the file's text, translated. */
    method TranslateFile(path: string, env: Env, fuel: nat) returns (r: Result<string>, written: Option<(string, string)>)
      modifies this`imports, this`script
      ensures var o := Translated(env, beanshell, old(script), ReadFile(env.fs, path), old(imports), fuel);
              r == o.text && imports == o.imports
      ensures written.Some? ==> isRoot && !beanshell && r.Ok?
      decreases fuel, 4, 0
    {
      var template := ReadFile(env.fs, path);
      r, written := Translate(template, env, fuel);
    }

    /** translate(String): placeholders first, imports second, then the write
        of a root translator; a BeanshellTranslator injects its script
        first and renders no imports. */
    method Translate(template: string, env: Env, fuel: nat) returns (r: Result<string>, written: Option<(string, string)>)
      modifies this`imports, this`script
      ensures var o := Translated(env, beanshell, old(script), template, old(imports), fuel);
              r == o.text && imports == o.imports
      ensures script == if beanshell then Inject(template, Spans(template), old(script)).script else old(script)
      ensures written == if isRoot && !beanshell && r.Ok? then Some((RootFile(env.packageName, env.className), r.value)) else None
      decreases fuel, 3, 0
    {
      written := None;
      SpansNonEmpty(template);
      if beanshell {
        var injected := ReplaceActivitySpecificPlaceholders(template);
        if injected.Err? {
          return injected, written;
        }
        SpansNonEmpty(injected.value);
        r := ReplacePlaceholders(injected.value, env, fuel);
        return;
      }
      var passed := ReplacePlaceholders(template, env, fuel);
      if passed.Err? {
        return passed, written;
      }
      SpansNonEmpty(passed.value);
      var t := ReplaceImports(passed.value);
      if isRoot {
        var fileName := "src/main/java/" + Replace(env.packageName, ".", "/") + "/" + env.className + ".java";
        written := Some((fileName, t));
      }
      r := Ok(t);
    }

    /** replaceActivitySpecificPlaceholders: the script pass, over a matcher
        bound to the text it starts from. */
    method ReplaceActivitySpecificPlaceholders(template: string) returns (r: Result<string>)
      modifies this`script
      ensures var o := Inject(template, Spans(template), old(script));
              r == o.text && script == o.script
    {
      SpansNonEmpty(template);
      ghost var goal := Inject(template, Spans(template), script);
      var m := MatcherFor(template);
      var current := template;
      ghost var before := m.Remaining();
      var found, placeholder;
      found, placeholder, m := m.Find();
      if found {
        InjectUnfold(current, before, script);
      }
      while found
        invariant m.Valid() && NonEmpty(m.Remaining())
        invariant found ==> |placeholder| > 0
        invariant goal == if found then InjectOn(current, placeholder, m.Remaining(), script) else Injected(Ok(current), script)
        decreases found, |m.Remaining()|
      {
        before := m.Remaining();
        var stripped := StripWhitespace(placeholder);
        if StartsWith(stripped, "<%=script") {
          if script.None? {
            return Err(NullPointer);
          }
          script := Some(Replace(script.value, "\"", "\\\""));
          current := Replace(current, placeholder, "\"" + script.value + "\"");
        }
        found, placeholder, m := m.Find();
        if found {
          InjectUnfold(current, before, script);
        }
      }
      r := Ok(current);
    }

    /** replacePlaceholders: a matcher bound to the text it starts from, each
        span it finds handled in the current text. */
    method ReplacePlaceholders(template: string, env: Env, fuel: nat) returns (r: Result<string>)
      modifies this`imports
      ensures var o := Passed(env, template, Spans(template), old(imports), fuel);
              r == o.text && imports == o.imports
      decreases fuel, 2, 0
    {
      SpansNonEmpty(template);
      ghost var goal := Passed(env, template, Spans(template), imports, fuel);
      var m := MatcherFor(template);
      var current := template;
      ghost var before := m.Remaining();
      var found, placeholder;
      found, placeholder, m := m.Find();
      if found {
        PassedUnfold(env, current, before, imports, fuel);
      }
      while found
        invariant m.Valid() && NonEmpty(m.Remaining())
        invariant found ==> |placeholder| > 0
        invariant goal == if found then PassedOn(env, current, placeholder, m.Remaining(), imports, fuel) else Outcome(Ok(current), imports)
        decreases found, |m.Remaining()|
      {
        before := m.Remaining();
        var next := HandlePlaceholder(current, placeholder, env, fuel);
        if next.Err? {
          return next;
        }
        current := next.value;
        found, placeholder, m := m.Find();
        if found {
          PassedUnfold(env, current, before, imports, fuel);
        }
      }
      r := Ok(current);
    }

    /** handlePlaceholder: one span resolved in the current text. */
    method HandlePlaceholder(template: string, placeholder: string, env: Env, fuel: nat) returns (r: Result<string>)
      requires |placeholder| > 0
      modifies this`imports
      ensures var o := Handled(env, template, placeholder, old(imports), fuel);
              r == o.text && imports == o.imports
      decreases fuel, 1, 0
    {
      var stripped := StripWhitespace(placeholder);
      KindsExclusive(stripped);
      if StartsWith(stripped, "<%@includefile") {
        r := IncludeDirective(template, placeholder, stripped, env, fuel);
      } else if StartsWith(stripped, "<%@requiresimports") {
        r := RequiresDirective(template, placeholder, stripped);
      } else if StartsWith(stripped, "<%=") {
        r := VariableDirective(template, placeholder, stripped, env);
      } else {
        r := Ok(template);
      }
    }

    /** The include branch of handlePlaceholder: a directive without a
        quoted reference is left in place. */
    method IncludeDirective(template: string, placeholder: string, stripped: string, env: Env, fuel: nat) returns (r: Result<string>)
      requires |placeholder| > 0 && stripped == StripWhitespace(placeholder) && StartsWith(stripped, "<%@includefile")
      modifies this`imports
      ensures var o := Handled(env, template, placeholder, old(imports), fuel);
              r == o.text && imports == o.imports
      decreases fuel, 0, 1
    {
      var inQuotes := FirstQuoted(stripped);
      if inQuotes.Some? {
        var included := IncludeFile(inQuotes.value, stripped, env, fuel);
        if included.Err? {
          return included;
        }
        r := Ok(Replace(template, placeholder, included.value));
      } else {
        r := Ok(template);
      }
    }

    /** The requiresimports branch of handlePlaceholder: the listed imports
        join the set and the directive is deleted. */
    method RequiresDirective(template: string, placeholder: string, stripped: string) returns (r: Result<string>)
      requires |placeholder| > 0 && stripped == StripWhitespace(placeholder) && StartsWith(stripped, "<%@requiresimports")
      modifies this`imports
      ensures r == Ok(Replace(template, placeholder, ""))
      ensures imports == old(imports) + Required(placeholder)
    {
      var inQuotes := FirstQuoted(stripped);
      if inQuotes.Some? {
        imports := imports + CommaItems(inQuotes.value);
      }
      r := Ok(Replace(template, placeholder, ""));
    }

    /** The variable branch of handlePlaceholder. */
    method VariableDirective(template: string, placeholder: string, stripped: string, env: Env) returns (r: Result<string>)
      requires |placeholder| > 0 && stripped == StripWhitespace(placeholder) && StartsWith(stripped, "<%=")
      ensures VariableName(stripped).Err? ==> r == Err(VariableName(stripped).fault)
      ensures VariableName(stripped).Ok? ==>
                r == Ok(Replace(template, placeholder, Variable(env.className, env.packageName, VariableName(stripped).value)))
    {
      if |stripped| < 5 {
        return Err(IndexOutOfBounds);
      }
      var name := stripped[3..|stripped| - 2];
      var replacement := [];
      if EqualsIgnoreCase(name, "hadoopclassname") {
        replacement := env.className;
      } else if EqualsIgnoreCase(name, "hadooppackagename") {
        replacement := env.packageName;
      }
      r := Ok(Replace(template, placeholder, replacement));
    }

    /** includeFile(reference, placeholder): a fresh translator one stack
        frame deeper translates the file; its imports join this one's. */
    method IncludeFile(reference: string, stripped: string, env: Env, fuel: nat) returns (r: Result<string>)
      modifies this`imports
      ensures var o := Included(env, reference, stripped, fuel);
              r == o.text && imports == if o.text.Ok? then old(imports) + o.imports else old(imports)
      decreases fuel, 0, 0
    {
      if fuel == 0 {
        return Err(StackOverflow);
      }
      var translator: TemplateTranslator;
      if StartsWith(reference, "beanshell-activity-reduce") {
        var scriptId := ScriptKey(stripped);
        if scriptId.Err? {
          return Err(scriptId.fault);
        }
        translator := new TemplateTranslator.Beanshell(ToHadoopConfig.Get(env.configurations, scriptId.value));
      } else {
        translator := new TemplateTranslator(false);
      }
      var result, _ := translator.TranslateFile(env.pathToTemplates + reference, env, fuel - 1);
      if result.Err? {
        return result;
      }
      imports := imports + translator.GetImports();
      r := result;
    }

    /** replaceImports: every "<%@imports%>" span of the text replaced by the
        sorted import block; every other span left alone. */
    method ReplaceImports(template: string) returns (r: string)
      ensures r == RenderPass(template, Spans(template), ImportBlock(imports))
    {
      var importsString := ImportsString(imports);
      r := RenderImportsPass(template, importsString);
    }
  }
}
