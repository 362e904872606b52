/** The template engine of the newer generator
    (taverna_to_hadoop.convert.TemplateTranslator). One placeholder pass
    resolves the include directives and the variables of the template, then
    a two-phase import pass collects and deletes every `requiresimports`
    directive and renders `@imports`. Included files are spliced in as they
    are read, without being translated. A root translator also writes the
    result to the source tree; the write is returned instead of performed. */
module ToHadoopTemplateTranslator {
  import opened Wrappers
  import opened JavaString
  import opened Files
  import opened Imports
  import opened Placeholders
  import opened Directives
  import opened ToHadoopConfig
  import opened ActivityConfigs
  import opened ToHadoopWorkflowManager

  /** What the placeholder pass reads besides the text: the files, the
      template root and the two names the variables resolve to. */
  datatype Env = Env(fs: map<string, string>, pathToTemplates: string, className: string, packageName: string)

  /** What a pass yields: the text (or the exception that ended it) and the
      stage list, which `getRuns` updates. */
  datatype Outcome = Outcome(text: Result<string>, stages: seq<Entry>)

  /** What translate yields: the text, the stage list and the import set. */
  datatype Translation = Translation(text: Result<string>, stages: seq<Entry>, imports: set<string>)

  /** `template.replace(placeholder, value)` for a value that may be an exception. */
  function Substituted(text: string, placeholder: string, value: Result<string>): (r: Result<string>)
    requires |placeholder| > 0
    ensures r.Ok? <==> value.Ok?
    ensures r.Err? ==> r.fault == value.fault
    ensures value.Ok? ==> r.value == Replace(text, placeholder, value.value)
  {
    match value
    case Err(f) => Err(f)
    case Ok(v) => Ok(Replace(text, placeholder, v))
  }

  /** handlePlaceholder: the kind of a placeholder is decided by the prefix
      of its whitespace-free form. */
  function Handle(env: Env, text: string, placeholder: string, es: seq<Entry>): (o: Outcome)
    requires |placeholder| > 0
  {
    var stripped := StripWhitespace(placeholder);
    if StartsWith(stripped, "<%@includemapreduce") then
      Outcome(Substituted(text, placeholder, MapReduces(env.fs, env.pathToTemplates, es)), es)
    else if StartsWith(stripped, "<%@includerun") then
      Outcome(Substituted(text, placeholder, Runs(env.fs, env.pathToTemplates, es)), RunsState(env.fs, env.pathToTemplates, es))
    else if StartsWith(stripped, "<%@includefile") then
      match FirstQuoted(stripped)
      case Some(name) => Outcome(Ok(Replace(text, placeholder, ReadFile(env.fs, env.pathToTemplates + name))), es)
      case None => Outcome(Ok(text), es)
    else if StartsWith(stripped, "<%=") then
      match VariableName(stripped)
      case Err(f) => Outcome(Err(f), es)
      case Ok(name) => Outcome(Ok(Replace(text, placeholder, Variable(env.className, env.packageName, name))), es)
    else Outcome(Ok(text), es)
  }

  /** replacePlaceholders: the spans found in the original text, each
      handled in the current text, until one of them throws. */
  function Pass(env: Env, text: string, spans: seq<string>, es: seq<Entry>): Outcome
    requires NonEmpty(spans)
    decreases |spans|
  {
    if spans == [] then Outcome(Ok(text), es)
    else
      var o := Handle(env, text, spans[0], es);
      if o.text.Err? then o else Pass(env, o.text.value, spans[1..], o.stages)
  }

  /** The pass from the span p on, the spans after it being rest. */
  ghost function PassOn(env: Env, text: string, p: string, rest: seq<string>, es: seq<Entry>): Outcome
    requires |p| > 0 && NonEmpty(rest)
  {
    var o := Handle(env, text, p, es);
    if o.text.Err? then o else Pass(env, o.text.value, rest, o.stages)
  }

  lemma PassUnfold(env: Env, text: string, spans: seq<string>, es: seq<Entry>)
    requires NonEmpty(spans) && spans != []
    ensures |spans[0]| > 0 && NonEmpty(spans[1..])
    ensures Pass(env, text, spans, es) == PassOn(env, text, spans[0], spans[1..], es)
  {
  }

  /** The first matcher loop of replaceImports: every `requiresimports`
      directive adds its items to the import set and is deleted from the
      current text. */
  function Collect(text: string, spans: seq<string>, imports: set<string>): (r: (string, set<string>))
    requires NonEmpty(spans)
    decreases |spans|
  {
    if spans == [] then (text, imports)
    else
      var next := if StartsWith(StripWhitespace(spans[0]), "<%@requiresimports") then Replace(text, spans[0], "") else text;
      Collect(next, spans[1..], imports + Required(spans[0]))
  }

  /** The collection from the span p on, the spans after it being rest. */
  ghost function CollectOn(text: string, p: string, rest: seq<string>, imports: set<string>): (r: (string, set<string>))
    requires |p| > 0 && NonEmpty(rest)
  {
    var next := if StartsWith(StripWhitespace(p), "<%@requiresimports") then Replace(text, p, "") else text;
    Collect(next, rest, imports + Required(p))
  }

  lemma CollectUnfold(text: string, spans: seq<string>, imports: set<string>)
    requires NonEmpty(spans) && spans != []
    ensures |spans[0]| > 0 && NonEmpty(spans[1..])
    ensures Collect(text, spans, imports) == CollectOn(text, spans[0], spans[1..], imports)
  {
  }

  /** One round of the collecting loop: the directive's items added, the
      directive deleted. */
  method CollectStep(text: string, placeholder: string, ghost rest: seq<string>, imports: set<string>)
    returns (next: string, more: set<string>)
    requires |placeholder| > 0 && NonEmpty(rest)
    ensures Collect(next, rest, more) == CollectOn(text, placeholder, rest, imports)
    ensures imports <= more
  {
    next, more := text, imports;
    var stripped := StripWhitespace(placeholder);
    if StartsWith(stripped, "<%@requiresimports") {
      var inQuotes := FirstQuoted(stripped);
      if inQuotes.Some? {
        more := more + CommaItems(inQuotes.value);
      }
      next := Replace(next, placeholder, "");
    }
    assert more == imports + Required(placeholder);
  }

  /** The import set after the collection holds the earlier entries and
      every item a directive of the scanned spans requires, and nothing else. */
  lemma {:induction false} CollectImports(text: string, spans: seq<string>, imports: set<string>)
    requires NonEmpty(spans)
    ensures forall x :: x in Collect(text, spans, imports).1 <==> x in imports || exists i :: 0 <= i < |spans| && x in Required(spans[i])
    decreases |spans|
  {
    if spans != [] {
      var next := if StartsWith(StripWhitespace(spans[0]), "<%@requiresimports") then Replace(text, spans[0], "") else text;
      CollectImports(next, spans[1..], imports + Required(spans[0]));
      forall x ensures (exists i :: 0 <= i < |spans| && x in Required(spans[i]))
                   <==> x in Required(spans[0]) || exists i :: 0 <= i < |spans[1..]| && x in Required(spans[1..][i]) {
        if exists i :: 0 <= i < |spans| && x in Required(spans[i]) {
          var i :| 0 <= i < |spans| && x in Required(spans[i]);
          if i > 0 {
            assert spans[1..][i - 1] == spans[i];
          }
        }
        if exists i :: 0 <= i < |spans[1..]| && x in Required(spans[1..][i]) {
          var i :| 0 <= i < |spans[1..]| && x in Required(spans[1..][i]);
          assert spans[i + 1] == spans[1..][i];
        }
      }
    }
  }

  /** replaceImports: collect and delete the directives, then render the
      sorted import set in place of every `@imports` span of the text that
      is left. */
  function ImportsResolved(text: string, imports: set<string>): (r: (string, set<string>))
  {
    SpansNonEmpty(text);
    var (collected, all) := Collect(text, Spans(text), imports);
    SpansNonEmpty(collected);
    (RenderPass(collected, Spans(collected), ImportBlock(all)), all)
  }

  /** translate(String): placeholders first, imports second. */
  function Translated(env: Env, template: string, es: seq<Entry>, imports: set<string>): Translation
  {
    SpansNonEmpty(template);
    var o := Pass(env, template, Spans(template), es);
    if o.text.Err? then Translation(o.text, o.stages, imports)
    else
      var (t, all) := ImportsResolved(o.text.value, imports);
      Translation(Ok(t), o.stages, all)
  }

  /** The directive prefixes exclude one another. */
  lemma KindsExclusive(s: string)
    ensures StartsWith(s, "<%@includefile") ==> !StartsWith(s, "<%@includemapreduce") && !StartsWith(s, "<%@includerun")
    ensures StartsWith(s, "<%=") ==> !StartsWith(s, "<%@includemapreduce") && !StartsWith(s, "<%@includerun") && !StartsWith(s, "<%@includefile")
  {
    PrefixesExclusive(s, "<%@includefile", "<%@includemapreduce", 10);
    PrefixesExclusive(s, "<%@includefile", "<%@includerun", 10);
    PrefixesExclusive(s, "<%=", "<%@includemapreduce", 2);
    PrefixesExclusive(s, "<%=", "<%@includerun", 2);
    PrefixesExclusive(s, "<%=", "<%@includefile", 2);
  }

  /** A template in which the matcher finds no placeholder comes back
      unchanged, and so do the stage list and the import set. That covers
      a template without "<%" and one whose "<%" is never closed on its line. */
  lemma TranslateWithoutPlaceholders(env: Env, template: string, es: seq<Entry>, imports: set<string>)
    requires Spans(template) == []
    ensures Translated(env, template, es, imports) == Translation(Ok(template), es, imports)
  {
  }

  /** A template that is one `includefile` placeholder becomes the raw text
      of the named file below the template root: placeholders inside the
      file are not translated. */
  lemma IncludeFileSplicedRaw(env: Env, p: string, es: seq<Entry>, name: string)
    requires IsPlaceholder(p)
    requires StartsWith(StripWhitespace(p), "<%@includefile")
    requires FirstQuoted(StripWhitespace(p)) == Some(name)
    ensures Pass(env, p, Spans(p), es) == Outcome(Ok(ReadFile(env.fs, env.pathToTemplates + name)), es)
  {
    SpansOfPlaceholder(p);
    var stripped := StripWhitespace(p);
    KindsExclusive(stripped);
    ReplaceWhole(p, ReadFile(env.fs, env.pathToTemplates + name));
    assert [p][1..] == [];
  }

  /** An `includefile` placeholder without a quoted name is left as it is. */
  lemma IncludeFileWithoutName(env: Env, text: string, p: string, es: seq<Entry>)
    requires |p| > 0
    requires StartsWith(StripWhitespace(p), "<%@includefile")
    requires FirstQuoted(StripWhitespace(p)) == None
    ensures Handle(env, text, p, es) == Outcome(Ok(text), es)
  {
    var stripped := StripWhitespace(p);
    KindsExclusive(stripped);
  }

  /** A template that is one `includemapreduce` placeholder becomes the map
      and reduce classes of the stage list; one `includerun` placeholder
      becomes the run methods, and the stages are prepared for their runs. */
  lemma IncludeStagesWhole(env: Env, p: string, es: seq<Entry>)
    requires IsPlaceholder(p)
    ensures StartsWith(StripWhitespace(p), "<%@includemapreduce") ==>
              Pass(env, p, Spans(p), es) == Outcome(MapReduces(env.fs, env.pathToTemplates, es), es)
    ensures !StartsWith(StripWhitespace(p), "<%@includemapreduce") && StartsWith(StripWhitespace(p), "<%@includerun") ==>
              Pass(env, p, Spans(p), es) == Outcome(Runs(env.fs, env.pathToTemplates, es), RunsState(env.fs, env.pathToTemplates, es))
  {
    SpansOfPlaceholder(p);
    assert [p][1..] == [];
    var mr := MapReduces(env.fs, env.pathToTemplates, es);
    var runs := Runs(env.fs, env.pathToTemplates, es);
    if mr.Ok? {
      ReplaceWhole(p, mr.value);
    }
    if runs.Ok? {
      ReplaceWhole(p, runs.value);
    }
  }

  /** A template that is one variable placeholder becomes the variable's value. */
  lemma VariableWhole(env: Env, p: string, es: seq<Entry>, name: string)
    requires IsPlaceholder(p)
    requires StripWhitespace(p) == "<%=" + name + "%>"
    ensures Pass(env, p, Spans(p), es) == Outcome(Ok(Variable(env.className, env.packageName, name)), es)
  {
    SpansOfPlaceholder(p);
    var stripped := StripWhitespace(p);
    assert StartsWith(stripped, "<%=") by {
      assert stripped[..3] == "<%=";
    }
    KindsExclusive(stripped);
    assert stripped[3..|stripped| - 2] == name;
    ReplaceWhole(p, Variable(env.className, env.packageName, name));
    assert [p][1..] == [];
  }

  /** The parts of a Config object the engine reads. */
  function EnvOf(cfg: Config, fs: map<string, string>): Env
    reads cfg
  {
    Env(fs, cfg.pathToTemplates, cfg.hadoopClassName, cfg.hadoopPackageName)
  }

  class TemplateTranslator {
    /** The imports the translated class needs. */
    var imports: set<string>
    /** Only a root translator writes its result to disk. */
    const isRoot: bool

    constructor (isRoot: bool)
      ensures this.isRoot == isRoot && imports == {}
    {
      this.isRoot := isRoot;
      imports := {};
    }

    /** translate(String, WorkflowManager): the translated text, and the
        file a root translator writes with its content. */
    method Translate(template: string, wm: WorkflowManager, cfg: Config, fs: map<string, string>)
      returns (r: Result<string>, written: Option<(string, string)>)
      requires wm.Valid()
      modifies this`imports, set x: ActivityConfig | x in wm.activityList
      ensures var t := Translated(EnvOf(cfg, fs), template, old(Entries(wm.activityList)), old(imports));
              r == t.text && Entries(wm.activityList) == t.stages && imports == t.imports
      ensures written == if isRoot && r.Ok? then Some((RootFile(cfg.hadoopPackageName, cfg.hadoopClassName), r.value)) else None
    {
      ghost var env := EnvOf(cfg, fs);
      ghost var es := Entries(wm.activityList);
      SpansNonEmpty(template);
      var passed := ReplacePlaceholders(template, wm, cfg, fs);
      written := None;
      if passed.Err? {
        return passed, written;
      }
      var t := ReplaceImports(passed.value);
      if isRoot {
        var fileName := "src/main/java/" + Replace(cfg.hadoopPackageName, ".", "/") + "/" + cfg.hadoopClassName + ".java";
        written := Some((fileName, t));
      }
      r := Ok(t);
    }

    /** translate(File, WorkflowManager): the file's text, translated. */
    method TranslateFile(path: string, wm: WorkflowManager, cfg: Config, fs: map<string, string>)
      returns (r: Result<string>, written: Option<(string, string)>)
      requires wm.Valid()
      modifies this`imports, set x: ActivityConfig | x in wm.activityList
      ensures var t := Translated(EnvOf(cfg, fs), ReadFile(fs, path), old(Entries(wm.activityList)), old(imports));
              r == t.text && Entries(wm.activityList) == t.stages && imports == t.imports
    {
      var template := ReadFile(fs, path);
      r, written := Translate(template, wm, cfg, fs);
    }

    /** replacePlaceholders: a matcher bound to the original template, each
        span it finds handled in the current text. */
    method ReplacePlaceholders(template: string, wm: WorkflowManager, cfg: Config, fs: map<string, string>)
      returns (r: Result<string>)
      requires wm.Valid()
      modifies set x: ActivityConfig | x in wm.activityList
      ensures var o := Pass(EnvOf(cfg, fs), template, Spans(template), old(Entries(wm.activityList)));
              r == o.text && Entries(wm.activityList) == o.stages
    {
      SpansNonEmpty(template);
      ghost var env := EnvOf(cfg, fs);
      var m := MatcherFor(template);
      var current := template;
      ghost var before := m.Remaining();
      ghost var es := Entries(wm.activityList);
      ghost var goal := Pass(env, template, Spans(template), es);
      var found, placeholder;
      found, placeholder, m := m.Find();
      if found {
        PassUnfold(env, current, before, es);
      }
      while found
        invariant m.Valid() && NonEmpty(m.Remaining()) && wm.Valid()
        invariant found ==> |placeholder| > 0
        invariant Entries(wm.activityList) == es
        invariant goal == if found then PassOn(env, current, placeholder, m.Remaining(), es) else Outcome(Ok(current), es)
        decreases found, |m.Remaining()|
      {
        before := m.Remaining();
        var next := HandlePlaceholder(current, placeholder, wm, cfg, fs);
        es := Entries(wm.activityList);
        if next.Err? {
          return next;
        }
        current := next.value;
        found, placeholder, m := m.Find();
        if found {
          PassUnfold(env, current, before, es);
        }
      }
      r := Ok(current);
    }

    /** handlePlaceholder: one span resolved in the current text. */
    method HandlePlaceholder(template: string, placeholder: string, wm: WorkflowManager, cfg: Config, fs: map<string, string>)
      returns (r: Result<string>)
      requires |placeholder| > 0 && wm.Valid()
      modifies set x: ActivityConfig | x in wm.activityList
      ensures var o := Handle(EnvOf(cfg, fs), template, placeholder, old(Entries(wm.activityList)));
              r == o.text && Entries(wm.activityList) == o.stages
    {
      var stripped := StripWhitespace(placeholder);
      if StartsWith(stripped, "<%@includemapreduce") {
        var classes := wm.GetMapReduceClasses(fs, cfg.pathToTemplates);
        r := if classes.Err? then Err(classes.fault) else Ok(Replace(template, placeholder, classes.value));
      } else if StartsWith(stripped, "<%@includerun") {
        var runs := wm.GetRuns(fs, cfg.pathToTemplates);
        r := if runs.Err? then Err(runs.fault) else Ok(Replace(template, placeholder, runs.value));
      } else if StartsWith(stripped, "<%@includefile") {
        var inQuotes := FirstQuoted(stripped);
        if inQuotes.Some? {
          r := Ok(Replace(template, placeholder, ReadFile(fs, cfg.pathToTemplates + inQuotes.value)));
        } else {
          r := Ok(template);
        }
      } else if StartsWith(stripped, "<%=") {
        if |stripped| < 5 {
          return Err(IndexOutOfBounds);
        }
        var name := stripped[3..|stripped| - 2];
        var replacement := [];
        if EqualsIgnoreCase(name, "hadoopclassname") {
          replacement := cfg.hadoopClassName;
        } else if EqualsIgnoreCase(name, "hadooppackagename") {
          replacement := cfg.hadoopPackageName;
        }
        r := Ok(Replace(template, placeholder, replacement));
      } else {
        r := Ok(template);
      }
    }

    /** replaceImports: the collecting loop over the text, then the
        rendering loop over what is left of it. The import set only grows. */
    method ReplaceImports(template: string) returns (r: string)
      modifies this`imports
      ensures (r, imports) == ImportsResolved(template, old(imports))
      ensures old(imports) <= imports
    {
      SpansNonEmpty(template);
      ghost var goal := Collect(template, Spans(template), imports);
      var m := MatcherFor(template);
      var current, acc := template, imports;
      ghost var before := m.Remaining();
      var found, placeholder;
      found, placeholder, m := m.Find();
      if found {
        CollectUnfold(current, before, acc);
      }
      while found
        invariant m.Valid() && NonEmpty(m.Remaining())
        invariant found ==> |placeholder| > 0
        invariant goal == if found then CollectOn(current, placeholder, m.Remaining(), acc) else (current, acc)
        invariant old(imports) <= acc
        decreases found, |m.Remaining()|
      {
        before := m.Remaining();
        current, acc := CollectStep(current, placeholder, before, acc);
        found, placeholder, m := m.Find();
        if found {
          CollectUnfold(current, before, acc);
        }
      }
      imports := acc;
      var importsString := ImportsString(imports);
      r := RenderImportsPass(current, importsString);
    }
  }
}
