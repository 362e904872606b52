/** The wrapper-template pass of the older generator
    (taverna_compilation WorkflowTranslator): the `<%@includemapreduce%>`
    directive becomes the includes of the mapper and reducer templates the
    mapping assigns to the bundle's first activity, each numbered with a
    fresh counter value under which the activity's script is stored, and
    `<%@includerun%>` becomes the include of the run template. The shared
    state is the Config's counter and activity-configuration table. */
module CompilationWorkflowTranslator {
  import opened Wrappers
  import opened JavaString
  import opened Placeholders
  import opened Directives
  import opened Scufl
  import opened ToHadoopConfig
  import opened ActivityConfigs
  import CompilationTemplateTranslator

  const BeanshellUri: string := "http://ns.taverna.org.uk/2010/activity/beanshell"
  const MapReduceDirective: string := "<%@includemapreduce%>"
  const RunDirective: string := "<%@includerun%>"
  const IdentityMapInclude: string := "<%@ include file = \"identity-map.jtemp\" %>"
  const IdentityReduceInclude: string := "<%@ include file = \"identity-reduce.jtemp\" %>"
  const RunInclude: string := "<%@ include file = \"beanshell-activity-run.jtemp\" %>"

  /** The include the pass writes for a mapped template: the template's
      file name and, after a bar, the counter value its script is stored under. */
  function NumberedInclude(file: string, n: int): string {
    IncludeHead + "\"" + file + "\"" + " | " + IntToString(n) + " %>"
  }

  const IncludeHead: string := "<%@ include file = "

  /** The part of the Config the pass changes. */
  datatype Counters = Counters(counter: int, configurations: map<string, string>)

  /** A step of the pass: the text or the exception, and the Config after it
      (a counter value drawn before an exception stays drawn). */
  datatype Step = Step(text: Result<string>, state: Counters)

  /** `putActivityConfiguration(n + "", script of configurations.first())`:
      the first configuration of the profile, which must exist; a script
      that cannot be read is only logged. */
  function Store(b: Bundle, configurations: map<string, string>, n: int): (r: Result<map<string, string>>)
    ensures r.Err? <==> b.configurations == []
    ensures r.Ok? ==> r.value.Keys == configurations.Keys + (if b.configurations[0].script.Some? then {IntToString(n)} else {})
    ensures r.Ok? ==> forall k :: k in configurations && k != IntToString(n) ==> r.value[k] == configurations[k]
    ensures r.Ok? && b.configurations[0].script.Some? ==> r.value[IntToString(n)] == b.configurations[0].script.value
  {
    if b.configurations == [] then Err(NoSuchElement)
    else
      match b.configurations[0].script
      case Some(s) => Ok(configurations[IntToString(n) := s])
      case None => Ok(configurations)
  }

  /** A numbered include for `file`: the counter value is drawn, then the
      script is stored under it. */
  function Numbered(b: Bundle, file: string, st: Counters): (o: Step)
    requires IsInt32(st.counter)
    ensures IsInt32(o.state.counter) && o.state.counter == Next(st.counter)
    ensures o.text.Err? <==> b.configurations == []
    ensures o.text.Ok? ==> o.text.value == NumberedInclude(file, st.counter)
    ensures o.text.Ok? ==> o.state.configurations == Store(b, st.configurations, st.counter).value
  {
    var n := st.counter;
    var drawn := st.(counter := Next(n));
    match Store(b, st.configurations, n)
    case Err(f) => Step(Err(f), drawn)
    case Ok(c) => Step(Ok(NumberedInclude(file, n)), drawn.(configurations := c))
  }

  /** `reducer != ""` as the code is written: a reference comparison with
      the interned literal. It holds for every reducer name the mapping
      table gives back on a runtime whose `split` makes a new object for
      an empty piece, since those names are built while the mapping is read. */
  predicate ReducerMappedAsWritten(reducer: Option<string>) {
    true
  }

  /** The comparison by content the test evidently means: a missing entry
      still counts as mapped (it prints as "null"), an empty name does not. */
  predicate ReducerMapped(reducer: Option<string>) {
    reducer != Some("")
  }

  /** The replacement of `<%@includemapreduce%>` for a beanshell activity,
      with the reducer test given as `reducerMapped`. A missing mapper
      entry throws on `length()`. */
  function MapReduceWith(b: Bundle, mapper: map<string, string>, reducer: map<string, string>, st: Counters, reducerMapped: bool): (o: Step)
    requires IsInt32(st.counter)
    ensures IsInt32(o.state.counter)
  {
    match Get(mapper, BeanshellUri)
    case None => Step(Err(NullPointer), st)
    case Some(m) =>
      var first := if |m| > 0 then Numbered(b, m, st) else Step(Ok(IdentityMapInclude), st);
      if first.text.Err? then first
      else
        var red := Get(reducer, BeanshellUri);
        var second := if reducerMapped then Numbered(b, Show(red), first.state) else Step(Ok(IdentityReduceInclude), first.state);
        if second.text.Err? then second
        else Step(Ok(first.text.value + "\n" + second.text.value), second.state)
  }

  /** The replacement with the reducer compared by content. */
  function MapReduce(b: Bundle, mapper: map<string, string>, reducer: map<string, string>, st: Counters): (o: Step)
    requires IsInt32(st.counter)
    ensures IsInt32(o.state.counter)
  {
    MapReduceWith(b, mapper, reducer, st, ReducerMapped(Get(reducer, BeanshellUri)))
  }

  /** The replacement as written, with the reference comparison. */
  function MapReduceAsWritten(b: Bundle, mapper: map<string, string>, reducer: map<string, string>, st: Counters): (o: Step)
    requires IsInt32(st.counter)
    ensures IsInt32(o.state.counter)
  {
    MapReduceWith(b, mapper, reducer, st, ReducerMappedAsWritten(Get(reducer, BeanshellUri)))
  }

  /** The two directives of a wrapper template. */
  datatype Directive = IncludeMapReduce | IncludeRun | NoDirective

  /** The directive a span is: its whitespace-free form compared with the
      directive ignoring case. */
  function DirectiveOf(placeholder: string): Directive {
    var stripped := StripWhitespace(placeholder);
    if EqualsIgnoreCase(stripped, MapReduceDirective) then IncludeMapReduce
    else if EqualsIgnoreCase(stripped, RunDirective) then IncludeRun
    else NoDirective
  }

  /** handlePlaceholder: the first activity of the profile is taken for
      every span, then the span's directive decides. */
  function Handle(b: Bundle, mapper: map<string, string>, reducer: map<string, string>, text: string, placeholder: string, st: Counters): (o: Step)
    requires |placeholder| > 0 && IsInt32(st.counter)
    ensures IsInt32(o.state.counter)
  {
    if b.activities == [] then Step(Err(NoSuchElement), st)
    else
      match DirectiveOf(placeholder)
      case IncludeMapReduce =>
        if b.activities[0].typeUri == BeanshellUri then
          var o := MapReduce(b, mapper, reducer, st);
          if o.text.Err? then o else Step(Ok(Replace(text, placeholder, o.text.value)), o.state)
        else Step(Ok(text), st)
      case IncludeRun => Step(Ok(Replace(text, placeholder, RunInclude)), st)
      case NoDirective => Step(Ok(text), st)
  }

  /** replacePlaceholders: the spans of the text it starts from, each handled
      in the current text, until one of them throws. */
  function Pass(b: Bundle, mapper: map<string, string>, reducer: map<string, string>, text: string, spans: seq<string>, st: Counters): (o: Step)
    requires NonEmpty(spans) && IsInt32(st.counter)
    ensures IsInt32(o.state.counter)
    decreases |spans|
  {
    if spans == [] then Step(Ok(text), st)
    else
      var o := Handle(b, mapper, reducer, text, spans[0], st);
      if o.text.Err? then o else Pass(b, mapper, reducer, o.text.value, spans[1..], o.state)
  }

  /** The pass from the span p on, the spans after it being rest. */
  ghost function PassOn(b: Bundle, mapper: map<string, string>, reducer: map<string, string>, text: string, p: string, rest: seq<string>, st: Counters): Step
    requires |p| > 0 && NonEmpty(rest) && IsInt32(st.counter)
  {
    var o := Handle(b, mapper, reducer, text, p, st);
    if o.text.Err? then o else Pass(b, mapper, reducer, o.text.value, rest, o.state)
  }

  lemma PassUnfold(b: Bundle, mapper: map<string, string>, reducer: map<string, string>, text: string, spans: seq<string>, st: Counters)
    requires NonEmpty(spans) && spans != [] && IsInt32(st.counter)
    ensures |spans[0]| > 0 && NonEmpty(spans[1..])
    ensures Pass(b, mapper, reducer, text, spans, st) == PassOn(b, mapper, reducer, text, spans[0], spans[1..], st)
  {
  }

  /** translate: the placeholder pass over the wrapper template, nothing more. */
  function Translated(b: Bundle, mapper: map<string, string>, reducer: map<string, string>, template: string, st: Counters): (o: Step)
    requires IsInt32(st.counter)
    ensures IsInt32(o.state.counter)
  {
    SpansNonEmpty(template);
    Pass(b, mapper, reducer, template, Spans(template), st)
  }

  // ---------------------------------------------------------------------
  // Properties of the pass

  /** A beanshell activity with a mapped mapper and reducer: the mapper
      include takes the current counter value, the reducer include the
      next one, the two numbers (and their keys) differ, and the script is
      stored under both. */
  lemma MapReduceNumbers(b: Bundle, mapper: map<string, string>, reducer: map<string, string>, st: Counters)
    requires IsInt32(st.counter)
    requires BeanshellUri in mapper && |mapper[BeanshellUri]| > 0
    requires ReducerMapped(Get(reducer, BeanshellUri))
    requires b.configurations != []
    ensures var c := st.counter;
            var o := MapReduce(b, mapper, reducer, st);
            && o.text == Ok(NumberedInclude(mapper[BeanshellUri], c) + "\n" + NumberedInclude(Show(Get(reducer, BeanshellUri)), Next(c)))
            && o.state.counter == Next(Next(c))
            && IntToString(c) != IntToString(Next(c))
            && (b.configurations[0].script.Some? ==>
                  var s := b.configurations[0].script.value;
                  o.state.configurations == st.configurations[IntToString(c) := s][IntToString(Next(c)) := s])
  {
    var c := st.counter;
    NextDiffers(c);
    if IntToString(c) == IntToString(Next(c)) {
      IntToStringInjective(c, Next(c));
    }
  }

  /** An empty mapper name and an empty reducer name give the identity
      includes and leave the Config as it was. */
  lemma MapReduceIdentity(b: Bundle, mapper: map<string, string>, reducer: map<string, string>, st: Counters)
    requires IsInt32(st.counter)
    requires Get(mapper, BeanshellUri) == Some("") && Get(reducer, BeanshellUri) == Some("")
    ensures MapReduce(b, mapper, reducer, st) == Step(Ok(IdentityMapInclude + "\n" + IdentityReduceInclude), st)
  {
  }

  /** A missing mapper entry throws before anything is drawn or stored. */
  lemma MapReduceWithoutMapper(b: Bundle, mapper: map<string, string>, reducer: map<string, string>, st: Counters)
    requires IsInt32(st.counter) && BeanshellUri !in mapper
    ensures MapReduce(b, mapper, reducer, st) == Step(Err(NullPointer), st)
  {
  }

  /** A span is a directive exactly when its whitespace-free form equals
      the directive ignoring case; the two directives exclude each other. */
  lemma DirectiveOfCases(placeholder: string)
    ensures DirectiveOf(placeholder) == IncludeMapReduce <==> EqualsIgnoreCase(StripWhitespace(placeholder), MapReduceDirective)
    ensures DirectiveOf(placeholder) == IncludeRun <==> EqualsIgnoreCase(StripWhitespace(placeholder), RunDirective)
  {
    assert |RunDirective| != |MapReduceDirective|;
  }

  /** Case and whitespace inside the span do not matter. */
  lemma DirectiveIgnoresCase(p: string, q: string)
    requires EqualsIgnoreCase(StripWhitespace(p), StripWhitespace(q))
    ensures DirectiveOf(p) == DirectiveOf(q)
  {
    var a, b := StripWhitespace(p), StripWhitespace(q);
    EqualsIgnoreCaseIsLowerEquality(a, b);
    EqualsIgnoreCaseIsLowerEquality(a, MapReduceDirective);
    EqualsIgnoreCaseIsLowerEquality(b, MapReduceDirective);
    EqualsIgnoreCaseIsLowerEquality(a, RunDirective);
    EqualsIgnoreCaseIsLowerEquality(b, RunDirective);
  }

  /** Spans other than the two directives, and the mapreduce directive of
      an activity that is not a beanshell, leave text and Config alone. */
  lemma HandleKeepsOthers(b: Bundle, mapper: map<string, string>, reducer: map<string, string>, text: string, placeholder: string, st: Counters)
    requires |placeholder| > 0 && IsInt32(st.counter) && b.activities != []
    requires DirectiveOf(placeholder) == NoDirective
             || (DirectiveOf(placeholder) == IncludeMapReduce && b.activities[0].typeUri != BeanshellUri)
    ensures Handle(b, mapper, reducer, text, placeholder, st) == Step(Ok(text), st)
  {
  }

  /** The run directive always becomes the run include. */
  lemma HandleRun(b: Bundle, mapper: map<string, string>, reducer: map<string, string>, text: string, placeholder: string, st: Counters)
    requires |placeholder| > 0 && IsInt32(st.counter) && b.activities != []
    requires DirectiveOf(placeholder) == IncludeRun
    ensures Handle(b, mapper, reducer, text, placeholder, st) == Step(Ok(Replace(text, placeholder, RunInclude)), st)
  {
  }

  /** The mapreduce directive of a beanshell activity is replaced by the
      mapper and reducer includes, or the pass ends in their exception. */
  lemma HandleMapReduce(b: Bundle, mapper: map<string, string>, reducer: map<string, string>, text: string, placeholder: string, st: Counters)
    requires |placeholder| > 0 && IsInt32(st.counter) && b.activities != []
    requires DirectiveOf(placeholder) == IncludeMapReduce && b.activities[0].typeUri == BeanshellUri
    ensures var o := MapReduce(b, mapper, reducer, st);
            Handle(b, mapper, reducer, text, placeholder, st)
            == if o.text.Err? then o else Step(Ok(Replace(text, placeholder, o.text.value)), o.state)
  {
  }

  /** Every span looks at the profile's first activity, so a profile without
      activities makes the first span throw; a template without spans
      passes through even then. */
  lemma NoActivities(b: Bundle, mapper: map<string, string>, reducer: map<string, string>, template: string, st: Counters)
    requires IsInt32(st.counter) && b.activities == []
    ensures Translated(b, mapper, reducer, template, st) == if Spans(template) == [] then Step(Ok(template), st) else Step(Err(NoSuchElement), st)
  {
    SpansNonEmpty(template);
  }

  /** A pass over spans none of which is a directive leaves the text and
      the Config as they were. */
  lemma {:induction false} PassKeepsOthers(b: Bundle, mapper: map<string, string>, reducer: map<string, string>, text: string, spans: seq<string>, st: Counters)
    requires NonEmpty(spans) && IsInt32(st.counter) && b.activities != []
    requires forall i :: 0 <= i < |spans| ==> DirectiveOf(spans[i]) == NoDirective
    ensures Pass(b, mapper, reducer, text, spans, st) == Step(Ok(text), st)
    decreases |spans|
  {
    if spans != [] {
      HandleKeepsOthers(b, mapper, reducer, text, spans[0], st);
      PassKeepsOthers(b, mapper, reducer, text, spans[1..], st);
    }
  }

  /** The pass only adds configurations: every key stored before is still
      there, and its value changes only under a counter value drawn by the pass. */
  lemma {:induction false} PassKeepsKeys(b: Bundle, mapper: map<string, string>, reducer: map<string, string>, text: string, spans: seq<string>, st: Counters)
    requires NonEmpty(spans) && IsInt32(st.counter)
    ensures st.configurations.Keys <= Pass(b, mapper, reducer, text, spans, st).state.configurations.Keys
    decreases |spans|
  {
    if spans != [] {
      var o := Handle(b, mapper, reducer, text, spans[0], st);
      assert st.configurations.Keys <= o.state.configurations.Keys;
      if o.text.Ok? {
        PassKeepsKeys(b, mapper, reducer, o.text.value, spans[1..], o.state);
      }
    }
  }

  // ---------------------------------------------------------------------
  // The numbered include, read back by the template translator

  /** A template file name the include can carry through whitespace
      removal and the quote and bar parsing. */
  predicate PlainName(s: string) {
    forall i :: 0 <= i < |s| ==> !IsSpace(s[i]) && !IsLineTerminator(s[i]) && s[i] != '"' && s[i] != '|'
  }

  lemma StripBeforeSpace(a: string, b: string)
    requires NoSpace(a)
    ensures StripWhitespace(a + " " + b) == a + StripWhitespace(b)
  {
    var sp := " ";
    assert sp[1..] == [] && IsSpace(sp[0]);
    assert StripWhitespace(sp) == [];
    StripWhitespaceConcat(a, sp);
    StripWhitespaceConcat(a + sp, b);
  }

  lemma StripThree(x: char, y: char, z: char)
    ensures StripWhitespace([x, y, z]) == (if IsSpace(x) then [] else [x]) + (if IsSpace(y) then [] else [y]) + (if IsSpace(z) then [] else [z])
  {
    assert [x, y, z][1..] == [y, z];
    assert [y, z][1..] == [z];
    assert [z][1..] == [];
    assert StripWhitespace([z]) == (if IsSpace(z) then [] else [z]) + StripWhitespace([]);
    assert StripWhitespace([y, z]) == (if IsSpace(y) then [] else [y]) + StripWhitespace([z]);
  }

  /** The head of the include holds no quote and no bar, with or without its whitespace. */
  lemma IncludeHeadShape()
    ensures var h := StripWhitespace(IncludeHead);
            '"' !in h && '|' !in h
  {
    assert '"' !in IncludeHead && '|' !in IncludeHead by {
      forall k | 0 <= k < |IncludeHead| ensures IncludeHead[k] != '"' && IncludeHead[k] != '|' {
      }
    }
    StripWhitespaceKeeps(IncludeHead, '"');
    StripWhitespaceKeeps(IncludeHead, '|');
  }

  lemma StripSeven(a: string, b: string, c: string, d: string, e: string, f: string, g: string)
    ensures StripWhitespace(a + b + c + d + e + f + g)
         == StripWhitespace(a) + StripWhitespace(b) + StripWhitespace(c) + StripWhitespace(d)
            + StripWhitespace(e) + StripWhitespace(f) + StripWhitespace(g)
  {
    StripWhitespaceConcat(a, b);
    StripWhitespaceConcat(a + b, c);
    StripWhitespaceConcat(a + b + c, d);
    StripWhitespaceConcat(a + b + c + d, e);
    StripWhitespaceConcat(a + b + c + d + e, f);
    StripWhitespaceConcat(a + b + c + d + e + f, g);
  }

  lemma Regroup(a: string, b: string, c: string, d: string, e: string, f: string, g: string)
    ensures a + b + c + d + e + f + g == (a + b + c + d) + e + (f + g)
    ensures a + b + c + d + e + f + g == a + b + c + d + (e + f + g)
  {
  }

  /** The numbered include with its whitespace removed, as handlePlaceholder sees it. */
  function StrippedInclude(file: string, n: int): string {
    StripWhitespace(IncludeHead) + "\"" + file + "\"" + "|" + IntToString(n) + "%>"
  }

  /** Whitespace removal of seven pieces, when that of the last six is known. */
  lemma StripSevenKnown(a: string, b: string, c: string, d: string, e: string, f: string, g: string,
                        b': string, c': string, d': string, e': string, f': string, g': string)
    requires StripWhitespace(b) == b' && StripWhitespace(c) == c' && StripWhitespace(d) == d'
    requires StripWhitespace(e) == e' && StripWhitespace(f) == f' && StripWhitespace(g) == g'
    ensures StripWhitespace(a + b + c + d + e + f + g) == StripWhitespace(a) + b' + c' + d' + e' + f' + g'
  {
    StripSeven(a, b, c, d, e, f, g);
  }

  /** The three short pieces of the include, with their whitespace removed. */
  lemma IncludePiecesStripped()
    ensures StripWhitespace("\"") == "\""
    ensures StripWhitespace(" | ") == "|"
    ensures StripWhitespace(" %>") == "%>"
  {
    assert NoSpace("\"");
    StripThree(' ', '|', ' ');
    StripThree(' ', '%', '>');
  }

  /** Whitespace removal keeps the file name and the number of the include. */
  lemma StrippedNumberedInclude(file: string, n: int)
    requires PlainName(file)
    ensures StripWhitespace(NumberedInclude(file, n)) == StrippedInclude(file, n)
  {
    var d := IntToString(n);
    var q, bar, close := "\"", " | ", " %>";
    assert NoSpace(file) && NoSpace(d);
    IncludePiecesStripped();
    StripSevenKnown(IncludeHead, q, file, q, bar, d, close, q, file, q, "|", d, "%>");
  }

  /** Neither side of the include's bar holds another bar. */
  lemma NoBarAround(file: string, n: int)
    requires PlainName(file)
    ensures '|' !in StripWhitespace(IncludeHead) + "\"" + file + "\""
    ensures '|' !in IntToString(n) + "%>"
  {
    IncludeHeadShape();
    assert '|' !in file by {
      forall i | 0 <= i < |file| ensures file[i] != '|' {
      }
    }
    var d := IntToString(n);
    assert '|' !in d by {
      forall i | 0 <= i < |d| ensures d[i] != '|' {
        assert IsDigit(d[i]) || d[i] == '-';
      }
    }
  }

  /** The key the template translator reads from the include (the piece
      after the bar, without "%>") is the number the include was written with. */
  lemma ScriptKeyOfInclude(file: string, n: int)
    requires PlainName(file)
    ensures CompilationTemplateTranslator.ScriptKey(StripWhitespace(NumberedInclude(file, n))) == Ok(IntToString(n))
  {
    StrippedNumberedInclude(file, n);
    IncludeHeadShape();
    var h := StripWhitespace(IncludeHead);
    var d := IntToString(n);
    var head := h + "\"" + file + "\"";
    var tail := d + "%>";
    Regroup(h, "\"", file, "\"", "|", d, "%>");
    assert StrippedInclude(file, n) == head + "|" + tail;
    NoBarAround(file, n);
    SplitTwo(head, tail, '|');
    assert tail[..|tail| - 2] == d;
  }

  /** The file name the template translator reads from the include's first
      quoted string is the mapped template's name. */
  lemma FirstQuotedOfInclude(file: string, n: int)
    requires PlainName(file)
    ensures FirstQuoted(StripWhitespace(NumberedInclude(file, n))) == Some(file)
  {
    StrippedNumberedInclude(file, n);
    IncludeHeadShape();
    var h := StripWhitespace(IncludeHead);
    var d := IntToString(n);
    Regroup(h, "\"", file, "\"", "|", d, "%>");
    assert StrippedInclude(file, n) == h + "\"" + file + "\"" + ("|" + d + "%>");
    FirstQuotedOf(h, file, "|" + d + "%>");
  }

  // ---------------------------------------------------------------------
  // The reducer test

  /** An empty reducer name: as written the test passes, so a second
      counter value is drawn and an include of the file "" is written; by
      content the identity reducer is included and nothing is drawn. */
  lemma ReducerTestFinding(b: Bundle, mapper: map<string, string>, reducer: map<string, string>, st: Counters)
    requires IsInt32(st.counter) && b.configurations != []
    requires Get(mapper, BeanshellUri) == Some("") && Get(reducer, BeanshellUri) == Some("")
    ensures MapReduceAsWritten(b, mapper, reducer, st).text == Ok(IdentityMapInclude + "\n" + NumberedInclude("", st.counter))
    ensures MapReduceAsWritten(b, mapper, reducer, st).state.counter == Next(st.counter)
    ensures MapReduce(b, mapper, reducer, st) == Step(Ok(IdentityMapInclude + "\n" + IdentityReduceInclude), st)
  {
  }

  // ---------------------------------------------------------------------
  // The translator

  /** WorkflowTranslator: a template translator bound to a workflow bundle
      and to the Config it draws counter values from. */
  class WorkflowTranslator {
    const workflowBundle: Bundle
    const cfg: Config

    constructor (workflowBundle: Bundle, cfg: Config)
      ensures this.workflowBundle == workflowBundle && this.cfg == cfg
    {
      this.workflowBundle := workflowBundle;
      this.cfg := cfg;
    }

    /** The Config fields the pass changes, as one value. */
    function State(): Counters
      reads cfg
    {
      Counters(cfg.counter, cfg.activityConfigurations)
    }

    /** translate: the placeholder pass only, no imports, nothing written. */
    method Translate(template: string) returns (r: Result<string>)
      requires cfg.Valid()
      modifies cfg`counter, cfg`activityConfigurations
      ensures cfg.Valid()
      ensures var o := Translated(workflowBundle, cfg.mapperMapping, cfg.reducerMapping, template, old(State()));
              r == o.text && State() == o.state
    {
      r := ReplacePlaceholders(template);
    }

    /** replacePlaceholders: a matcher bound to the template, each span it
        finds handled in the current text. */
    method ReplacePlaceholders(template: string) returns (r: Result<string>)
      requires cfg.Valid()
      modifies cfg`counter, cfg`activityConfigurations
      ensures cfg.Valid()
      ensures var o := Pass(workflowBundle, cfg.mapperMapping, cfg.reducerMapping, template, Spans(template), old(State()));
              r == o.text && State() == o.state
    {
      SpansNonEmpty(template);
      ghost var goal := Pass(workflowBundle, cfg.mapperMapping, cfg.reducerMapping, template, Spans(template), State());
      var m := MatcherFor(template);
      var current := template;
      ghost var before := m.Remaining();
      var found, placeholder;
      found, placeholder, m := m.Find();
      if found {
        PassUnfold(workflowBundle, cfg.mapperMapping, cfg.reducerMapping, current, before, State());
      }
      while found
        invariant cfg.Valid()
        invariant m.Valid() && NonEmpty(m.Remaining())
        invariant found ==> |placeholder| > 0
        invariant goal == if found then PassOn(workflowBundle, cfg.mapperMapping, cfg.reducerMapping, current, placeholder, m.Remaining(), State())
                          else Step(Ok(current), State())
        decreases found, |m.Remaining()|
      {
        before := m.Remaining();
        var next := HandlePlaceholder(current, placeholder);
        if next.Err? {
          return next;
        }
        current := next.value;
        found, placeholder, m := m.Find();
        if found {
          PassUnfold(workflowBundle, cfg.mapperMapping, cfg.reducerMapping, current, before, State());
        }
      }
      r := Ok(current);
    }

    /** handlePlaceholder: one span of the wrapper template resolved. */
    method HandlePlaceholder(template: string, placeholder: string) returns (r: Result<string>)
      requires |placeholder| > 0 && cfg.Valid()
      modifies cfg`counter, cfg`activityConfigurations
      ensures cfg.Valid()
      ensures var o := Handle(workflowBundle, cfg.mapperMapping, cfg.reducerMapping, template, placeholder, old(State()));
              r == o.text && State() == o.state
    {
      var placeholderStripped := StripWhitespace(placeholder);
      if workflowBundle.activities == [] {
        return Err(NoSuchElement);
      }
      ghost var st := State();
      var activity := workflowBundle.activities[0];
      DirectiveOfCases(placeholder);
      if EqualsIgnoreCase(placeholderStripped, MapReduceDirective) {
        if activity.typeUri == BeanshellUri {
          HandleMapReduce(workflowBundle, cfg.mapperMapping, cfg.reducerMapping, template, placeholder, st);
          var replacement := MapReduceReplacement();
          if replacement.Err? {
            return replacement;
          }
          r := Ok(Replace(template, placeholder, replacement.value));
        } else {
          HandleKeepsOthers(workflowBundle, cfg.mapperMapping, cfg.reducerMapping, template, placeholder, st);
          r := Ok(template);
        }
      } else if EqualsIgnoreCase(placeholderStripped, RunDirective) {
        HandleRun(workflowBundle, cfg.mapperMapping, cfg.reducerMapping, template, placeholder, st);
        r := Ok(Replace(template, placeholder, RunInclude));
      } else {
        HandleKeepsOthers(workflowBundle, cfg.mapperMapping, cfg.reducerMapping, template, placeholder, st);
        r := Ok(template);
      }
    }

    /** The replacement of the mapreduce directive for a beanshell activity. */
    method MapReduceReplacement() returns (r: Result<string>)
      requires cfg.Valid()
      modifies cfg`counter, cfg`activityConfigurations
      ensures cfg.Valid()
      ensures var o := MapReduce(workflowBundle, cfg.mapperMapping, cfg.reducerMapping, old(State()));
              r == o.text && State() == o.state
    {
      var mapper := Get(cfg.mapperMapping, BeanshellUri);
      if mapper.None? {
        return Err(NullPointer);
      }
      var replacement;
      if |mapper.value| > 0 {
        var mapped := IncludeNumbered(mapper.value);
        if mapped.Err? {
          return mapped;
        }
        replacement := mapped.value;
      } else {
        replacement := IdentityMapInclude;
      }
      var reducer := Get(cfg.reducerMapping, BeanshellUri);
      if ReducerMapped(reducer) {
        var reduced := IncludeNumbered(Show(reducer));
        if reduced.Err? {
          return reduced;
        }
        replacement := replacement + "\n" + reduced.value;
      } else {
        replacement := replacement + "\n" + IdentityReduceInclude;
      }
      r := Ok(replacement);
    }

    /** A numbered include of `file`: getCount, then the script of the
        first configuration stored under the number. */
    method IncludeNumbered(file: string) returns (r: Result<string>)
      requires cfg.Valid()
      modifies cfg`counter, cfg`activityConfigurations
      ensures cfg.Valid()
      ensures var o := Numbered(workflowBundle, file, old(State()));
              r == o.text && State() == o.state
    {
      var configNumber := cfg.GetCount();
      if workflowBundle.configurations == [] {
        return Err(NoSuchElement);
      }
      var script := workflowBundle.configurations[0].script;
      if script.Some? {
        cfg.PutActivityConfiguration(IntToString(configNumber), script.value);
      }
      r := Ok(NumberedInclude(file, configNumber));
    }
  }
}
