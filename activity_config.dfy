/** The stage records of the newer generator (taverna_to_hadoop
    activity_configs): one ActivityConfig per MapReduce stage, holding the
    configuration name, paths and formats, ports, the forwarding map from
    output ports to the inputs they feed, and, for a Beanshell activity, its
    script. ActivityConfig is abstract with BeanshellConfig as its only
    subclass, so one class holds the fields of both. Fields the Java code
    leaves null are Option values. */
module ActivityConfigs {
  import opened Wrappers
  import opened JavaString
  import opened Files
  import opened Placeholders

  const TextClass: string := "Text.class"
  const IdentityMapTemplate: string := "identity-map.jtemp"
  const BeanshellReduceTemplate: string := "beanshell-activity-reduce.jtemp"
  const BeanshellRunTemplate: string := "beanshell-activity-run.jtemp"

  /** How Java renders a possibly-null string in a concatenation or a StringBuilder. */
  function Show(o: Option<string>): (r: string)
    ensures o.Some? ==> r == o.value
    ensures o.None? ==> r == "null"
  {
    match o
    case Some(v) => v
    case None => "null"
  }

  /** `outputToNextInput.get(port)`, as a StringBuilder appends it. */
  function Target(forward: map<string, string>, port: string): (r: string)
    ensures port in forward ==> r == forward[port]
    ensures port !in forward ==> r == "null"
  {
    if port in forward then forward[port] else "null"
  }

  /** Everything one stage object holds. */
  datatype StageValue = StageValue(
    name: string,
    inputPath: Option<string>,
    inputFormat: Option<string>,
    outputPath: Option<string>,
    outputFormat: Option<string>,
    outputKeyClass: string,
    outputValueClass: string,
    inputPorts: Option<seq<string>>,
    outputPorts: Option<seq<string>>,
    outputToNextInput: map<string, string>,
    script: Option<string>)

  /** A freshly constructed stage: its name, empty forwarding, Text key and value classes. */
  function NewStage(name: string): StageValue {
    StageValue(name, None, None, None, None, TextClass, TextClass, None, None, map[], None)
  }

  /** The block getMultipleOutputsWrite emits for one output port. */
  function WriteBlock(port: string, forward: map<string, string>): string {
    "newValue.set(interpreter.get(\"" + port + "\").toString());\n" + "\t\t\t\t"
      + "mos.write(\"" + Target(forward, port) + "\", key, newValue);\n" + "\t\t\t\t"
  }

  /** One WriteBlock per output port, in port order. */
  function WriteBlocks(ports: seq<string>, forward: map<string, string>): string
  {
    if ports == [] then [] else WriteBlock(ports[0], forward) + WriteBlocks(ports[1..], forward)
  }

  /** The line getMultipleOutputsRun emits for one output port. */
  function RunLine(name: string, port: string, forward: map<string, string>, keyClass: string, valueClass: string): string {
    "MultipleOutputs.addNamedOutput(jobConf" + name + ", \"" + Target(forward, port)
      + "\", TextOutputFormat.class, " + keyClass + ", " + valueClass + ");\n" + "\t\t"
  }

  /** One RunLine per output port, in port order. */
  function RunLines(name: string, ports: seq<string>, forward: map<string, string>, keyClass: string, valueClass: string): string
  {
    if ports == [] then []
    else RunLine(name, ports[0], forward, keyClass, valueClass) + RunLines(name, ports[1..], forward, keyClass, valueClass)
  }

  /** The fragments of a port list split in two are the fragments of each part, in order. */
  lemma {:induction false} WriteBlocksAppend(a: seq<string>, b: seq<string>, forward: map<string, string>)
    ensures WriteBlocks(a + b, forward) == WriteBlocks(a, forward) + WriteBlocks(b, forward)
  {
    if a == [] {
      assert a + b == b;
    } else {
      assert (a + b)[0] == a[0];
      assert (a + b)[1..] == a[1..] + b;
      WriteBlocksAppend(a[1..], b, forward);
    }
  }

  lemma {:induction false} RunLinesAppend(name: string, a: seq<string>, b: seq<string>, forward: map<string, string>, k: string, v: string)
    ensures RunLines(name, a + b, forward, k, v) == RunLines(name, a, forward, k, v) + RunLines(name, b, forward, k, v)
  {
    if a == [] {
      assert a + b == b;
    } else {
      assert (a + b)[0] == a[0];
      assert (a + b)[1..] == a[1..] + b;
      RunLinesAppend(name, a[1..], b, forward, k, v);
    }
  }

  /** What a recognised placeholder turns into: kept, replaced by a text, or
      replaced by a null value, which String.replace rejects. */
  datatype Substitution = Keep | Put(text: string) | NullValue

  function FromField(o: Option<string>): Substitution {
    match o
    case Some(v) => Put(v)
    case None => NullValue
  }

  /** The six variables a Beanshell template may use, in the order the
      if-chain of removePlaceholdersFromTemplate tests them. */
  datatype StageVariable = ConfigName | Script | InputFormat | OutputFormat | InputPath | OutputPath

  const Variables: seq<StageVariable> := [ConfigName, Script, InputFormat, OutputFormat, InputPath, OutputPath]

  /** A variable's placeholder, after whitespace removal. */
  function PlaceholderOf(v: StageVariable): string {
    match v
    case ConfigName => "<%=configName%>"
    case Script => "<%=script%>"
    case InputFormat => "<%=inputFormat%>"
    case OutputFormat => "<%=outputFormat%>"
    case InputPath => "<%=inputPath%>"
    case OutputPath => "<%=outputPath%>"
  }

  /** The six variable names a Beanshell template may use, after whitespace removal. */
  const StageVariables: set<string> := set v | v in Variables :: PlaceholderOf(v)

  /** The first test of the if-chain, among vs, that the stripped placeholder passes. */
  function FindVariable(stripped: string, vs: seq<StageVariable>): (r: Option<StageVariable>)
    ensures r.Some? ==> r.value in vs && PlaceholderOf(r.value) == stripped
    ensures r.None? ==> forall i :: 0 <= i < |vs| ==> PlaceholderOf(vs[i]) != stripped
    decreases |vs|
  {
    if vs == [] then None
    else if PlaceholderOf(vs[0]) == stripped then Some(vs[0])
    else
      var r := FindVariable(stripped, vs[1..]);
      assert r.None? ==> forall i :: 1 <= i < |vs| ==> vs[i] == vs[1..][i - 1];
      r
  }

  /** What the branch for variable v puts in place of its placeholder. */
  function Substitute(v: StageVariable, st: StageValue): (r: Substitution)
    ensures !r.Keep?
    ensures r.NullValue? <==> || (v == InputFormat && st.inputFormat.None?) || (v == OutputFormat && st.outputFormat.None?)
                              || (v == InputPath && st.inputPath.None?) || (v == OutputPath && st.outputPath.None?)
  {
    match v
    case ConfigName => Put(st.name)
    case Script => Put("\"" + Show(st.script) + "\"")
    case InputFormat => FromField(st.inputFormat)
    case OutputFormat => FromField(st.outputFormat)
    case InputPath => FromField(st.inputPath)
    case OutputPath => FromField(st.outputPath)
  }

  /** The substitution removePlaceholdersFromTemplate makes for a stripped placeholder. */
  function Lookup(stripped: string, st: StageValue): (r: Substitution)
    ensures r.Keep? <==> stripped !in StageVariables
    ensures r.NullValue? ==> st.inputFormat.None? || st.outputFormat.None? || st.inputPath.None? || st.outputPath.None?
  {
    match FindVariable(stripped, Variables)
    case None =>
      assert stripped !in StageVariables by {
        forall v | v in Variables ensures PlaceholderOf(v) != stripped {
          var i :| 0 <= i < |Variables| && Variables[i] == v;
        }
      }
      Keep
    case Some(v) => Substitute(v, st)
  }

  /** The script goes in between double quotes as it is, with no escaping:
      a script holding a quote ends the Java string literal early. */
  lemma ScriptInsertedUnescaped(st: StageValue)
    ensures Lookup("<%=script%>", st) == Put("\"" + Show(st.script) + "\"")
  {
  }

  /** One visit of the loop: the placeholder replaced everywhere in the current text. */
  function SubstituteOne(current: string, placeholder: string, st: StageValue): Result<string>
    requires |placeholder| > 0
  {
    match Lookup(StripWhitespace(placeholder), st)
    case Keep => Ok(current)
    case Put(t) => Ok(Replace(current, placeholder, t))
    case NullValue => Err(NullPointer)
  }

  /** Lookup as the if-chain of removePlaceholdersFromTemplate reads, test by test. */
  lemma LookupCases(stripped: string, st: StageValue)
    ensures stripped == "<%=configName%>" ==> Lookup(stripped, st) == Put(st.name)
    ensures stripped == "<%=script%>" ==> Lookup(stripped, st) == Put("\"" + Show(st.script) + "\"")
    ensures stripped == "<%=inputFormat%>" ==> Lookup(stripped, st) == FromField(st.inputFormat)
    ensures stripped == "<%=outputFormat%>" ==> Lookup(stripped, st) == FromField(st.outputFormat)
    ensures stripped == "<%=inputPath%>" ==> Lookup(stripped, st) == FromField(st.inputPath)
    ensures stripped == "<%=outputPath%>" ==> Lookup(stripped, st) == FromField(st.outputPath)
    ensures stripped !in StageVariables ==> Lookup(stripped, st) == Keep
  {
    assert Variables[1..] == [Script, InputFormat, OutputFormat, InputPath, OutputPath];
    assert Variables[1..][1..] == [InputFormat, OutputFormat, InputPath, OutputPath];
    assert Variables[1..][1..][1..] == [OutputFormat, InputPath, OutputPath];
    assert Variables[1..][1..][1..][1..] == [InputPath, OutputPath];
    assert Variables[1..][1..][1..][1..][1..] == [OutputPath];
  }

  /** Once the four path and format fields are set, no placeholder fails. */
  lemma SubstituteOneOk(current: string, placeholder: string, st: StageValue)
    requires |placeholder| > 0
    requires st.inputPath.Some? && st.outputPath.Some? && st.inputFormat.Some? && st.outputFormat.Some?
    ensures SubstituteOne(current, placeholder, st).Ok?
  {
    var l := Lookup(StripWhitespace(placeholder), st);
    assert !l.NullValue?;
  }

  /** The loop over the placeholders found in the text as read. */
  function SubstituteAll(current: string, spans: seq<string>, st: StageValue): Result<string>
    requires forall i :: 0 <= i < |spans| ==> IsPlaceholder(spans[i])
    decreases |spans|
  {
    if spans == [] then Ok(current)
    else
      assert IsPlaceholder(spans[0]);
      var next :- SubstituteOne(current, spans[0], st);
      SubstituteAll(next, spans[1..], st)
  }

  /** A text whose placeholders are all unrecognised comes back unchanged. */
  lemma {:induction false} UnknownPlaceholdersKept(current: string, spans: seq<string>, st: StageValue)
    requires forall i :: 0 <= i < |spans| ==> IsPlaceholder(spans[i])
    requires forall i :: 0 <= i < |spans| ==> StripWhitespace(spans[i]) !in StageVariables
    ensures SubstituteAll(current, spans, st) == Ok(current)
  {
    if spans != [] {
      UnknownPlaceholdersKept(current, spans[1..], st);
    }
  }

  /** The templates read one after the other, each followed by "\n". */
  function TemplateText(fs: map<string, string>, pathToTemplates: string, names: seq<string>): string
  {
    if names == [] then []
    else ReadFile(fs, pathToTemplates + names[0]) + "\n" + TemplateText(fs, pathToTemplates, names[1..])
  }

  /** What getMapReduce or getRun returns for the given template names. */
  function Expand(fs: map<string, string>, pathToTemplates: string, names: seq<string>, st: StageValue): Result<string> {
    var text := TemplateText(fs, pathToTemplates, names);
    SubstituteAll(text, Spans(text), st)
  }

  /** The StringBuilder loop that concatenates the templates. */
  method ReadTemplates(fs: map<string, string>, pathToTemplates: string, names: seq<string>) returns (text: string)
    ensures text == TemplateText(fs, pathToTemplates, names)
  {
    text := [];
    var j := 0;
    while j < |names|
      invariant 0 <= j <= |names|
      invariant text + TemplateText(fs, pathToTemplates, names[j..]) == TemplateText(fs, pathToTemplates, names)
    {
      ReadTemplatesStep(fs, pathToTemplates, names, j, text);
      text := text + ReadFile(fs, pathToTemplates + names[j]);
      text := text + "\n";
      j := j + 1;
    }
    assert names[j..] == [];
  }

  /** One more template: the text from the j-th name on starts with that template and "\n". */
  lemma TemplateTextStep(fs: map<string, string>, pathToTemplates: string, names: seq<string>, j: nat)
    requires j < |names|
    ensures TemplateText(fs, pathToTemplates, names[j..])
         == (ReadFile(fs, pathToTemplates + names[j]) + "\n") + TemplateText(fs, pathToTemplates, names[j + 1..])
  {
    assert names[j..][1..] == names[j + 1..];
  }

  /** One visit of the loop keeps the text read so far a prefix of the whole. */
  lemma ReadTemplatesStep(fs: map<string, string>, pathToTemplates: string, names: seq<string>, j: nat, text: string)
    requires j < |names|
    requires text + TemplateText(fs, pathToTemplates, names[j..]) == TemplateText(fs, pathToTemplates, names)
    ensures text + ReadFile(fs, pathToTemplates + names[j]) + "\n" + TemplateText(fs, pathToTemplates, names[j + 1..])
         == TemplateText(fs, pathToTemplates, names)
  {
    TemplateTextStep(fs, pathToTemplates, names, j);
  }

  class ActivityConfig {
    const name: string
    var inputPath: Option<string>
    var inputFormat: Option<string>
    var outputPath: Option<string>
    var outputFormat: Option<string>
    var outputKeyClass: string
    var outputValueClass: string
    var inputPorts: Option<seq<string>>
    var outputPorts: Option<seq<string>>
    var outputToNextInput: map<string, string>
    var script: Option<string>

    /** The state of this stage as a value. */
    function Snap(): StageValue
      reads this
    {
      StageValue(name, inputPath, inputFormat, outputPath, outputFormat, outputKeyClass, outputValueClass,
                 inputPorts, outputPorts, outputToNextInput, script)
    }

    constructor (name: string)
      ensures Snap() == NewStage(name)
    {
      this.name := name;
      inputPath, inputFormat, outputPath, outputFormat := None, None, None, None;
      outputKeyClass, outputValueClass := TextClass, TextClass;
      inputPorts, outputPorts := None, None;
      outputToNextInput := map[];
      script := None;
    }

    /** `equals(obj)`: another stage with the same name. */
    predicate Equals(other: ActivityConfig?)
      reads this, other
      ensures Equals(other) <==> other != null && other.name == name
    {
      other != null && other.name == name
    }

    /** `toString()`. */
    function ToString(): (r: string)
      ensures r == name
    {
      name
    }

    method AddToPortMap(thisOutputPort: string, nextInputPort: string)
      modifies this`outputToNextInput
      ensures outputToNextInput == old(outputToNextInput)[thisOutputPort := nextInputPort]
    {
      outputToNextInput := outputToNextInput[thisOutputPort := nextInputPort];
    }

    method SetInputPath(v: string)
      modifies this`inputPath
      ensures inputPath == Some(v)
    {
      inputPath := Some(v);
    }

    method SetInputFormat(v: string)
      modifies this`inputFormat
      ensures inputFormat == Some(v)
    {
      inputFormat := Some(v);
    }

    method SetOutputPath(v: string)
      modifies this`outputPath
      ensures outputPath == Some(v)
    {
      outputPath := Some(v);
    }

    method SetOutputFormat(v: string)
      modifies this`outputFormat
      ensures outputFormat == Some(v)
    {
      outputFormat := Some(v);
    }

    method SetInputPorts(v: seq<string>)
      modifies this`inputPorts
      ensures inputPorts == Some(v)
      ensures Snap() == old(Snap()).(inputPorts := Some(v))
    {
      inputPorts := Some(v);
    }

    method SetOutputPorts(v: seq<string>)
      modifies this`outputPorts
      ensures outputPorts == Some(v)
      ensures Snap() == old(Snap()).(outputPorts := Some(v))
    {
      outputPorts := Some(v);
    }

    method SetOutputKeyClass(v: string)
      modifies this`outputKeyClass
      ensures outputKeyClass == v
    {
      outputKeyClass := v;
    }

    method SetOutputValueClass(v: string)
      modifies this`outputValueClass
      ensures outputValueClass == v
    {
      outputValueClass := v;
    }

    method SetScript(v: string)
      modifies this`script
      ensures script == Some(v)
    {
      script := Some(v);
    }

    /** The Beanshell script fetch: the script property of the configuration,
        or "" when it cannot be read. */
    method FetchScript(property: Option<string>)
      modifies this`script
      ensures script == Some(if property.Some? then property.value else "")
      ensures Snap() == old(Snap()).(script := script)
    {
      script := Some("");
      if property.Some? {
        script := Some(property.value);
      }
    }

    /** `getMultipleOutputsWrite()`. */
    method GetMultipleOutputsWrite() returns (r: Result<string>)
      ensures outputPorts.None? ==> r == Err(NullPointer)
      ensures outputPorts.Some? ==> r == Ok(WriteBlocks(outputPorts.value, outputToNextInput))
    {
      if outputPorts.None? {
        return Err(NullPointer);
      }
      var ports := outputPorts.value;
      var builder: string := [];
      var i := 0;
      while i < |ports|
        invariant 0 <= i <= |ports|
        invariant builder + WriteBlocks(ports[i..], outputToNextInput) == WriteBlocks(ports, outputToNextInput)
      {
        assert ports[i..][1..] == ports[i + 1..];
        builder := builder + WriteBlock(ports[i], outputToNextInput);
        i := i + 1;
      }
      assert ports[i..] == [];
      assert WriteBlocks(ports[i..], outputToNextInput) == [];
      assert builder == WriteBlocks(ports, outputToNextInput);
      return Ok(builder);
    }

    /** `getMultipleOutputsRun()`. */
    method GetMultipleOutputsRun() returns (r: Result<string>)
      ensures outputPorts.None? ==> r == Err(NullPointer)
      ensures outputPorts.Some? ==> r == Ok(RunLines(name, outputPorts.value, outputToNextInput, outputKeyClass, outputValueClass))
    {
      if outputPorts.None? {
        return Err(NullPointer);
      }
      var ports, forward, keyClass, valueClass := outputPorts.value, outputToNextInput, outputKeyClass, outputValueClass;
      var builder: string := [];
      var i := 0;
      while i < |ports|
        invariant 0 <= i <= |ports|
        invariant builder + RunLines(name, ports[i..], forward, keyClass, valueClass) == RunLines(name, ports, forward, keyClass, valueClass)
      {
        assert ports[i..][1..] == ports[i + 1..];
        builder := builder + RunLine(name, ports[i], forward, keyClass, valueClass);
        i := i + 1;
      }
      assert ports[i..] == [];
      assert RunLines(name, ports[i..], forward, keyClass, valueClass) == [];
      assert builder == RunLines(name, ports, forward, keyClass, valueClass);
      return Ok(builder);
    }

    /** `removePlaceholdersFromTemplate(templateNames)`: reads the templates,
        then replaces the stage variables the matcher finds in the text as read. */
    method RemovePlaceholdersFromTemplate(fs: map<string, string>, pathToTemplates: string, names: seq<string>) returns (r: Result<string>)
      ensures r == Expand(fs, pathToTemplates, names, Snap())
    {
      var text := ReadTemplates(fs, pathToTemplates, names);
      var result := text;
      var matcher := MatcherFor(text);
      while true
        invariant matcher.Valid() && matcher.text == text
        invariant Expand(fs, pathToTemplates, names, Snap()) == SubstituteAll(result, matcher.Remaining(), Snap())
        decreases |matcher.Remaining()|
      {
        ghost var remaining := matcher.Remaining();
        var found, placeholder;
        found, placeholder, matcher := matcher.Find();
        if !found {
          return Ok(result);
        }
        assert IsPlaceholder(remaining[0]);
        var next := SubstituteStep(result, placeholder);
        if next.Err? {
          return next;
        }
        result := next.value;
      }
    }

    /** One visit of the loop in removePlaceholdersFromTemplate. */
    method SubstituteStep(current: string, placeholder: string) returns (r: Result<string>)
      requires |placeholder| > 0
      ensures r == SubstituteOne(current, placeholder, Snap())
    {
      var stripped := StripWhitespace(placeholder);
      LookupCases(stripped, Snap());
      if stripped == "<%=configName%>" {
        r := Ok(Replace(current, placeholder, name));
      } else if stripped == "<%=script%>" {
        r := Ok(Replace(current, placeholder, "\"" + Show(script) + "\""));
      } else if stripped == "<%=inputFormat%>" {
        r := if inputFormat.None? then Err(NullPointer) else Ok(Replace(current, placeholder, inputFormat.value));
      } else if stripped == "<%=outputFormat%>" {
        r := if outputFormat.None? then Err(NullPointer) else Ok(Replace(current, placeholder, outputFormat.value));
      } else if stripped == "<%=inputPath%>" {
        r := if inputPath.None? then Err(NullPointer) else Ok(Replace(current, placeholder, inputPath.value));
      } else if stripped == "<%=outputPath%>" {
        r := if outputPath.None? then Err(NullPointer) else Ok(Replace(current, placeholder, outputPath.value));
      } else {
        r := Ok(current);
      }
    }

    /** `getMapReduce()`: the identity mapper and the Beanshell reducer templates, expanded. */
    method GetMapReduce(fs: map<string, string>, pathToTemplates: string) returns (r: Result<string>)
      ensures r == Expand(fs, pathToTemplates, [IdentityMapTemplate, BeanshellReduceTemplate], Snap())
    {
      r := RemovePlaceholdersFromTemplate(fs, pathToTemplates, [IdentityMapTemplate, BeanshellReduceTemplate]);
    }

    /** `getRun()`: the Beanshell run template, expanded. */
    method GetRun(fs: map<string, string>, pathToTemplates: string) returns (r: Result<string>)
      ensures r == Expand(fs, pathToTemplates, [BeanshellRunTemplate], Snap())
    {
      r := RemovePlaceholdersFromTemplate(fs, pathToTemplates, [BeanshellRunTemplate]);
    }
  }
}
