/** The command-line interpretation of the template-compilation engine's
    entry point: the help and version flags, the log level, the mandatory
    input and output files, the Hadoop class name derived from the output
    file, and the options that override the generator's Config. The parser
    itself is left to commons-cli; what it hands over is a CommandLine value,
    or nothing when it threw a ParseException. */
module CompilationMain {
  import opened Wrappers
  import opened JavaString
  import opened ToHadoopConfig

  /** The log4j levels the -l option can select. */
  datatype Level = Debug | Info | Warn | Error | Fatal

  const DefaultLevel := Info

  /** A parsed command line: whether -h and -v are present and the value of
      each option that takes one, absent when the option is not given. */
  datatype CommandLine = CommandLine(
    help: bool,
    version: bool,
    verbosity: Option<string>,    // -l
    input: Option<string>,        // -i
    output: Option<string>,       // -o
    templates: Option<string>,    // -t
    mappingFile: Option<string>,  // -m
    className: Option<string>,    // -C
    packageName: Option<string>)  // -P

  /** How interpretation ends early: System.exit with a status, or an
      exception nothing catches. */
  datatype Stop = Exit(status: int) | Crash(fault: Fault)

  /** The state parseCommandLine changes: its own static fields and the
      four Config fields that options override. */
  datatype Settings = Settings(
    loglevel: Level,
    inputFilename: Option<string>,
    outputFilename: Option<string>,
    pathToTemplates: string,
    templateMappingFile: string,
    hadoopClassName: string,
    hadoopPackageName: string)

  datatype Outcome = Outcome(stop: Option<Stop>, settings: Settings)

  // ---------------------------------------------------------------------
  // The log level
  // ---------------------------------------------------------------------

  function LevelName(l: Level): string {
    match l
    case Debug => "debug"
    case Info => "info"
    case Warn => "warn"
    case Error => "error"
    case Fatal => "fatal"
  }

  /** The level a -l value names, compared ignoring case, or None for a
      value that names no level. */
  function ParseLevel(v: string): (r: Option<Level>)
    ensures r.Some? ==> EqualsIgnoreCase(v, LevelName(r.value))
    ensures r.None? <==> forall l: Level :: !EqualsIgnoreCase(v, LevelName(l))
  {
    if EqualsIgnoreCase(v, "debug") then Some(Debug)
    else if EqualsIgnoreCase(v, "info") then Some(Info)
    else if EqualsIgnoreCase(v, "warn") then Some(Warn)
    else if EqualsIgnoreCase(v, "error") then Some(Error)
    else if EqualsIgnoreCase(v, "fatal") then Some(Fatal)
    else None
  }

  /** The level after -l: the named level, the current one when the option
      is absent or names no level (that case only logs a warning). */
  function NewLevel(option: Option<string>, current: Level): Level {
    match option
    case None => current
    case Some(v) => ParseLevel(v).GetOr(current)
  }

  /** Every level's own name selects it. */
  lemma LevelNameSelects(l: Level)
    ensures ParseLevel(LevelName(l)) == Some(l)
  {
    var n := LevelName(l);
    assert LowerAscii('d') != LowerAscii('i') && LowerAscii('d') != LowerAscii('w');
    assert LowerAscii('d') != LowerAscii('e') && LowerAscii('d') != LowerAscii('f');
    assert LowerAscii('i') != LowerAscii('w') && LowerAscii('i') != LowerAscii('e');
    assert LowerAscii('i') != LowerAscii('f') && LowerAscii('w') != LowerAscii('e');
    assert LowerAscii('w') != LowerAscii('f') && LowerAscii('e') != LowerAscii('f');
    assert n[0] == match l case Debug => 'd' case Info => 'i' case Warn => 'w' case Error => 'e' case Fatal => 'f';
  }

  /** Two values that differ only in the case of their letters select the
      same level. */
  lemma LevelIgnoresCase(a: string, b: string)
    requires EqualsIgnoreCase(a, b)
    ensures ParseLevel(a) == ParseLevel(b)
  {
    EqualsIgnoreCaseIsLowerEquality(a, b);
    forall l: Level ensures EqualsIgnoreCase(a, LevelName(l)) <==> EqualsIgnoreCase(b, LevelName(l)) {
      EqualsIgnoreCaseIsLowerEquality(a, LevelName(l));
      EqualsIgnoreCaseIsLowerEquality(b, LevelName(l));
    }
  }

  // ---------------------------------------------------------------------
  // The template path and the derived class name
  // ---------------------------------------------------------------------

  /** The -t value with a trailing "/" added when it has none. */
  function WithSlash(p: string): (r: string)
    ensures EndsWith(r, "/")
    ensures StartsWith(r, p) && |r| <= |p| + 1
  {
    if EndsWith(p, "/") then p
    else
      var r := p + "/";
      assert r[|r| - 1..] == "/" && r[..|p|] == p;
      r
  }

  /** Adding the trailing slash twice is adding it once, and a path that has
      one is kept as it is. */
  lemma WithSlashIdempotent(p: string)
    ensures WithSlash(WithSlash(p)) == WithSlash(p)
    ensures EndsWith(p, "/") ==> WithSlash(p) == p
  {
  }

  /** The class name made from the output file name: the part before the
      last '.', with every character outside `\w` removed and the first
      letter upper-cased. substring throws when there is no '.' and when
      nothing is left for the first letter. */
  function DerivedClassName(output: string): (r: Result<string>)
    ensures r.Err? ==> r.fault == IndexOutOfBounds
    ensures r.Err? <==> '.' !in output || RemoveNonWord(output[..LastIndexOf(output, '.')]) == []
    ensures r.Ok? ==> |r.value| > 0 && !('a' <= r.value[0] <= 'z')
    ensures r.Ok? ==> forall i :: 0 <= i < |r.value| ==> IsWordChar(r.value[i])
  {
    var k := LastIndexOf(output, '.');
    if k < 0 then Err(IndexOutOfBounds)
    else
      var base := RemoveNonWord(output[..k]);
      if base == [] then Err(IndexOutOfBounds)
      else
        var name := UpperFirst(base);
        UpperWordChar(base[0]);
        assert forall i :: 1 <= i < |name| ==> name[i] == base[i];
        Ok(name)
  }

  /** Upper-casing keeps a word character a word character, and no longer a lower-case letter. */
  lemma UpperWordChar(c: char)
    requires IsWordChar(c)
    ensures IsWordChar(UpperAscii(c)) && !('a' <= UpperAscii(c) <= 'z')
  {
  }

  /** The last '.' of a name without dots followed by an extension without
      dots is the one between them. */
  lemma LastDotOfExtension(name: string, ext: string)
    requires '.' !in name && '.' !in ext
    ensures LastIndexOf(name + "." + ext, '.') == |name|
  {
    var s := name + "." + ext;
    assert s[|name|] == '.';
    assert s[|name| + 1..] == ext;
  }

  /** A class name of word characters that does not start with a lower-case
      letter is derived back from its own jar (or any single-extension) file
      name. */
  lemma DerivedFromFileName(name: string, ext: string)
    requires name != [] && forall i :: 0 <= i < |name| ==> IsWordChar(name[i])
    requires !('a' <= name[0] <= 'z')
    requires '.' !in ext
    ensures DerivedClassName(name + "." + ext) == Ok(name)
  {
    assert '.' !in name by {
      forall i | 0 <= i < |name| ensures name[i] != '.' {
        assert IsWordChar(name[i]);
      }
    }
    LastDotOfExtension(name, ext);
    var s := name + "." + ext;
    assert s[..|name|] == name;
    assert RemoveNonWord(name) == name;
    assert UpperFirst(name) == name;
  }

  // ---------------------------------------------------------------------
  // The interpretation
  // ---------------------------------------------------------------------

  /** The options after the class-name step, each one that is given
      overriding its Config field. */
  function Overrides(cmd: CommandLine, s: Settings): (r: Settings)
    ensures r.loglevel == s.loglevel && r.inputFilename == s.inputFilename && r.outputFilename == s.outputFilename
    ensures cmd.templates.Some? ==> r.pathToTemplates == WithSlash(cmd.templates.value)
    ensures cmd.templates.None? ==> r.pathToTemplates == s.pathToTemplates
    ensures r.templateMappingFile == cmd.mappingFile.GetOr(s.templateMappingFile)
    ensures r.hadoopClassName == cmd.className.GetOr(s.hadoopClassName)
    ensures r.hadoopPackageName == cmd.packageName.GetOr(s.hadoopPackageName)
  {
    var t := match cmd.templates case Some(p) => WithSlash(p) case None => s.pathToTemplates;
    s.(pathToTemplates := t,
       templateMappingFile := cmd.mappingFile.GetOr(s.templateMappingFile),
       hadoopClassName := cmd.className.GetOr(s.hadoopClassName),
       hadoopPackageName := cmd.packageName.GetOr(s.hadoopPackageName))
  }

  /** parseCommandLine on a parser result. `derive` says whether the class
      name is derived from the output file when the Config still holds the
      default name. */
  function InterpretWith(parsed: Option<CommandLine>, s: Settings, derive: bool): (o: Outcome)
  {
    match parsed
    case None => Outcome(Some(Exit(1)), s)
    case Some(cmd) =>
      if cmd.help || cmd.version then Outcome(Some(Exit(0)), s)
      else
        var s1 := s.(loglevel := NewLevel(cmd.verbosity, s.loglevel),
                     inputFilename := cmd.input,
                     outputFilename := cmd.output);
        if cmd.input.None? || cmd.output.None? then Outcome(Some(Exit(1)), s1)
        else
          var named := if derive && s1.hadoopClassName == DefaultHadoopClassName
                       then DerivedClassName(cmd.output.value)
                       else Ok(s1.hadoopClassName);
          match named
          case Err(f) => Outcome(Some(Crash(f)), s1)
          case Ok(n) => Outcome(None, Overrides(cmd, s1.(hadoopClassName := n)))
  }

  /** The interpretation as written: the class name is derived from the
      output file before -C is looked at, so a -C value does not prevent
      the derivation nor its exception. */
  function InterpretAsWritten(parsed: Option<CommandLine>, s: Settings): (o: Outcome)
  {
    InterpretWith(parsed, s, true)
  }

  /** The interpretation as intended: the class name is derived only when
      -C does not name it. */
  function Interpret(parsed: Option<CommandLine>, s: Settings): (o: Outcome)
  {
    InterpretWith(parsed, s, parsed.Some? && parsed.value.className.None?)
  }

  /** A command line the parser accepted, without -h and -v, that names an
      input and an output file. */
  predicate Complete(cmd: CommandLine) {
    !cmd.help && !cmd.version && cmd.input.Some? && cmd.output.Some?
  }

  /** -h exits with status 0 before anything else is set, whatever else is given. */
  lemma HelpExits(cmd: CommandLine, s: Settings)
    requires cmd.help
    ensures Interpret(Some(cmd), s) == Outcome(Some(Exit(0)), s)
    ensures InterpretAsWritten(Some(cmd), s) == Outcome(Some(Exit(0)), s)
  {
  }

  /** -v, when -h is absent, exits with status 0 before any other option is interpreted. */
  lemma VersionExits(cmd: CommandLine, s: Settings)
    requires !cmd.help && cmd.version
    ensures Interpret(Some(cmd), s) == Outcome(Some(Exit(0)), s)
    ensures InterpretAsWritten(Some(cmd), s) == Outcome(Some(Exit(0)), s)
  {
  }

  /** A command line the parser refuses exits with status 1, nothing set. */
  lemma ParseErrorExits(s: Settings)
    ensures Interpret(None, s) == Outcome(Some(Exit(1)), s)
    ensures InterpretAsWritten(None, s) == Outcome(Some(Exit(1)), s)
  {
  }

  /** Without -h and -v the interpretation stops before the file names only
      when one of them is missing: the status is 1, the level has been set
      and both file names are recorded as given. */
  lemma MissingFileExits(cmd: CommandLine, s: Settings)
    requires !cmd.help && !cmd.version
    ensures var o := Interpret(Some(cmd), s);
            (o.stop == Some(Exit(1)) <==> cmd.input.None? || cmd.output.None?)
            && o.settings.loglevel == NewLevel(cmd.verbosity, s.loglevel)
            && o.settings.inputFilename == cmd.input && o.settings.outputFilename == cmd.output
    ensures var o := InterpretAsWritten(Some(cmd), s);
            (o.stop == Some(Exit(1)) <==> cmd.input.None? || cmd.output.None?)
            && o.settings.loglevel == NewLevel(cmd.verbosity, s.loglevel)
            && o.settings.inputFilename == cmd.input && o.settings.outputFilename == cmd.output
  {
  }

  /** The intended interpretation of a complete command line fails only
      when the class name must be derived and cannot be; otherwise every
      given option lands in its field and the class name is the -C value,
      the derived name, or the one the Config already held. */
  lemma CompleteOutcome(cmd: CommandLine, s: Settings)
    requires Complete(cmd)
    ensures var o := Interpret(Some(cmd), s);
            var mustDerive := cmd.className.None? && s.hadoopClassName == DefaultHadoopClassName;
            (o.stop.Some? <==> mustDerive && DerivedClassName(cmd.output.value).Err?)
            && (o.stop.None? ==>
                  && o.settings.hadoopClassName
                     == (if cmd.className.Some? then cmd.className.value
                         else if mustDerive then DerivedClassName(cmd.output.value).value
                         else s.hadoopClassName)
                  && EndsWith(o.settings.pathToTemplates, "/") == (cmd.templates.Some? || EndsWith(s.pathToTemplates, "/"))
                  && o.settings.templateMappingFile == cmd.mappingFile.GetOr(s.templateMappingFile)
                  && o.settings.hadoopPackageName == cmd.packageName.GetOr(s.hadoopPackageName))
  {
  }

  /** The interpretation as written of a complete command line fails
      exactly when the Config holds the default name and the output file
      gives no class name, whether or not -C is given; otherwise the class
      name is the -C value, the derived name, or the one the Config held. */
  lemma CompleteOutcomeAsWritten(cmd: CommandLine, s: Settings)
    requires Complete(cmd)
    ensures var o := InterpretAsWritten(Some(cmd), s);
            var derives := s.hadoopClassName == DefaultHadoopClassName;
            (o.stop.Some? <==> derives && DerivedClassName(cmd.output.value).Err?)
            && (o.stop.Some? ==> o.stop == Some(Crash(IndexOutOfBounds)))
            && (o.stop.None? ==>
                  && o.settings.hadoopClassName
                     == (if cmd.className.Some? then cmd.className.value
                         else if derives then DerivedClassName(cmd.output.value).value
                         else s.hadoopClassName)
                  && o.settings.templateMappingFile == cmd.mappingFile.GetOr(s.templateMappingFile)
                  && o.settings.hadoopPackageName == cmd.packageName.GetOr(s.hadoopPackageName))
  {
  }

  /** With -C given, the intended interpretation of a complete command line
      always finishes, and the class name is the -C value. */
  lemma ExplicitClassNameWins(cmd: CommandLine, s: Settings)
    requires Complete(cmd) && cmd.className.Some?
    ensures Interpret(Some(cmd), s).stop.None?
    ensures Interpret(Some(cmd), s).settings.hadoopClassName == cmd.className.value
  {
  }

  /** A complete run without -C on a Config holding the default name ends
      with a class name of word characters that does not start with a
      lower-case letter: a usable Java class name. */
  lemma DerivedNameIsClassName(cmd: CommandLine, s: Settings)
    requires Complete(cmd) && cmd.className.None? && s.hadoopClassName == DefaultHadoopClassName
    requires Interpret(Some(cmd), s).stop.None?
    ensures var n := Interpret(Some(cmd), s).settings.hadoopClassName;
            n != [] && !('a' <= n[0] <= 'z') && forall i :: 0 <= i < |n| ==> IsWordChar(n[i])
  {
  }

  /** The two interpretations differ only where -C is given and the
      derivation fails: as written the run ends in the exception. */
  lemma AsWrittenDiffers(cmd: CommandLine, s: Settings)
    requires Complete(cmd) && s.hadoopClassName == DefaultHadoopClassName
    ensures InterpretAsWritten(Some(cmd), s) != Interpret(Some(cmd), s)
            <==> cmd.className.Some? && DerivedClassName(cmd.output.value).Err?
  {
    if cmd.className.Some? && DerivedClassName(cmd.output.value).Ok? {
      assert Overrides(cmd, s.(hadoopClassName := DerivedClassName(cmd.output.value).value))
             == Overrides(cmd, s.(hadoopClassName := s.hadoopClassName));
    }
  }

  /** `-i w.t2flow -o out -C Job` on a fresh Config: the output name has no
      '.', so the run as written ends in an exception although -C names the
      class; as intended it finishes with the class named Job. */
  lemma ExplicitNameCrashFinding(s: Settings)
    requires s.hadoopClassName == DefaultHadoopClassName
    ensures var cmd := CommandLine(false, false, None, Some("w.t2flow"), Some("out"), None, None, Some("Job"), None);
            InterpretAsWritten(Some(cmd), s).stop == Some(Crash(IndexOutOfBounds))
            && Interpret(Some(cmd), s).stop.None?
            && Interpret(Some(cmd), s).settings.hadoopClassName == "Job"
  {
    var out := "out";
    assert '.' !in out by {
      assert out == ['o', 'u', 't'];
    }
  }

  // ---------------------------------------------------------------------
  // The entry point's state
  // ---------------------------------------------------------------------

  /** The static state of the entry point, with the Config it sets. */
  class Main {
    var loglevel: Level
    var inputFilename: Option<string>
    var outputFilename: Option<string>
    const cfg: Config

    /** The state when the class is loaded: level INFO, no file names yet. */
    constructor (cfg: Config)
      ensures loglevel == DefaultLevel && inputFilename == None && outputFilename == None
      ensures this.cfg == cfg
    {
      loglevel := DefaultLevel;
      inputFilename := None;
      outputFilename := None;
      this.cfg := cfg;
    }

    function Snapshot(): Settings
      reads this, cfg
    {
      Settings(loglevel, inputFilename, outputFilename,
               cfg.pathToTemplates, cfg.templateMappingFile, cfg.hadoopClassName, cfg.hadoopPackageName)
    }

    /** parseCommandLine as written: the if-chain over the parsed options,
        each assignment made in the source's order, the exits and the
        uncaught exception returned as the Stop that ends the run. The class
        name is derived before -C is looked at. */
    method ParseCommandLine(parsed: Option<CommandLine>) returns (stop: Option<Stop>)
      modifies this, cfg`pathToTemplates, cfg`templateMappingFile, cfg`hadoopClassName, cfg`hadoopPackageName
      ensures var o := InterpretAsWritten(parsed, old(Snapshot()));
              stop == o.stop && Snapshot() == o.settings
    {
      if parsed.None? {
        return Some(Exit(1));
      }
      var cmd := parsed.value;
      if cmd.help {
        return Some(Exit(0));
      }
      if cmd.version {
        return Some(Exit(0));
      }

      var loglevelOption := cmd.verbosity;
      if loglevelOption.Some? {
        var level := ParseLevel(loglevelOption.value);
        if level.Some? {
          loglevel := level.value;
        }
      }

      inputFilename := cmd.input;
      outputFilename := cmd.output;
      if inputFilename.None? || outputFilename.None? {
        return Some(Exit(1));
      }

      if cfg.hadoopClassName == DefaultHadoopClassName {
        var derived := DerivedClassName(outputFilename.value);
        if derived.Err? {
          return Some(Crash(derived.fault));
        }
        cfg.SetHadoopClassName(derived.value);
      }

      ApplyOverrides(cmd);
      stop := None;
    }

    /** The tail of parseCommandLine: -t, -m, -C and -P each replace their
        Config field when given. */
    method ApplyOverrides(cmd: CommandLine)
      modifies cfg`pathToTemplates, cfg`templateMappingFile, cfg`hadoopClassName, cfg`hadoopPackageName
      ensures Snapshot() == Overrides(cmd, old(Snapshot()))
    {
      var newPathToTemplates := cmd.templates;
      if newPathToTemplates.Some? {
        var p := newPathToTemplates.value;
        if !EndsWith(p, "/") {
          p := p + "/";
        }
        cfg.SetPathToTemplates(p);
      }

      var newMappingFile := cmd.mappingFile;
      if newMappingFile.Some? {
        cfg.SetTemplateMappingFile(newMappingFile.value);
      }

      var hadoopClassName := cmd.className;
      if hadoopClassName.Some? {
        cfg.SetHadoopClassName(hadoopClassName.value);
      }

      var hadoopPackageName := cmd.packageName;
      if hadoopPackageName.Some? {
        cfg.SetHadoopPackageName(hadoopPackageName.value);
      }
    }
  }
}
