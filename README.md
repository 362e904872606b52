# taverna-to-hadoop, modelled in Dafny

taverna-to-hadoop is a code generator. It turns a Taverna dataflow workflow (a Scufl2 bundle) into the Java source of a Hadoop job. The generator exists in two generations, and this project models the core of both.

The newer generation, `taverna_to_hadoop`, has these parts:

- **ToHadoopWorkflowManager** holds the graph linearizer. It walks the data links backwards from every workflow output port and makes one stage record per processor it reaches, re-appending a record it meets again. It then reverses the list. Per-stage fragments are concatenated into the map-reduce classes and the run methods.
- **ActivityConfigs** holds the stage record `ActivityConfig`. Its Beanshell part expands the per-stage fragment templates.
- **ToHadoopTemplateTranslator** is the template engine. One placeholder pass splices included files in raw and inserts the stage fragments. An import pass then collects the `requiresimports` directives and renders `@imports`.
- **ToHadoopConfig** holds the shared settings: the defaults, a post-increment counter on a Java `int`, the activity-configuration table, and the reader of the tab-separated template-mapping file.

The older generation, `taverna_compilation`, has these parts:

- **CompilationTemplateTranslator** is the template engine with recursive includes. Each nested translator's import set is merged into its caller's. The Beanshell translator injects the escaped script of a stage.
- **CompilationWorkflowTranslator** rewrites the wrapper template: `includemapreduce` and `includerun` become numbered `include file` directives, and the activity's script is stored under each number.
- **CompilationWorkflowManager** holds the support check a bundle must pass, and the template made from a bundle.
- **CompilationMain** interprets the parsed command line of the entry point: the log level, the mandatory files, the class name derived from the output file, and the Config overrides.

Shared modules state the Java library behaviour both generations rely on:

- **JavaString**: `String` and regex operations.
- **Files**: reading a file line by line.
- **Imports**: sorting and rendering the import block.
- **Placeholders**: the lazy `<%(.*?)%>` matcher.
- **Directives**: variables, the `@imports` pass and the output path.
- **Scufl**: the workflow bundle as a value.
- **Wrappers**: the `Option` and `Result` types.

An uncaught Java exception is a `Result` error that names it, and a Java `null` is an `Option`.

The classes follow the source's objects: `Config`, `ActivityConfig`, the two `TemplateTranslator`s, the `WorkflowTranslator`, both `WorkflowManager`s and the main class. Their methods change the fields the Java code changes. Each method is proved equal to a function of the old state, and the lemmas state what the source promises about those functions. The methods follow the code as written, including the bug of the second Findings row. The one exception is the reducer test of the older WorkflowTranslator, which is listed under "## Left out".

## Model

| member | source | states |
|---|---|---|
| JavaString.StripWhitespace | src/main/java/de/tuberlin/schenck/taverna_to_hadoop/convert/TemplateTranslator.java:137 | `replaceAll("\s", "")`: no whitespace left, never longer, a text without whitespace unchanged |
| JavaString.StripWhitespaceKeeps | src/main/java/de/tuberlin/schenck/taverna_to_hadoop/convert/TemplateTranslator.java:137 | stripping whitespace never introduces a character that was not there |
| JavaString.Replace | src/main/java/de/tuberlin/schenck/taverna_to_hadoop/convert/TemplateTranslator.java:141 | `String.replace` of a non-empty target: the text is unchanged when the target does not occur |
| JavaString.ReplaceBySelf | src/main/java/de/tuberlin/schenck/taverna_to_hadoop/convert/TemplateTranslator.java:141 | replacing a target by itself leaves any text unchanged |
| JavaString.IndexOf | src/main/java/de/tuberlin/schenck/taverna_compilation/convert/translators/TemplateTranslator.java:222 | the position `split` cuts at: -1 exactly when the character is absent, else its first position |
| JavaString.LastIndexOf | src/main/java/de/tuberlin/schenck/taverna_compilation/TavernaToHadoopMain.java:197 | `lastIndexOf` is -1 exactly when the character is absent, else the last position holding it |
| JavaString.RawSplit | src/main/java/de/tuberlin/schenck/taverna_compilation/convert/translators/TemplateTranslator.java:222 | the pieces between separators: at least one, none containing the separator |
| JavaString.JoinRawSplit | src/main/java/de/tuberlin/schenck/taverna_compilation/convert/translators/TemplateTranslator.java:222 | joining the pieces back with the separator gives the original text |
| JavaString.RawSplitJoin | src/main/java/de/tuberlin/schenck/taverna_compilation/convert/translators/TemplateTranslator.java:222 | splitting a join of separator-free pieces gives the pieces back |
| JavaString.RawSplitConcat | src/main/java/de/tuberlin/schenck/taverna_compilation/convert/translators/TemplateTranslator.java:222 | splitting at a separator placed between two texts splits each text on its own |
| JavaString.Split | src/main/java/de/tuberlin/schenck/taverna_to_hadoop/utils/Config.java:109 | `String.split` on one character: a text without it is one piece, no piece contains it, trailing empty pieces dropped |
| JavaString.SplitJoin | src/main/java/de/tuberlin/schenck/taverna_to_hadoop/utils/Config.java:109 | splitting a join of fields whose last one is non-empty gives the fields back |
| JavaString.SplitTwo | src/main/java/de/tuberlin/schenck/taverna_compilation/convert/translators/TemplateTranslator.java:222 | a text with exactly one separator splits into the two sides |
| JavaString.EqualsIgnoreCaseIsLowerEquality | src/main/java/de/tuberlin/schenck/taverna_to_hadoop/convert/TemplateTranslator.java:160-162 | `equalsIgnoreCase` holds exactly when both lower-cased texts are equal |
| JavaString.UpperFirst | src/main/java/de/tuberlin/schenck/taverna_to_hadoop/convert/WorkflowManager.java:133 | first character upper-cased, the rest unchanged |
| JavaString.RemoveNonWord | src/main/java/de/tuberlin/schenck/taverna_compilation/TavernaToHadoopMain.java:200 | `replaceAll("\\W", "")` leaves only word characters and keeps a text that has only word characters |
| JavaString.IntToString | src/main/java/de/tuberlin/schenck/taverna_compilation/convert/translators/WorkflowTranslator.java:55 | `"" + int`: a non-empty run of digits with a leading '-' exactly for negative numbers |
| JavaString.IntToStringInjective | src/main/java/de/tuberlin/schenck/taverna_compilation/convert/translators/WorkflowTranslator.java:60 | different counter values render as different keys |
| Files.ReadLines | src/main/java/de/tuberlin/schenck/taverna_to_hadoop/utils/FileUtils.java:81-96 | the lines `readLine` returns contain no line terminator |
| Files.ReadFile | src/main/java/de/tuberlin/schenck/taverna_to_hadoop/utils/FileUtils.java:39-52 | a missing file reads as ""; an existing one as its lines, each followed by "\n" |
| Files.ReadLinesTerminated | src/main/java/de/tuberlin/schenck/taverna_to_hadoop/utils/FileUtils.java:87-90 | reading text made of "\n"-terminated lines gives back those lines |
| Files.ReadTextIdempotent | src/main/java/de/tuberlin/schenck/taverna_to_hadoop/utils/FileUtils.java:81-96 | reading text that was already read once changes nothing |
| Imports.LessTotal | src/main/java/de/tuberlin/schenck/taverna_to_hadoop/convert/TemplateTranslator.java:215 | the code-point order standing for `String.compareTo`, which `Collections.sort` uses, is total |
| Imports.LessTransitive | src/main/java/de/tuberlin/schenck/taverna_to_hadoop/convert/TemplateTranslator.java:215 | the code-point order standing for `String.compareTo`, which `Collections.sort` uses, is transitive |
| Imports.SortedList | src/main/java/de/tuberlin/schenck/taverna_to_hadoop/convert/TemplateTranslator.java:213-215 | the import list holds exactly the entries of the set, strictly ascending in the code-point order standing for `compareTo` |
| Imports.SortedListUnique | src/main/java/de/tuberlin/schenck/taverna_to_hadoop/convert/TemplateTranslator.java:213-215 | only one strictly ascending list holds exactly the entries of a set |
| Imports.RenderImports | src/main/java/de/tuberlin/schenck/taverna_to_hadoop/convert/TemplateTranslator.java:226-233 | the StringBuilder loop renders one "import X;\n" per entry, in list order |
| Imports.ImportLinesAreLines | src/main/java/de/tuberlin/schenck/taverna_to_hadoop/convert/TemplateTranslator.java:226-233 | each entry without a line break becomes exactly one line of the block, in order |
| Imports.CommaItems | src/main/java/de/tuberlin/schenck/taverna_to_hadoop/convert/TemplateTranslator.java:202 | `split(",")` of the quoted text: no item holds a comma; a text without commas is one item |
| Placeholders.CloseFromFirst | src/main/java/de/tuberlin/schenck/taverna_to_hadoop/convert/TemplateTranslator.java:29 | the lazy `(.*?)%>` ends at the first "%>" and crosses no line terminator |
| Placeholders.FindFrom | src/main/java/de/tuberlin/schenck/taverna_to_hadoop/convert/TemplateTranslator.java:116-117 | the next match at or after the position, closed by the first "%>" after its opening |
| Placeholders.FindFromLeftmost | src/main/java/de/tuberlin/schenck/taverna_to_hadoop/convert/TemplateTranslator.java:116-117 | no match starts between the current position and the one `find()` returns |
| Placeholders.SpansFrom | src/main/java/de/tuberlin/schenck/taverna_to_hadoop/convert/TemplateTranslator.java:113-122 | every span the matcher returns has the placeholder shape: opens with "<%", closes with "%>", no line break |
| Placeholders.SpansOfPlaceholder | src/main/java/de/tuberlin/schenck/taverna_to_hadoop/convert/TemplateTranslator.java:113-122 | a text that is one placeholder yields that placeholder and nothing else |
| Placeholders.SpansOfPlaceholderLine | src/main/java/de/tuberlin/schenck/taverna_to_hadoop/convert/TemplateTranslator.java:113-122 | a placeholder followed by a line break, as a one-line file reads, yields that placeholder and nothing else |
| Placeholders.NoOpenNoSpans | src/main/java/de/tuberlin/schenck/taverna_to_hadoop/convert/TemplateTranslator.java:113-122 | a text without "<%" yields no placeholder |
| Placeholders.StrippedShape | src/main/java/de/tuberlin/schenck/taverna_to_hadoop/convert/TemplateTranslator.java:137 | a placeholder with its whitespace removed still opens with "<%" and closes with "%>" |
| Placeholders.FirstQuoted | src/main/java/de/tuberlin/schenck/taverna_to_hadoop/convert/TemplateTranslator.java:145-147 | group(1) of the first `"(.*?)"` match: a quote-free text that occurs between two quotes |
| Placeholders.FirstQuotedOf | src/main/java/de/tuberlin/schenck/taverna_to_hadoop/convert/TemplateTranslator.java:145-147 | the quoted argument of a text is the text between its first pair of quotes |
| Placeholders.Find | src/main/java/de/tuberlin/schenck/taverna_to_hadoop/convert/TemplateTranslator.java:116-117 | one `find()` + `group(0)`: returns the next remaining span and advances past it |
| Placeholders.MatcherFor | src/main/java/de/tuberlin/schenck/taverna_to_hadoop/convert/TemplateTranslator.java:113 | a fresh matcher will return exactly the spans of the text, in order |
| Directives.VariableName | src/main/java/de/tuberlin/schenck/taverna_to_hadoop/convert/TemplateTranslator.java:155 | `substring(3, length - 2)` succeeds exactly for spans of five or more characters and returns the middle |
| Directives.Variable | src/main/java/de/tuberlin/schenck/taverna_to_hadoop/convert/TemplateTranslator.java:158-166 | the class name for `hadoopclassname`, the package name for `hadooppackagename`, ignoring case; "" otherwise |
| Directives.VariableIgnoresCase | src/main/java/de/tuberlin/schenck/taverna_to_hadoop/convert/TemplateTranslator.java:160-162 | variable names that differ only in letter case resolve to the same value |
| Directives.RenderPassKeepsOthers | src/main/java/de/tuberlin/schenck/taverna_to_hadoop/convert/TemplateTranslator.java:217-239 | the imports pass leaves a text without `<%@imports%>` spans unchanged |
| Directives.ImportsDirectiveRendered | src/main/java/de/tuberlin/schenck/taverna_to_hadoop/convert/TemplateTranslator.java:225-235 | a template that is just `<%@imports%>` becomes the sorted import lines |
| Directives.ImportsString | src/main/java/de/tuberlin/schenck/taverna_to_hadoop/convert/TemplateTranslator.java:226-233 | the rendered block is that of the sorted set |
| Directives.RenderImportsPass | src/main/java/de/tuberlin/schenck/taverna_to_hadoop/convert/TemplateTranslator.java:217-239 | the matcher loop replaces every stripped `<%@imports%>` span by the block and nothing else |
| Directives.PackageDir | src/main/java/de/tuberlin/schenck/taverna_to_hadoop/convert/TemplateTranslator.java:97 | every '.' of the package becomes '/', every other character stays, length kept |
| Directives.RootFile | src/main/java/de/tuberlin/schenck/taverna_to_hadoop/convert/TemplateTranslator.java:96-99 | the root output path is under src/main/java/ and ends with /<class>.java |
| ToHadoopConfig.Next | src/main/java/de/tuberlin/schenck/taverna_to_hadoop/utils/Config.java:79-81 | `counter++` on a Java int: stays in range, wraps from Integer.MAX_VALUE to Integer.MIN_VALUE |
| ToHadoopConfig.NextDiffers | src/main/java/de/tuberlin/schenck/taverna_to_hadoop/utils/Config.java:79-81 | two draws in a row never return the same number |
| ToHadoopConfig.AdvanceFromZero | src/main/java/de/tuberlin/schenck/taverna_to_hadoop/utils/Config.java:29 | from the initial 0, the k-th draw returns k until the counter wraps |
| ToHadoopConfig.GetAfterPut | src/main/java/de/tuberlin/schenck/taverna_to_hadoop/utils/Config.java:39-45 | a put is seen by the next get of that key and by no other key |
| ToHadoopConfig.ApplyLine | src/main/java/de/tuberlin/schenck/taverna_to_hadoop/utils/Config.java:109-111 | a line with three or more tab fields maps field 0 to fields 1 and 2; fewer fields throw |
| ToHadoopConfig.ApplyLinesAppend | src/main/java/de/tuberlin/schenck/taverna_to_hadoop/utils/Config.java:108-114 | reading two runs of lines one after the other is reading their concatenation |
| ToHadoopConfig.MappingLineApplies | src/main/java/de/tuberlin/schenck/taverna_to_hadoop/utils/Config.java:109-111 | a well-formed mapping line stores its mapper and reducer under its URI |
| ToHadoopConfig.EmptyReducerAborts | src/main/java/de/tuberlin/schenck/taverna_to_hadoop/utils/Config.java:109-111 | a line whose last field, the reducer, is empty loses it to `split` and ends the read in an index exception |
| ToHadoopConfig.EmptyInnerReducerStored | src/main/java/de/tuberlin/schenck/taverna_to_hadoop/utils/Config.java:109-111 | an empty reducer field followed by another field is kept by `split`: the URI maps to the reducer name "" |
| ToHadoopConfig.LaterLineWins | src/main/java/de/tuberlin/schenck/taverna_to_hadoop/utils/Config.java:110-111 | a later line for the same URI overwrites an earlier one |
| ToHadoopConfig.FaultKeepsEarlierLines | src/main/java/de/tuberlin/schenck/taverna_to_hadoop/utils/Config.java:106-116 | a line that throws keeps every entry the earlier lines made; later lines are never read |
| ToHadoopConfig.Config.constructor | src/main/java/de/tuberlin/schenck/taverna_to_hadoop/utils/Config.java:17-37 | the class-load defaults: template path, mapping file, class and package names, counter 0, empty tables |
| ToHadoopConfig.Config.GetActivityConfiguration | src/main/java/de/tuberlin/schenck/taverna_to_hadoop/utils/Config.java:39-41 | a value exactly for the keys that were put |
| ToHadoopConfig.Config.PutActivityConfiguration | src/main/java/de/tuberlin/schenck/taverna_to_hadoop/utils/Config.java:43-45 | the key maps to the value afterwards; every other key keeps its value |
| ToHadoopConfig.Config.GetCount | src/main/java/de/tuberlin/schenck/taverna_to_hadoop/utils/Config.java:79-81 | returns the old counter and leaves it incremented with wrap-around |
| ToHadoopConfig.Config.SetPathToTemplates | src/main/java/de/tuberlin/schenck/taverna_to_hadoop/utils/Config.java:51-53 | the field holds the new value |
| ToHadoopConfig.Config.SetHadoopClassName | src/main/java/de/tuberlin/schenck/taverna_to_hadoop/utils/Config.java:59-61 | the field holds the new value |
| ToHadoopConfig.Config.SetHadoopPackageName | src/main/java/de/tuberlin/schenck/taverna_to_hadoop/utils/Config.java:67-69 | the field holds the new value |
| ToHadoopConfig.Config.SetTemplateMappingFile | src/main/java/de/tuberlin/schenck/taverna_to_hadoop/utils/Config.java:75-77 | the field holds the new value |
| ToHadoopConfig.Config.SetMapperMapping | src/main/java/de/tuberlin/schenck/taverna_to_hadoop/utils/Config.java:87-89 | the field holds the new value |
| ToHadoopConfig.Config.SetReducerMapping | src/main/java/de/tuberlin/schenck/taverna_to_hadoop/utils/Config.java:95-97 | the field holds the new value |
| ToHadoopConfig.Config.ReadTemplateMapping | src/main/java/de/tuberlin/schenck/taverna_to_hadoop/utils/Config.java:99-123 | the tables after the read loop over the file at path + name; a missing file leaves them unchanged |
| ToHadoopConfig.Get | src/main/java/de/tuberlin/schenck/taverna_to_hadoop/utils/Config.java:39-41 | `Map.get`: a value exactly for a present key, and that key's value |
| ActivityConfigs.Show | src/main/java/de/tuberlin/schenck/taverna_to_hadoop/convert/activity_configs/ActivityConfig.java:110 | a null string renders as "null" in a StringBuilder |
| ActivityConfigs.Target | src/main/java/de/tuberlin/schenck/taverna_to_hadoop/convert/activity_configs/ActivityConfig.java:110 | `outputToNextInput.get(port)` as appended: the target, or "null" for an unmapped port |
| ActivityConfigs.WriteBlocksAppend | src/main/java/de/tuberlin/schenck/taverna_to_hadoop/convert/activity_configs/ActivityConfig.java:104-113 | the write fragments of a port list split in two are those of each part, in order |
| ActivityConfigs.RunLinesAppend | src/main/java/de/tuberlin/schenck/taverna_to_hadoop/convert/activity_configs/ActivityConfig.java:121-132 | the run fragments of a port list split in two are those of each part, in order |
| ActivityConfigs.Lookup | src/main/java/de/tuberlin/schenck/taverna_to_hadoop/convert/activity_configs/BeanshellConfig.java:80-92 | a stripped placeholder is kept exactly when it is none of the six stage variables |
| ActivityConfigs.UnknownPlaceholdersKept | src/main/java/de/tuberlin/schenck/taverna_to_hadoop/convert/activity_configs/BeanshellConfig.java:73-93 | a template whose placeholders are not stage variables comes back unchanged |
| ActivityConfigs.ReadTemplates | src/main/java/de/tuberlin/schenck/taverna_to_hadoop/convert/activity_configs/BeanshellConfig.java:60-65 | the templates read in order, each followed by "\n" |
| ActivityConfigs.ActivityConfig.constructor | src/main/java/de/tuberlin/schenck/taverna_to_hadoop/convert/activity_configs/ActivityConfig.java:68-71 | name set, forwarding empty, Text.class key and value classes, all else null |
| ActivityConfigs.ActivityConfig.Equals | src/main/java/de/tuberlin/schenck/taverna_to_hadoop/convert/activity_configs/ActivityConfig.java:143-151 | equal exactly to a non-null stage of the same name |
| ActivityConfigs.ActivityConfig.ToString | src/main/java/de/tuberlin/schenck/taverna_to_hadoop/convert/activity_configs/ActivityConfig.java:138-140 | a stage prints as its name |
| ActivityConfigs.ActivityConfig.AddToPortMap | src/main/java/de/tuberlin/schenck/taverna_to_hadoop/convert/activity_configs/ActivityConfig.java:255-257 | the output port now forwards to the given input; other ports unchanged |
| ActivityConfigs.ActivityConfig.SetInputPath | src/main/java/de/tuberlin/schenck/taverna_to_hadoop/convert/activity_configs/ActivityConfig.java:163-165 | the field holds the new value |
| ActivityConfigs.ActivityConfig.SetInputFormat | src/main/java/de/tuberlin/schenck/taverna_to_hadoop/convert/activity_configs/ActivityConfig.java:177-179 | the field holds the new value |
| ActivityConfigs.ActivityConfig.SetOutputPath | src/main/java/de/tuberlin/schenck/taverna_to_hadoop/convert/activity_configs/ActivityConfig.java:191-193 | the field holds the new value |
| ActivityConfigs.ActivityConfig.SetOutputFormat | src/main/java/de/tuberlin/schenck/taverna_to_hadoop/convert/activity_configs/ActivityConfig.java:205-207 | the field holds the new value |
| ActivityConfigs.ActivityConfig.SetInputPorts | src/main/java/de/tuberlin/schenck/taverna_to_hadoop/convert/activity_configs/ActivityConfig.java:219-221 | the field holds the new value |
| ActivityConfigs.ActivityConfig.SetOutputPorts | src/main/java/de/tuberlin/schenck/taverna_to_hadoop/convert/activity_configs/ActivityConfig.java:240-242 | the field holds the new value |
| ActivityConfigs.ActivityConfig.SetOutputKeyClass | src/main/java/de/tuberlin/schenck/taverna_to_hadoop/convert/activity_configs/ActivityConfig.java:276-278 | the field holds the new value |
| ActivityConfigs.ActivityConfig.SetOutputValueClass | src/main/java/de/tuberlin/schenck/taverna_to_hadoop/convert/activity_configs/ActivityConfig.java:290-292 | the field holds the new value |
| ActivityConfigs.ActivityConfig.SetScript | src/main/java/de/tuberlin/schenck/taverna_to_hadoop/convert/activity_configs/BeanshellConfig.java:103-105 | the field holds the new value |
| ActivityConfigs.ActivityConfig.FetchScript | src/main/java/de/tuberlin/schenck/taverna_to_hadoop/convert/activity_configs/BeanshellConfig.java:26-33 | the script property, or "" when it cannot be read |
| ActivityConfigs.ActivityConfig.GetMultipleOutputsWrite | src/main/java/de/tuberlin/schenck/taverna_to_hadoop/convert/activity_configs/ActivityConfig.java:101-116 | null output ports throw; otherwise one write block per output port, in port order |
| ActivityConfigs.ActivityConfig.GetMultipleOutputsRun | src/main/java/de/tuberlin/schenck/taverna_to_hadoop/convert/activity_configs/ActivityConfig.java:118-135 | null output ports throw; otherwise one addNamedOutput line per output port, in port order |
| ActivityConfigs.ActivityConfig.RemovePlaceholdersFromTemplate | src/main/java/de/tuberlin/schenck/taverna_to_hadoop/convert/activity_configs/BeanshellConfig.java:58-97 | the templates read and each stage variable substituted; a null value throws |
| ActivityConfigs.ActivityConfig.SubstituteStep | src/main/java/de/tuberlin/schenck/taverna_to_hadoop/convert/activity_configs/BeanshellConfig.java:78-92 | one loop visit: the span's substitution applied to the current text |
| ActivityConfigs.ActivityConfig.GetMapReduce | src/main/java/de/tuberlin/schenck/taverna_to_hadoop/convert/activity_configs/BeanshellConfig.java:36-42 | the identity-map and beanshell-reduce templates, expanded for this stage |
| ActivityConfigs.ActivityConfig.GetRun | src/main/java/de/tuberlin/schenck/taverna_to_hadoop/convert/activity_configs/BeanshellConfig.java:45-50 | the beanshell-run template, expanded for this stage |
| ActivityConfigs.ScriptInsertedUnescaped | src/main/java/de/tuberlin/schenck/taverna_to_hadoop/convert/activity_configs/BeanshellConfig.java:82-83 | the script is put between double quotes unescaped |
| ActivityConfigs.FindVariable | src/main/java/de/tuberlin/schenck/taverna_to_hadoop/convert/activity_configs/BeanshellConfig.java:80-92 | the first variable whose placeholder is the stripped text; none exactly when no variable's placeholder is |
| ActivityConfigs.Substitute | src/main/java/de/tuberlin/schenck/taverna_to_hadoop/convert/activity_configs/BeanshellConfig.java:80-92 | every branch replaces its placeholder; only an unset format or path field gives a null value |
| ActivityConfigs.LookupCases | src/main/java/de/tuberlin/schenck/taverna_to_hadoop/convert/activity_configs/BeanshellConfig.java:80-92 | each of the six names gets its own branch's value; any other text is left as it is |
| ActivityConfigs.SubstituteOneOk | src/main/java/de/tuberlin/schenck/taverna_to_hadoop/convert/activity_configs/BeanshellConfig.java:78-92 | once both formats and both paths are set, no placeholder makes the loop throw |
| ToHadoopWorkflowManager.ClassName | src/main/java/de/tuberlin/schenck/taverna_to_hadoop/convert/WorkflowManager.java:128-135 | the class looked up for an activity type always has a simple name ending in "Config" |
| ToHadoopWorkflowManager.ClassNameOfPath | src/main/java/de/tuberlin/schenck/taverna_to_hadoop/convert/WorkflowManager.java:128-135 | a type path ending in /segment names the class UpperFirst(segment) + "Config" |
| ToHadoopWorkflowManager.ForwardLinks | src/main/java/de/tuberlin/schenck/taverna_to_hadoop/convert/WorkflowManager.java:157-169 | a port with links forwards to its last link's target; every other key is untouched |
| ToHadoopWorkflowManager.ForwardingKeeps | src/main/java/de/tuberlin/schenck/taverna_to_hadoop/convert/WorkflowManager.java:153-170 | keys that are not output ports of the processor keep their values |
| ToHadoopWorkflowManager.ForwardingTargets | src/main/java/de/tuberlin/schenck/taverna_to_hadoop/convert/WorkflowManager.java:153-170 | each output port with links forwards to the target of its last link |
| ToHadoopWorkflowManager.StageFor | src/main/java/de/tuberlin/schenck/taverna_to_hadoop/convert/WorkflowManager.java:125-176 | a built stage carries the processor's ports and the bound configuration's name |
| ToHadoopWorkflowManager.AddAll | src/main/java/de/tuberlin/schenck/taverna_to_hadoop/convert/WorkflowManager.java:212 | the receivers to visit next start with the old ones and hold exactly the old and the new ones |
| ToHadoopWorkflowManager.LinkStep | src/main/java/de/tuberlin/schenck/taverna_to_hadoop/convert/WorkflowManager.java:119-121 | a link from a workflow input port changes nothing |
| ToHadoopWorkflowManager.Reverse | src/main/java/de/tuberlin/schenck/taverna_to_hadoop/convert/WorkflowManager.java:98 | `Collections.reverse`: same length, positions mirrored |
| ToHadoopWorkflowManager.Without | src/main/java/de/tuberlin/schenck/taverna_to_hadoop/convert/WorkflowManager.java:204-209 | the copy loop's survivors: exactly the entries that are null or named differently |
| ToHadoopWorkflowManager.RemoveEqualNull | src/main/java/de/tuberlin/schenck/taverna_to_hadoop/convert/WorkflowManager.java:205-206 | a null entry in the list makes the copy loop throw |
| ToHadoopWorkflowManager.AddStageSpec | src/main/java/de/tuberlin/schenck/taverna_to_hadoop/convert/WorkflowManager.java:202-210 | on a well-formed list the stage's earlier entry is removed and the stage appended |
| ToHadoopWorkflowManager.AddStageAfterNull | src/main/java/de/tuberlin/schenck/taverna_to_hadoop/convert/WorkflowManager.java:202-210 | once a null is in the list the next re-append throws |
| ToHadoopWorkflowManager.AddStageWellFormed | src/main/java/de/tuberlin/schenck/taverna_to_hadoop/convert/WorkflowManager.java:202-210 | re-appending keeps names distinct and a null only at the end |
| ToHadoopWorkflowManager.VisitAllWellFormed | src/main/java/de/tuberlin/schenck/taverna_to_hadoop/convert/WorkflowManager.java:111-219 | the recursive walk keeps the list well formed |
| ToHadoopWorkflowManager.CreateListDistinct | src/main/java/de/tuberlin/schenck/taverna_to_hadoop/convert/WorkflowManager.java:82-100 | the stage list built from the workflow never names a stage twice |
| ToHadoopWorkflowManager.InputPathShape | src/main/java/de/tuberlin/schenck/taverna_to_hadoop/convert/WorkflowManager.java:251-262 | the input path is the comma-joined <name>_<port> list in quotes; for no ports, one quote |
| ToHadoopWorkflowManager.PrepareRun | src/main/java/de/tuberlin/schenck/taverna_to_hadoop/convert/WorkflowManager.java:251-270 | throws exactly for a null entry, unset ports or no output port; else the quoted input path, the quoted target of output port 0, the Text formats, nothing else changed |
| ToHadoopWorkflowManager.StageRuns | src/main/java/de/tuberlin/schenck/taverna_to_hadoop/convert/WorkflowManager.java:249-274 | each loop visit is the stage's own run visit |
| ToHadoopWorkflowManager.PreparedExpands | src/main/java/de/tuberlin/schenck/taverna_to_hadoop/convert/WorkflowManager.java:266-272 | once prepared, a stage's templates expand without a null-value exception |
| ToHadoopWorkflowManager.RunsOkIff | src/main/java/de/tuberlin/schenck/taverna_to_hadoop/convert/WorkflowManager.java:244-277 | getRuns succeeds exactly when every entry can be prepared |
| ToHadoopWorkflowManager.RunsStatePrepared | src/main/java/de/tuberlin/schenck/taverna_to_hadoop/convert/WorkflowManager.java:244-277 | after a successful getRuns every entry is left prepared |
| ToHadoopWorkflowManager.MapReducesAppend | src/main/java/de/tuberlin/schenck/taverna_to_hadoop/convert/WorkflowManager.java:226-237 | the map-reduce text of two lists is the first's followed by the second's; a failure stops it |
| ToHadoopWorkflowManager.WorkflowManager.constructor | src/main/java/de/tuberlin/schenck/taverna_to_hadoop/convert/WorkflowManager.java:49-51 | a manager over the read bundle with an empty stage list |
| ToHadoopWorkflowManager.WorkflowManager.Load | src/main/java/de/tuberlin/schenck/taverna_to_hadoop/convert/WorkflowManager.java:60-75 | the stage list is that of the walk when it completes, and unchanged when it throws |
| ToHadoopWorkflowManager.WorkflowManager.CreateListFromWorkflow | src/main/java/de/tuberlin/schenck/taverna_to_hadoop/convert/WorkflowManager.java:82-100 | the walk from every output port, reversed; a missing main workflow throws; no object twice |
| ToHadoopWorkflowManager.WorkflowManager.GetPreviousProcessors | src/main/java/de/tuberlin/schenck/taverna_to_hadoop/convert/WorkflowManager.java:111-219 | the recursive visit of a receiver, matching the walk function with its stack bound |
| ToHadoopWorkflowManager.WorkflowManager.FollowLinks | src/main/java/de/tuberlin/schenck/taverna_to_hadoop/convert/WorkflowManager.java:111-213 | the stack frame and the link loop of one visit: a fault ends the visit, otherwise the visit continues with the receivers the links named |
| ToHadoopWorkflowManager.WorkflowManager.VisitReceivers | src/main/java/de/tuberlin/schenck/taverna_to_hadoop/convert/WorkflowManager.java:215-219 | the recursive calls for the collected receivers in turn, matching the walk over a receiver list; the first fault ends the walk |
| ToHadoopWorkflowManager.WorkflowManager.VisitLinks | src/main/java/de/tuberlin/schenck/taverna_to_hadoop/convert/WorkflowManager.java:117-213 | the loop over links into a receiver: the list and the receivers to visit next |
| ToHadoopWorkflowManager.WorkflowManager.MakeStage | src/main/java/de/tuberlin/schenck/taverna_to_hadoop/convert/WorkflowManager.java:125-176 | a fresh stage for the processor, null when its class is not loadable |
| ToHadoopWorkflowManager.WorkflowManager.AddForwarding | src/main/java/de/tuberlin/schenck/taverna_to_hadoop/convert/WorkflowManager.java:150-170 | the output port names in order, and the forwarding of all their links |
| ToHadoopWorkflowManager.WorkflowManager.ForwardPort | src/main/java/de/tuberlin/schenck/taverna_to_hadoop/convert/WorkflowManager.java:157-169 | addToPortMap for every link leaving one port |
| ToHadoopWorkflowManager.WorkflowManager.GetMapReduceClasses | src/main/java/de/tuberlin/schenck/taverna_to_hadoop/convert/WorkflowManager.java:226-237 | each stage's map and reduce classes, each followed by "\n" |
| ToHadoopWorkflowManager.WorkflowManager.GetRuns | src/main/java/de/tuberlin/schenck/taverna_to_hadoop/convert/WorkflowManager.java:244-277 | each stage prepared, then its run text with a "\n"; the list left as the run function says |
| ToHadoopWorkflowManager.WorkflowManager.RunAt | src/main/java/de/tuberlin/schenck/taverna_to_hadoop/convert/WorkflowManager.java:250-273 | one visit changes only position i of the list |
| ToHadoopWorkflowManager.WorkflowManager.PrepareForRun | src/main/java/de/tuberlin/schenck/taverna_to_hadoop/convert/WorkflowManager.java:251-270 | path building and the four setters; unchanged when it throws |
| ToHadoopWorkflowManager.WorkflowManager.AddToResult | src/main/java/de/tuberlin/schenck/taverna_to_hadoop/convert/WorkflowManager.java:202-210 | the copy loop and result.add, as the re-append function |
| ToHadoopWorkflowManager.WorkflowManager.RunAll | src/main/java/de/tuberlin/schenck/taverna_to_hadoop/convert/WorkflowManager.java:249-274 | the loop over the list: its text and the list afterwards as the run functions give |
| ToHadoopWorkflowManager.WorkflowManager.RunStage | src/main/java/de/tuberlin/schenck/taverna_to_hadoop/convert/WorkflowManager.java:251-272 | one stage prepared and expanded, as the stage-run function gives |
| ToHadoopWorkflowManager.UnloadableClassContinues | src/main/java/de/tuberlin/schenck/taverna_to_hadoop/convert/WorkflowManager.java:177-212 | an activity whose class cannot be loaded adds a null entry, and its input ports are still visited |
| ToHadoopWorkflowManager.FragmentsAppend | src/main/java/de/tuberlin/schenck/taverna_to_hadoop/convert/WorkflowManager.java:228-231 | the fragments of a list split in two are those of each part, in order |
| ToHadoopWorkflowManager.JoinedAppend | src/main/java/de/tuberlin/schenck/taverna_to_hadoop/convert/WorkflowManager.java:226-234 | a failing fragment in the first part ends the result; otherwise the first part's text precedes the second's |
| ToHadoopWorkflowManager.WorkflowManager.MapReduceOf | src/main/java/de/tuberlin/schenck/taverna_to_hadoop/convert/WorkflowManager.java:229 | a null stage throws; otherwise the stage's own map-reduce fragment |
| ToHadoopTemplateTranslator.Substituted | src/main/java/de/tuberlin/schenck/taverna_to_hadoop/convert/TemplateTranslator.java:141-149 | an exception in the replacement value ends the pass; otherwise an ordinary replace |
| ToHadoopTemplateTranslator.CollectImports | src/main/java/de/tuberlin/schenck/taverna_to_hadoop/convert/TemplateTranslator.java:190-210 | the import set afterwards is the old set plus the items of every requiresimports span |
| ToHadoopTemplateTranslator.KindsExclusive | src/main/java/de/tuberlin/schenck/taverna_to_hadoop/convert/TemplateTranslator.java:140-153 | a span is of at most one kind, so the order of the prefix tests does not matter |
| ToHadoopTemplateTranslator.TranslateWithoutPlaceholders | src/main/java/de/tuberlin/schenck/taverna_to_hadoop/convert/TemplateTranslator.java:90-102 | a template in which the matcher finds no placeholder (no `<%`, or none closed on its line) comes back unchanged, with list and imports unchanged |
| ToHadoopTemplateTranslator.IncludeFileSplicedRaw | src/main/java/de/tuberlin/schenck/taverna_to_hadoop/convert/TemplateTranslator.java:144-149 | a template that is one includefile span becomes the raw file text, not translated |
| ToHadoopTemplateTranslator.IncludeFileWithoutName | src/main/java/de/tuberlin/schenck/taverna_to_hadoop/convert/TemplateTranslator.java:150-152 | an includefile span without a quoted name is left in place |
| ToHadoopTemplateTranslator.IncludeStagesWhole | src/main/java/de/tuberlin/schenck/taverna_to_hadoop/convert/TemplateTranslator.java:140-143 | a template that is one includemapreduce or includerun span becomes the manager's map-reduce or run text |
| ToHadoopTemplateTranslator.VariableWhole | src/main/java/de/tuberlin/schenck/taverna_to_hadoop/convert/TemplateTranslator.java:153-170 | a template that is one variable span becomes the variable's value |
| ToHadoopTemplateTranslator.TemplateTranslator.constructor | src/main/java/de/tuberlin/schenck/taverna_to_hadoop/convert/TemplateTranslator.java:53-57 | root flag set, empty import set |
| ToHadoopTemplateTranslator.TemplateTranslator.Translate | src/main/java/de/tuberlin/schenck/taverna_to_hadoop/convert/TemplateTranslator.java:90-102 | placeholders, then imports; a root writes the result to its RootFile |
| ToHadoopTemplateTranslator.TemplateTranslator.TranslateFile | src/main/java/de/tuberlin/schenck/taverna_to_hadoop/convert/TemplateTranslator.java:75-79 | the file's text, translated |
| ToHadoopTemplateTranslator.TemplateTranslator.ReplacePlaceholders | src/main/java/de/tuberlin/schenck/taverna_to_hadoop/convert/TemplateTranslator.java:112-125 | each span of the original template handled in the current text, in order |
| ToHadoopTemplateTranslator.TemplateTranslator.HandlePlaceholder | src/main/java/de/tuberlin/schenck/taverna_to_hadoop/convert/TemplateTranslator.java:135-172 | one span resolved by its kind |
| ToHadoopTemplateTranslator.TemplateTranslator.ReplaceImports | src/main/java/de/tuberlin/schenck/taverna_to_hadoop/convert/TemplateTranslator.java:182-241 | directives collected and deleted, then the sorted block rendered; the import set only grows |
| ToHadoopTemplateTranslator.CollectStep | src/main/java/de/tuberlin/schenck/taverna_to_hadoop/convert/TemplateTranslator.java:190-209 | one visit of the collect loop; the import set only grows |
| CompilationTemplateTranslator.Escape | src/main/java/de/tuberlin/schenck/taverna_compilation/convert/translators/BeanshellTranslator.java:45 | a script without double quotes is unchanged |
| CompilationTemplateTranslator.EscapeCounts | src/main/java/de/tuberlin/schenck/taverna_compilation/convert/translators/BeanshellTranslator.java:45 | escaping adds one backslash per double quote and keeps every quote |
| CompilationTemplateTranslator.EscapeCompounds | src/main/java/de/tuberlin/schenck/taverna_compilation/convert/translators/BeanshellTranslator.java:44-47 | escaping an already escaped script with quotes changes it again, since the field is reassigned |
| CompilationTemplateTranslator.InjectKeepsOthers | src/main/java/de/tuberlin/schenck/taverna_compilation/convert/translators/BeanshellTranslator.java:33-52 | without `<%=script` spans the script pass changes neither the text nor the field |
| CompilationTemplateTranslator.InjectTwice | src/main/java/de/tuberlin/schenck/taverna_compilation/convert/translators/BeanshellTranslator.java:44-47 | the second script span gets the script escaped twice |
| CompilationTemplateTranslator.ScriptKey | src/main/java/de/tuberlin/schenck/taverna_compilation/convert/translators/TemplateTranslator.java:222-223 | the key is the second `\|`-piece without its last two characters; throws exactly when that piece is missing or too short |
| CompilationTemplateTranslator.KindsExclusive | src/main/java/de/tuberlin/schenck/taverna_compilation/convert/translators/TemplateTranslator.java:136-157 | a span is of at most one kind |
| CompilationTemplateTranslator.TranslateWithoutPlaceholders | src/main/java/de/tuberlin/schenck/taverna_compilation/convert/translators/TemplateTranslator.java:88-100 | a text in which the matcher finds no placeholder (no `<%`, or none closed on its line) comes back unchanged from either kind of translator |
| CompilationTemplateTranslator.RequiresImportsDeleted | src/main/java/de/tuberlin/schenck/taverna_compilation/convert/translators/TemplateTranslator.java:145-156 | a requiresimports span is deleted and its items added; without quotes nothing is added, empty quotes add "" |
| CompilationTemplateTranslator.VariableResolved | src/main/java/de/tuberlin/schenck/taverna_compilation/convert/translators/TemplateTranslator.java:157-174 | a variable span is replaced by the class or package name, or by "" |
| CompilationTemplateTranslator.IncludeMerged | src/main/java/de/tuberlin/schenck/taverna_compilation/convert/translators/TemplateTranslator.java:136-141 | an includefile span becomes the translated file, and its imports are merged |
| CompilationTemplateTranslator.IncludeTranslator | src/main/java/de/tuberlin/schenck/taverna_compilation/convert/translators/TemplateTranslator.java:218-233 | a beanshell-activity-reduce include uses a Beanshell translator with the stored script |
| CompilationTemplateTranslator.TranslatedGrows | src/main/java/de/tuberlin/schenck/taverna_compilation/convert/translators/TemplateTranslator.java:88-100 | a translation never loses an import |
| CompilationTemplateTranslator.SelfIncludeOverflows | src/main/java/de/tuberlin/schenck/taverna_compilation/convert/translators/TemplateTranslator.java:218-233 | a file whose text is one plain include of itself, on a line of its own, ends in a stack overflow however deep the stack is |
| CompilationTemplateTranslator.SelfIncludeFileReads | src/main/java/de/tuberlin/schenck/taverna_compilation/convert/translators/TemplateTranslator.java:76 | a placeholder stored as a one-line file reads back as itself and a line break, the text the self-include starts from |
| CompilationTemplateTranslator.TemplateTranslator.constructor | src/main/java/de/tuberlin/schenck/taverna_compilation/convert/translators/TemplateTranslator.java:53-57 | root flag set, empty import set, plain translator |
| CompilationTemplateTranslator.TemplateTranslator.Beanshell | src/main/java/de/tuberlin/schenck/taverna_compilation/convert/translators/BeanshellTranslator.java:12-16 | a Beanshell translator holding the script as given |
| CompilationTemplateTranslator.TemplateTranslator.TranslateFile | src/main/java/de/tuberlin/schenck/taverna_compilation/convert/translators/TemplateTranslator.java:74-78 | the file's text, translated; only a plain root writes |
| CompilationTemplateTranslator.TemplateTranslator.Translate | src/main/java/de/tuberlin/schenck/taverna_compilation/convert/translators/TemplateTranslator.java:88-100 | placeholders then imports (Beanshell: script pass then placeholders); a plain root writes its RootFile |
| CompilationTemplateTranslator.TemplateTranslator.ReplaceActivitySpecificPlaceholders | src/main/java/de/tuberlin/schenck/taverna_compilation/convert/translators/BeanshellTranslator.java:33-52 | the script pass: the text and the reassigned script field as the injection function gives |
| CompilationTemplateTranslator.TemplateTranslator.ReplacePlaceholders | src/main/java/de/tuberlin/schenck/taverna_compilation/convert/translators/TemplateTranslator.java:109-122 | each span of the text handled in the current text, in order |
| CompilationTemplateTranslator.TemplateTranslator.HandlePlaceholder | src/main/java/de/tuberlin/schenck/taverna_compilation/convert/translators/TemplateTranslator.java:131-176 | one span resolved by its kind |
| CompilationTemplateTranslator.TemplateTranslator.IncludeFile | src/main/java/de/tuberlin/schenck/taverna_compilation/convert/translators/TemplateTranslator.java:218-233 | the nested translation one stack frame deeper; its imports merged only when it succeeds |
| CompilationTemplateTranslator.TemplateTranslator.ReplaceImports | src/main/java/de/tuberlin/schenck/taverna_compilation/convert/translators/TemplateTranslator.java:178-210 | every `<%@imports%>` span replaced by the sorted import block |
| CompilationTemplateTranslator.PassedGrows | src/main/java/de/tuberlin/schenck/taverna_compilation/convert/translators/TemplateTranslator.java:109-122 | the placeholder pass never loses an import |
| CompilationTemplateTranslator.HandledGrows | src/main/java/de/tuberlin/schenck/taverna_compilation/convert/translators/TemplateTranslator.java:131-176 | handling one span never loses an import |
| CompilationTemplateTranslator.TemplateTranslator.IncludeDirective | src/main/java/de/tuberlin/schenck/taverna_compilation/convert/translators/TemplateTranslator.java:136-141 | the include branch: the span replaced by the nested translation, imports as the handling function gives |
| CompilationTemplateTranslator.TemplateTranslator.RequiresDirective | src/main/java/de/tuberlin/schenck/taverna_compilation/convert/translators/TemplateTranslator.java:145-156 | the span deleted and the quoted comma-separated items added to the import set |
| CompilationTemplateTranslator.TemplateTranslator.VariableDirective | src/main/java/de/tuberlin/schenck/taverna_compilation/convert/translators/TemplateTranslator.java:157-174 | a span too short for its name throws; otherwise it is replaced by the class name, the package name or "" |
| CompilationWorkflowTranslator.Store | src/main/java/de/tuberlin/schenck/taverna_compilation/convert/translators/WorkflowTranslator.java:59-63 | no configurations throws; a readable script is stored under the number; otherwise nothing |
| CompilationWorkflowTranslator.Numbered | src/main/java/de/tuberlin/schenck/taverna_compilation/convert/translators/WorkflowTranslator.java:52-63 | one counter draw; the include names the file and the drawn number |
| CompilationWorkflowTranslator.MapReduce | src/main/java/de/tuberlin/schenck/taverna_compilation/convert/translators/WorkflowTranslator.java:51-83 | the replacement as intended (an empty reducer name recognised by its length); the counter stays a Java int |
| CompilationWorkflowTranslator.MapReduceNumbers | src/main/java/de/tuberlin/schenck/taverna_compilation/convert/translators/WorkflowTranslator.java:51-83 | with both stages mapped: two includes with the distinct numbers c and c+1, the script under both keys |
| CompilationWorkflowTranslator.MapReduceIdentity | src/main/java/de/tuberlin/schenck/taverna_compilation/convert/translators/WorkflowTranslator.java:64-66 | an empty mapper name gives the identity-map include and draws no number for it |
| CompilationWorkflowTranslator.MapReduceWithoutMapper | src/main/java/de/tuberlin/schenck/taverna_compilation/convert/translators/WorkflowTranslator.java:51 | no mapper entry for beanshell throws on `length()` |
| CompilationWorkflowTranslator.DirectiveOfCases | src/main/java/de/tuberlin/schenck/taverna_compilation/convert/translators/WorkflowTranslator.java:43-48 | the two directives are recognised ignoring whitespace and case |
| CompilationWorkflowTranslator.DirectiveIgnoresCase | src/main/java/de/tuberlin/schenck/taverna_compilation/convert/translators/WorkflowTranslator.java:48 | spans that differ only in case are the same directive |
| CompilationWorkflowTranslator.HandleKeepsOthers | src/main/java/de/tuberlin/schenck/taverna_compilation/convert/translators/WorkflowTranslator.java:41-96 | any other span, or mapreduce for a non-beanshell activity, leaves everything unchanged |
| CompilationWorkflowTranslator.HandleRun | src/main/java/de/tuberlin/schenck/taverna_compilation/convert/translators/WorkflowTranslator.java:88-94 | the run directive becomes the beanshell-run include |
| CompilationWorkflowTranslator.HandleMapReduce | src/main/java/de/tuberlin/schenck/taverna_compilation/convert/translators/WorkflowTranslator.java:48-87 | the mapreduce directive of a beanshell becomes the two includes, or the pass ends in their exception |
| CompilationWorkflowTranslator.NoActivities | src/main/java/de/tuberlin/schenck/taverna_compilation/convert/translators/WorkflowTranslator.java:45 | with no activities the first span throws on `first()` |
| CompilationWorkflowTranslator.PassKeepsOthers | src/main/java/de/tuberlin/schenck/taverna_compilation/convert/translators/WorkflowTranslator.java:41-96 | a pass over non-directive spans changes nothing |
| CompilationWorkflowTranslator.PassKeepsKeys | src/main/java/de/tuberlin/schenck/taverna_compilation/convert/translators/WorkflowTranslator.java:41-96 | the stored configurations are only ever added to |
| CompilationWorkflowTranslator.ScriptKeyOfInclude | src/main/java/de/tuberlin/schenck/taverna_compilation/convert/translators/WorkflowTranslator.java:54-56 | the scriptId the old engine reads back from a numbered include is that include's number |
| CompilationWorkflowTranslator.FirstQuotedOfInclude | src/main/java/de/tuberlin/schenck/taverna_compilation/convert/translators/WorkflowTranslator.java:54-56 | the file a numbered include references is read back by the quoted-argument pattern |
| CompilationWorkflowTranslator.ReducerTestFinding | src/main/java/de/tuberlin/schenck/taverna_compilation/convert/translators/WorkflowTranslator.java:68-83 | an empty reducer name: as written a number is drawn for a file ""; by content the identity reducer is used |
| CompilationWorkflowTranslator.WorkflowTranslator.constructor | src/main/java/de/tuberlin/schenck/taverna_compilation/convert/translators/WorkflowTranslator.java:27-30 | a translator bound to the bundle and the Config |
| CompilationWorkflowTranslator.WorkflowTranslator.Translate | src/main/java/de/tuberlin/schenck/taverna_compilation/convert/translators/WorkflowTranslator.java:33-38 | the placeholder pass only; the Config's counter and table as the pass function says |
| CompilationWorkflowTranslator.WorkflowTranslator.ReplacePlaceholders | src/main/java/de/tuberlin/schenck/taverna_compilation/convert/translators/TemplateTranslator.java:109-122 | the matcher loop over the template, as the pass function says |
| CompilationWorkflowTranslator.WorkflowTranslator.HandlePlaceholder | src/main/java/de/tuberlin/schenck/taverna_compilation/convert/translators/WorkflowTranslator.java:41-96 | one span handled; counter and table as the handling function says |
| CompilationWorkflowTranslator.WorkflowTranslator.MapReduceReplacement | src/main/java/de/tuberlin/schenck/taverna_compilation/convert/translators/WorkflowTranslator.java:51-83 | the mapper and reducer includes with their counter draws and stored scripts |
| CompilationWorkflowTranslator.WorkflowTranslator.IncludeNumbered | src/main/java/de/tuberlin/schenck/taverna_compilation/convert/translators/WorkflowTranslator.java:52-63 | getCount, then putActivityConfiguration of the script under that number |
| CompilationWorkflowTranslator.MapReduceAsWritten | src/main/java/de/tuberlin/schenck/taverna_compilation/convert/translators/WorkflowTranslator.java:51-83 | the replacement with the reducer compared to `""` by reference, as written; the counter stays a Java int |
| CompilationWorkflowTranslator.Handle | src/main/java/de/tuberlin/schenck/taverna_compilation/convert/translators/WorkflowTranslator.java:41-96 | one span handled; the counter stays a Java int |
| CompilationWorkflowTranslator.Pass | src/main/java/de/tuberlin/schenck/taverna_compilation/convert/translators/TemplateTranslator.java:109-122 | the placeholder loop over the spans; the counter stays a Java int |
| CompilationWorkflowTranslator.Translated | src/main/java/de/tuberlin/schenck/taverna_compilation/convert/translators/WorkflowTranslator.java:33-38 | translate: the placeholder pass only; the counter stays a Java int |
| CompilationWorkflowManager.SupportFault | src/main/java/de/tuberlin/schenck/taverna_compilation/convert/WorkflowManager.java:62-90 | no fault exactly for a supported bundle; every message is one of the check's own |
| CompilationWorkflowManager.SeveralWorkflowsFirst | src/main/java/de/tuberlin/schenck/taverna_compilation/convert/WorkflowManager.java:64-65 | several workflows are refused for that, whatever else is wrong |
| CompilationWorkflowManager.LaterActivitiesIgnored | src/main/java/de/tuberlin/schenck/taverna_compilation/convert/WorkflowManager.java:80-89 | only the first activity is examined |
| CompilationWorkflowManager.TypeMessageNamesOtherType | src/main/java/de/tuberlin/schenck/taverna_compilation/convert/WorkflowManager.java:80-81 | the type message is given only for a non-beanshell activity |
| CompilationWorkflowManager.SupportedExpandsMapReduce | src/main/java/de/tuberlin/schenck/taverna_compilation/convert/WorkflowManager.java:103-106 | for a supported bundle the mapreduce directive is always expanded |
| CompilationWorkflowManager.WorkflowManager.CreateTemplateFromWorkflow | src/main/java/de/tuberlin/schenck/taverna_compilation/convert/WorkflowManager.java:103-106 | the workflow translator's pass over the template |
| CompilationWorkflowManager.Open | src/main/java/de/tuberlin/schenck/taverna_compilation/convert/WorkflowManager.java:27-52 | the check's fault, and a manager exactly when there is none |
| CompilationWorkflowManager.WorkflowManager.constructor | src/main/java/de/tuberlin/schenck/taverna_compilation/convert/WorkflowManager.java:27-52 | a manager exists only for a bundle that passes the support check |
| CompilationMain.ParseLevel | src/main/java/de/tuberlin/schenck/taverna_compilation/TavernaToHadoopMain.java:163-183 | a level exactly when the value equals a level name ignoring case |
| CompilationMain.LevelNameSelects | src/main/java/de/tuberlin/schenck/taverna_compilation/TavernaToHadoopMain.java:165-181 | each level's own name selects that level |
| CompilationMain.LevelIgnoresCase | src/main/java/de/tuberlin/schenck/taverna_compilation/TavernaToHadoopMain.java:165-181 | values that differ only in case select the same level |
| CompilationMain.WithSlash | src/main/java/de/tuberlin/schenck/taverna_compilation/TavernaToHadoopMain.java:208-214 | the path ends with "/" and extends the given one by at most that slash |
| CompilationMain.WithSlashIdempotent | src/main/java/de/tuberlin/schenck/taverna_compilation/TavernaToHadoopMain.java:208-214 | adding the slash twice is adding it once; a path with one is kept |
| CompilationMain.DerivedClassName | src/main/java/de/tuberlin/schenck/taverna_compilation/TavernaToHadoopMain.java:196-205 | throws exactly when there is no '.' or no word character before the last one; else a word-character name not starting lower-case |
| CompilationMain.DerivedFromFileName | src/main/java/de/tuberlin/schenck/taverna_compilation/TavernaToHadoopMain.java:196-205 | a word-character class name not starting lower-case is derived back from name.ext |
| CompilationMain.Overrides | src/main/java/de/tuberlin/schenck/taverna_compilation/TavernaToHadoopMain.java:208-237 | each given -t/-m/-C/-P lands in its field (-t with a trailing slash), the rest is kept |
| CompilationMain.HelpExits | src/main/java/de/tuberlin/schenck/taverna_compilation/TavernaToHadoopMain.java:156-157 | -h exits with status 0 before anything is set |
| CompilationMain.ParseErrorExits | src/main/java/de/tuberlin/schenck/taverna_compilation/TavernaToHadoopMain.java:239-242 | a parse failure exits with status 1, nothing set, in both readings |
| CompilationMain.MissingFileExits | src/main/java/de/tuberlin/schenck/taverna_compilation/TavernaToHadoopMain.java:186-191 | status 1 exactly when -i or -o is missing; level and file names already set, in both readings |
| CompilationMain.CompleteOutcome | src/main/java/de/tuberlin/schenck/taverna_compilation/TavernaToHadoopMain.java:186-237 | as intended: a complete command line fails only when -C is absent and the name must be derived and cannot be; every option lands |
| CompilationMain.CompleteOutcomeAsWritten | src/main/java/de/tuberlin/schenck/taverna_compilation/TavernaToHadoopMain.java:186-237 | as written: a complete command line on the default name fails exactly when the output file gives no class name, even with -C given; otherwise every option lands |
| CompilationMain.ExplicitClassNameWins | src/main/java/de/tuberlin/schenck/taverna_compilation/TavernaToHadoopMain.java:228-231 | as intended: with -C given the run finishes and the class name is the -C value |
| CompilationMain.DerivedNameIsClassName | src/main/java/de/tuberlin/schenck/taverna_compilation/TavernaToHadoopMain.java:196-205 | without -C the derived name is a non-empty word-character name not starting lower-case |
| CompilationMain.AsWrittenDiffers | src/main/java/de/tuberlin/schenck/taverna_compilation/TavernaToHadoopMain.java:196-231 | as written and as intended differ exactly when -C is given and the derivation throws |
| CompilationMain.ExplicitNameCrashFinding | src/main/java/de/tuberlin/schenck/taverna_compilation/TavernaToHadoopMain.java:196-231 | `-i w.t2flow -o out -C Job`: as written an index exception, as intended the class Job |
| CompilationMain.Main.constructor | src/main/java/de/tuberlin/schenck/taverna_compilation/TavernaToHadoopMain.java:38 | level INFO and no file names when the class is loaded |
| CompilationMain.Main.ApplyOverrides | src/main/java/de/tuberlin/schenck/taverna_compilation/TavernaToHadoopMain.java:207-236 | each of -t, -m, -C and -P that is given replaces its Config field, -t with a trailing slash; the state equals the override function applied to the old state |
| CompilationMain.Main.ParseCommandLine | src/main/java/de/tuberlin/schenck/taverna_compilation/TavernaToHadoopMain.java:154-243 | as written: the exits and the exception as the Stop, and the state the as-written interpretation gives; the class name is derived before -C is read |
| CompilationMain.VersionExits | src/main/java/de/tuberlin/schenck/taverna_compilation/TavernaToHadoopMain.java:159-160 | -v without -h exits with status 0 before any other option is interpreted |

## Left out

- Reading the Scufl2 bundle (`readWorkflow` in both generations) is not modelled. The bundle is a `Scufl.Bundle` value given to the managers, holding the main workflow, the processor bindings of the main profile, and the profile's activities and configurations.
- Reflection (`Class.forName`, `newInstance`) is a registry map in the walk's context. A class missing from it is the caught exception that leaves a null entry.
- File I/O is a map from path to content. A read follows `FileUtils.readFileIntoString`. A file written by a root translation is returned as a (path, text) pair instead of being written. The rest of FileUtils (javac, JAR packaging) is not part of this model.
- Logging is not modelled. An exception that the source catches and only logs leaves no trace beyond its effect on the state.
- commons-cli parsing is not modelled; what it hands over is a `CommandLine` value, and no value stands for a `ParseException`. `System.exit` is a `Stop` outcome, and the text printed by `printHelp` and `printVersion` is not modelled.
- TavernaToHadoopConverter is not part of this model: it is orchestration only. UnsupportedWorkflowException is not modelled either; it is the `Unsupported(message)` fault.
- `String.replaceAll(placeholder, …)` is modelled as the literal replacement of every occurrence. A placeholder holding regex metacharacters (`|`, `.`, `*`) would be read as a pattern by Java. The replacement string is also inserted literally, while Java reads `$n` in it as a group reference and `\` as an escape. This concerns the variable values, the import block and the included text. For example, `-C 'Job$1'` makes Java throw IndexOutOfBoundsException ("No group 1") where the model splices in `Job$1`.
- Letter case is modelled for ASCII letters only, for `equalsIgnoreCase`, `toUpperCase` and `toLowerCase`.
- Imports.SortedList: a model character is a Unicode code point, while a Java `char` is a UTF-16 code unit. `Imports.Less`, with `LessTotal` and `LessTransitive`, orders strings by code point, while `String.compareTo` compares UTF-16 units. The two orders differ only when, at the first position where two names differ, one has a supplementary character (U+10000 and above) and the other a character in U+E000–U+FFFF: Java puts U+10000 before U+FFFF, and the model puts it after. The import block can then come out in another order. Lengths and indices in the model also count code points, not `length()` units.
- The receivers collected in a `HashSet` (`nextReceiverPorts`) are visited in insertion order. Java's hash order is not modelled, so when one processor feeds several others, the model fixes an order that Java may not follow.
- The unbounded recursion of `getPreviousProcessors` and of the older engine's includes is bounded by a `fuel` argument that stands for the Java stack. Running out of it is a `StackOverflowError`. The amount of fuel is not a Java quantity, so the model says nothing about how deep a Java stack actually goes.
- The exception for a port of unknown type (`WorkflowManager.java:165` in `taverna_to_hadoop`) cannot arise in the model: a link ends at a workflow output port or a processor input port by construction.
- `ActivityConfig.inputPorts` is declared a `Map`, but `WorkflowManager` stores and iterates a `List` in it. The model keeps the ordered list that the walk and `getRuns` use.
- `BeanshellConfig` declares `fetchDataFromTavernaConfig`, while the abstract method is `fetchActivitySpecificDataFromTavernaConfig`. The model reads the script as the `BeanshellConfig` method does.
- The older engine's Config (`taverna_compilation.utils.Config`) is not part of this model. The older engine reads the same settings from `ToHadoopConfig.Config`, whose fields have the same meaning. The translators' static reads of it are gathered in an `Env` value.
- ToHadoopTemplateTranslator.TemplateTranslator.ReplaceImports collects imports into a local set and assigns the field once at the end. This gives the same final state, since nothing in the loop can throw.
- The worked example of the older engine (`<%=hadoopclassname%>`, then `requiresimports`, then `@imports`) is not proved as one concrete instance. Its steps are stated by `CompilationTemplateTranslator.VariableResolved`, `CompilationTemplateTranslator.RequiresImportsDeleted` and `Directives.ImportsDirectiveRendered`.
- CompilationWorkflowTranslator.MapReduce: its own contract says only that the counter stays a Java `int`. The includes it builds are stated by `MapReduceNumbers`, `MapReduceIdentity` and `MapReduceWithoutMapper`.
- CompilationWorkflowTranslator.WorkflowTranslator.MapReduceReplacement: tests the reducer name by content (`ReducerMapped`), not by the reference comparison `!= ""` that the older `WorkflowTranslator.java` makes at line 68. The two agree on runtimes whose `split` returns the interned `""` for an empty piece. Where they differ, as-written, is stated by `MapReduceAsWritten` and `ReducerTestFinding` (first Findings row). `Handle`, `Pass`, `Translated` and the methods ensuring them (`HandlePlaceholder`, `Translate`, `CreateTemplateFromWorkflow`) follow the same content reading.
- CompilationWorkflowTranslator.MapReduceAsWritten: its own contract says only that the counter stays a Java `int`. What it does differently is stated by `ReducerTestFinding`.
- CompilationWorkflowTranslator.Handle: its own contract says only that the counter stays a Java `int`. Its cases are stated by `HandleKeepsOthers`, `HandleRun`, `HandleMapReduce` and `NoActivities`.
- CompilationWorkflowTranslator.Pass: its own contract says only that the counter stays a Java `int`. `PassKeepsOthers` and `PassKeepsKeys` state more about it.
- CompilationWorkflowTranslator.Translated: its own contract says only that the counter stays a Java `int`. `NoActivities` and the pass lemmas state the rest.

## Findings

| source | as written | input that shows it | evidently intended | confidence | as-written member | corrected member |
|---|---|---|---|---|---|---|
| src/main/java/de/tuberlin/schenck/taverna_compilation/convert/translators/WorkflowTranslator.java:68 | The reducer mapping is compared with `!= ""`, a reference comparison, while the mapper at line 51 is checked with `length()`. | The mapping line `<beanshell-uri>\t\t\tx`: its reducer field is empty and not the last, so `split` keeps it and the reducer name is a runtime-built `""` (`ToHadoopConfig.EmptyInnerReducerStored`). An empty last field is dropped instead, and the read aborts (`ToHadoopConfig.EmptyReducerAborts`). | An empty reducer name selects `identity-reduce.jtemp`, and no counter value is drawn for it. | low: not executed; the outcome depends on whether the runtime's `split` returns the interned `""` for an empty piece | CompilationWorkflowTranslator.MapReduceAsWritten, CompilationWorkflowTranslator.ReducerTestFinding | CompilationWorkflowTranslator.MapReduce |
| src/main/java/de/tuberlin/schenck/taverna_compilation/TavernaToHadoopMain.java:196-205 | The class name is derived from the output file name before `-C` is read (line 228), and the derivation throws when the output file name has no `.`. | `-i w.t2flow -o out -C Job` | An explicit `-C` names the class, and no derivation happens. | high: not executed | CompilationMain.InterpretAsWritten, CompilationMain.ExplicitNameCrashFinding, CompilationMain.Main.ParseCommandLine | CompilationMain.Interpret, CompilationMain.ExplicitClassNameWins |
