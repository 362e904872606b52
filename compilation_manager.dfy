/** The workflow manager of the template-compilation engine: the support
    check a bundle must pass once it is read, and the template it makes
    from a standard template by the workflow translator's pass. */
module CompilationWorkflowManager {
  import opened Wrappers
  import opened JavaString
  import opened Scufl
  import opened ToHadoopConfig
  import opened CompilationWorkflowTranslator

  /** The count messages all begin with these words. */
  const FoundMore := "Found more "
  const MoreThanOneWorkflow := FoundMore + "than one workflow in the bundle."
  const InputPortCount := FoundMore + "or fewer than one input port."
  const OutputPortCount := FoundMore + "or fewer than one output port."
  const ProcessorCount := FoundMore + "or fewer than one processor."
  const OtherActivity := "Found activity other than beanshell: "
  const ActivityInputPortCount := FoundMore + "or fewer than one input port for activity."
  const ActivityOutputPortCount := FoundMore + "or fewer than one output port for activity."

  /** The workflows this version compiles: at most one workflow in the
      bundle, a main workflow with one input port, one output port and one
      processor, and a first activity that is a beanshell with one input and
      one output port. */
  predicate Supported(b: Bundle) {
    && |b.workflows| <= 1
    && b.mainWorkflow.Some?
    && |b.mainWorkflow.value.inputPorts| == 1
    && |b.mainWorkflow.value.outputPorts| == 1
    && |b.mainWorkflow.value.processors| == 1
    && b.activities != []
    && b.activities[0].typeUri == BeanshellUri
    && |b.activities[0].inputPorts| == 1
    && |b.activities[0].outputPorts| == 1
  }

  /** A fault whose message is one of the check's own. */
  predicate CheckMessage(f: Fault) {
    f.Unsupported? ==>
      f.message in [MoreThanOneWorkflow, InputPortCount, OutputPortCount, ProcessorCount,
                    ActivityInputPortCount, ActivityOutputPortCount]
      || StartsWith(f.message, OtherActivity)
  }

  /** A count message, which begins "Found more", cannot be taken for the
      activity-type message, which begins "Found activity". */
  lemma CountMessagesAreNotTypeMessages(rest: string)
    ensures !StartsWith(FoundMore + rest, OtherActivity)
  {
    var m := FoundMore + rest;
    assert m[6] == FoundMore[6];
    assert FoundMore[6] == 'm';
    assert OtherActivity[6] == 'a';
  }

  /** checkWorkflowSupport: the first condition the bundle breaks, as the
      exception it throws (none when the bundle is supported). A bundle
      without a main workflow ends in a NullPointerException and one
      without activities in NoSuchElementException from first(). */
  function SupportFault(b: Bundle): (r: Option<Fault>)
    ensures r.None? <==> Supported(b)
    ensures r.Some? ==> CheckMessage(r.value)
    ensures r.Some? && r.value.Unsupported? && StartsWith(r.value.message, OtherActivity)
            ==> b.activities != [] && r.value.message == OtherActivity + b.activities[0].typeUri
  {
    if |b.workflows| > 1 then
      CountMessagesAreNotTypeMessages("than one workflow in the bundle.");
      Some(Unsupported(MoreThanOneWorkflow))
    else
      match b.mainWorkflow
      case None => Some(NullPointer)
      case Some(w) =>
        if |w.inputPorts| != 1 then CountMessagesAreNotTypeMessages("or fewer than one input port."); Some(Unsupported(InputPortCount))
        else if |w.outputPorts| != 1 then CountMessagesAreNotTypeMessages("or fewer than one output port."); Some(Unsupported(OutputPortCount))
        else if |w.processors| != 1 then CountMessagesAreNotTypeMessages("or fewer than one processor."); Some(Unsupported(ProcessorCount))
        else if b.activities == [] then Some(NoSuchElement)
        else
          var a := b.activities[0];
          if a.typeUri != BeanshellUri then
            var m := OtherActivity + a.typeUri;
            assert m[..|OtherActivity|] == OtherActivity;
            Some(Unsupported(m))
          else if |a.inputPorts| != 1 then CountMessagesAreNotTypeMessages("or fewer than one input port for activity."); Some(Unsupported(ActivityInputPortCount))
          else if |a.outputPorts| != 1 then CountMessagesAreNotTypeMessages("or fewer than one output port for activity."); Some(Unsupported(ActivityOutputPortCount))
          else None
  }

  /** The workflow count is checked first: a bundle of several workflows
      is refused for that, whatever its main workflow looks like. */
  lemma SeveralWorkflowsFirst(b: Bundle)
    requires |b.workflows| > 1
    ensures SupportFault(b) == Some(Unsupported(MoreThanOneWorkflow))
  {
  }

  /** Only the main workflow and the first activity are looked at: the
      activities after the first one do not change the verdict. */
  lemma LaterActivitiesIgnored(b: Bundle, more: seq<Activity>)
    requires b.activities != []
    ensures SupportFault(b.(activities := b.activities + more)) == SupportFault(b)
  {
    assert (b.activities + more)[0] == b.activities[0];
  }

  /** A message that names a beanshell URI is never the activity-type
      message: the check refuses other activity types only. */
  lemma TypeMessageNamesOtherType(b: Bundle)
    requires SupportFault(b).Some? && SupportFault(b).value.Unsupported?
    requires StartsWith(SupportFault(b).value.message, OtherActivity)
    ensures b.activities[0].typeUri != BeanshellUri
  {
  }

  /** In a supported bundle the first activity is a beanshell, so the
      mapreduce directive is always expanded by the translator's pass. */
  lemma SupportedExpandsMapReduce(b: Bundle, mapper: map<string, string>, reducer: map<string, string>, text: string, placeholder: string, st: Counters)
    requires Supported(b) && |placeholder| > 0 && IsInt32(st.counter)
    requires DirectiveOf(placeholder) == IncludeMapReduce
    ensures var o := MapReduce(b, mapper, reducer, st);
            Handle(b, mapper, reducer, text, placeholder, st)
            == if o.text.Err? then o else Step(Ok(Replace(text, placeholder, o.text.value)), o.state)
  {
    HandleMapReduce(b, mapper, reducer, text, placeholder, st);
  }

  /** The manager of one bundle that was read from disk. */
  class WorkflowManager {
    const workflowBundle: Bundle
    const cfg: Config

    /** The constructor's check: a manager exists only for a bundle that
        passed checkWorkflowSupport. */
    constructor (workflowBundle: Bundle, cfg: Config)
      requires Supported(workflowBundle)
      ensures this.workflowBundle == workflowBundle && this.cfg == cfg
    {
      this.workflowBundle := workflowBundle;
      this.cfg := cfg;
    }

    /** createTemplateFromWorkflow: a translator for the bundle runs its
        placeholder pass over the standard template. */
    method CreateTemplateFromWorkflow(inputTemplate: string) returns (r: Result<string>)
      requires cfg.Valid()
      modifies cfg`counter, cfg`activityConfigurations
      ensures cfg.Valid()
      ensures var o := Translated(workflowBundle, cfg.mapperMapping, cfg.reducerMapping, inputTemplate,
                                  Counters(old(cfg.counter), old(cfg.activityConfigurations)));
              r == o.text && cfg.counter == o.state.counter && cfg.activityConfigurations == o.state.configurations
    {
      var translator := new WorkflowTranslator(workflowBundle, cfg);
      r := translator.Translate(inputTemplate);
    }
  }

  /** The manager's constructor: read the bundle (the reading itself is a
      parameter here), then check it; an unsupported bundle gives no manager. */
  method Open(workflowBundle: Bundle, cfg: Config) returns (fault: Option<Fault>, manager: Option<WorkflowManager>)
    ensures fault == SupportFault(workflowBundle)
    ensures fault.None? <==> manager.Some?
    ensures manager.Some? ==> fresh(manager.value) && manager.value.workflowBundle == workflowBundle && manager.value.cfg == cfg
  {
    fault := SupportFault(workflowBundle);
    if fault.None? {
      var m := new WorkflowManager(workflowBundle, cfg);
      manager := Some(m);
    } else {
      manager := None;
    }
  }
}
