/** The graph linearizer of the newer generator
    (taverna_to_hadoop.convert.WorkflowManager). Starting at every output
    port of the main workflow it walks the data links backwards; every
    processor it reaches becomes a stage record, appended to a list from
    which an earlier record of the same name is first removed. The list is
    reversed at the end, so that stages come in execution order. The walk
    keeps no visited set: a cyclic workflow recurses until the Java stack
    overflows, which the model expresses by a depth bound `fuel`. */
module ToHadoopWorkflowManager {
  import opened Wrappers
  import opened JavaString
  import opened Scufl
  import opened Placeholders
  import opened ActivityConfigs

  /** The classes Class.forName can load, by simple name. */
  datatype StageKind = BeanshellKind

  /** Everything the walk reads: the main workflow, the configuration bound
      to each processor (by processor name) and the loadable stage classes. */
  datatype Context = Context(wf: Workflow, bindings: map<string, Configuration>, registry: map<string, StageKind>)

  /** A list entry: a stage, or null when its class could not be loaded. */
  type Entry = Option<StageValue>

  /** The config class for an activity type path: the last `/`-segment,
      first letter upper-cased, with "Config" appended. A path with no
      segment, or an empty last segment, throws. */
  function ClassName(typePath: string): (r: Result<string>)
    ensures r.Ok? ==> EndsWith(r.value, "Config")
  {
    var params := Split(typePath, '/');
    if |params| == 0 then Err(IndexOutOfBounds)
    else
      var last := params[|params| - 1];
      if last == [] then Err(IndexOutOfBounds)
      else
        var r := UpperFirst(last) + "Config";
        assert r[|r| - 6..] == "Config";
        Ok(r)
  }

  lemma ClassNameOfPath(prefix: string, segment: string)
    requires segment != [] && '/' !in segment
    ensures ClassName(prefix + "/" + segment) == Ok(UpperFirst(segment) + "Config")
  {
    var s := prefix + "/" + segment;
    assert s == prefix + ['/'] + segment;
    RawSplitConcat(prefix, segment, '/');
    assert RawSplit(segment, '/') == [segment];
    var raw := RawSplit(prefix, '/') + [segment];
    assert s[|prefix|] == '/';
    assert DropTrailingEmpty(raw) == raw;
  }

  /** The name a link's target has in the forwarding map: processor name,
      "_" and port name for a processor input port, the bare name for a
      workflow output port. */
  function TargetName(to: Receiver): string {
    match to
    case ToProcessor(p, port) => p.name + "_" + port
    case ToWorkflowOutput(n) => n
  }

  /** addToPortMap for every link leaving one output port, in link order. */
  function ForwardLinks(forward: map<string, string>, port: string, links: seq<DataLink>): (r: map<string, string>)
    ensures links != [] ==> port in r && r[port] == TargetName(links[|links| - 1].sendsTo)
    ensures links == [] ==> r == forward
    ensures forall k :: k != port ==> (k in r <==> k in forward) && (k in r ==> r[k] == forward[k])
    decreases |links|
  {
    if links == [] then forward
    else
      var r := ForwardLinks(forward[port := TargetName(links[0].sendsTo)], port, links[1..]);
      assert links[1..] != [] ==> links[1..][|links[1..]| - 1] == links[|links| - 1];
      r
  }

  /** The links from every output port of p, in port order. */
  function Forwarding(links: seq<DataLink>, p: Processor, ports: seq<string>, forward: map<string, string>): map<string, string>
    decreases |ports|
  {
    if ports == [] then forward
    else Forwarding(links, p, ports[1..], ForwardLinks(forward, ports[0], LinksFrom(links, FromProcessor(p, ports[0]))))
  }

  /** The forwarding loop from port i on: port i's links first. */
  lemma ForwardingStep(links: seq<DataLink>, p: Processor, ports: seq<string>, i: nat, forward: map<string, string>)
    requires i < |ports|
    ensures Forwarding(links, p, ports[i..], forward)
         == Forwarding(links, p, ports[i + 1..], ForwardLinks(forward, ports[i], LinksFrom(links, FromProcessor(p, ports[i]))))
  {
    assert ports[i..][0] == ports[i] && ports[i..][1..] == ports[i + 1..];
  }

  /** Keys that are not output ports keep their values. */
  lemma {:induction false} ForwardingKeeps(links: seq<DataLink>, p: Processor, ports: seq<string>, forward: map<string, string>, k: string)
    requires k !in ports
    ensures var r := Forwarding(links, p, ports, forward);
            (k in r <==> k in forward) && (k in r ==> r[k] == forward[k])
    decreases |ports|
  {
    if ports != [] {
      assert k != ports[0];
      assert k !in ports[1..];
      ForwardingKeeps(links, p, ports[1..], ForwardLinks(forward, ports[0], LinksFrom(links, FromProcessor(p, ports[0]))), k);
    }
  }

  /** The last link leaving a port: the one whose target the forwarding map keeps. */
  function LastTarget(out: seq<DataLink>): string
    requires out != []
  {
    TargetName(out[|out| - 1].sendsTo)
  }

  /** Each output port with links forwards to the target of its last link. */
  lemma {:induction false} ForwardingTargets(links: seq<DataLink>, p: Processor, ports: seq<string>, forward: map<string, string>, port: string)
    requires port in ports
    requires LinksFrom(links, FromProcessor(p, port)) != []
    ensures var r := Forwarding(links, p, ports, forward);
            port in r && r[port] == LastTarget(LinksFrom(links, FromProcessor(p, port)))
    decreases |ports|
  {
    var f1 := ForwardLinks(forward, ports[0], LinksFrom(links, FromProcessor(p, ports[0])));
    assert Forwarding(links, p, ports, forward) == Forwarding(links, p, ports[1..], f1);
    if port in ports[1..] {
      ForwardingTargets(links, p, ports[1..], f1, port);
    } else {
      assert port == ports[0];
      ForwardingKeeps(links, p, ports[1..], f1, port);
    }
  }

  /** The record a processor's link visit builds: Ok(None) when its class
      cannot be loaded, Err for the exceptions outside the try block. */
  function StageFor(ctx: Context, p: Processor): (r: Result<Entry>)
    ensures r.Ok? && r.value.Some? ==> r.value.value.inputPorts == Some(p.inputPorts) && r.value.value.outputPorts == Some(p.outputPorts)
    ensures r.Ok? && r.value.Some? ==> p.name in ctx.bindings && r.value.value.name == ctx.bindings[p.name].name
  {
    if p.name !in ctx.bindings then Err(MissingConfiguration)
    else
      var config := ctx.bindings[p.name];
      var className :- ClassName(config.typePath);
      if className !in ctx.registry then Ok(None)
      else
        Ok(Some(NewStage(config.name).(
          script := Some(if config.script.Some? then config.script.value else ""),
          outputToNextInput := Forwarding(ctx.wf.links, p, p.outputPorts, map[]),
          inputPorts := Some(p.inputPorts),
          outputPorts := Some(p.outputPorts))))
  }

  /** The stage record built for a processor whose class loads. */
  function LoadedStage(ctx: Context, p: Processor): StageValue
    requires p.name in ctx.bindings
  {
    var config := ctx.bindings[p.name];
    NewStage(config.name).(
      script := Some(if config.script.Some? then config.script.value else ""),
      outputToNextInput := Forwarding(ctx.wf.links, p, p.outputPorts, map[]),
      inputPorts := Some(p.inputPorts),
      outputPorts := Some(p.outputPorts))
  }

  lemma StageForLoaded(ctx: Context, p: Processor, className: string)
    requires p.name in ctx.bindings && ClassName(ctx.bindings[p.name].typePath) == Ok(className)
    requires className in ctx.registry
    ensures StageFor(ctx, p) == Ok(Some(LoadedStage(ctx, p)))
  {
  }

  /** The copy loop of the re-append step: for every index of the copy,
      an entry equal to the new one is removed from the result at that
      index; a null entry in the copy throws on `equals`. */
  function RemoveEqual(copy: seq<Entry>, result: seq<Entry>, i: nat, entry: Entry): Result<seq<Entry>>
    decreases |copy| - i
  {
    if i >= |copy| then Ok(result)
    else if copy[i].None? then Err(NullPointer)
    else if entry.Some? && copy[i].value.name == entry.value.name then
      if i < |result| then RemoveEqual(copy, result[..i] + result[i + 1..], i + 1, entry)
      else Err(IndexOutOfBounds)
    else RemoveEqual(copy, result, i + 1, entry)
  }

  /** Remove an equal entry, then append the new one. */
  function AddStage(list: seq<Entry>, entry: Entry): Result<seq<Entry>> {
    var l :- RemoveEqual(list, list, 0, entry);
    Ok(l + [entry])
  }

  /** `HashSet.addAll`, iterated in insertion order: the receivers not there yet are appended. */
  function AddAll(next: seq<Receiver>, xs: seq<Receiver>): (r: seq<Receiver>)
    ensures forall x :: x in r <==> x in next || x in xs
    ensures |next| <= |r| && r[..|next|] == next
    decreases |xs|
  {
    if xs == [] then next
    else
      var n := if xs[0] in next then next else next + [xs[0]];
      var r := AddAll(n, xs[1..]);
      assert r[..|next|] == r[..|n|][..|next|];
      r
  }

  /** The state inside one getPreviousProcessors call: the list and the receivers to visit next. */
  datatype Step = Step(list: seq<Entry>, next: seq<Receiver>)

  /** One visit of the loop over the links into a receiver. */
  function LinkStep(ctx: Context, st: Step, link: DataLink): (r: Result<Step>)
    ensures link.receivesFrom.FromWorkflowInput? ==> r == Ok(st)
  {
    match link.receivesFrom
    case FromWorkflowInput(_) => Ok(st)
    case FromProcessor(p, _) =>
      var entry :- StageFor(ctx, p);
      var list :- AddStage(st.list, entry);
      Ok(Step(list, AddAll(st.next, InputReceivers(p))))
  }

  function LinkSteps(ctx: Context, st: Step, links: seq<DataLink>): Result<Step>
    decreases |links|
  {
    if links == [] then Ok(st)
    else
      var st' :- LinkStep(ctx, st, links[0]);
      LinkSteps(ctx, st', links[1..])
  }

  /** `getPreviousProcessors(result, receiver)` with `fuel` frames of stack left. */
  function Visit(ctx: Context, list: seq<Entry>, receiver: Receiver, fuel: nat): Result<seq<Entry>>
    decreases fuel, 0
  {
    if fuel == 0 then Err(StackOverflow)
    else
      var st :- LinkSteps(ctx, Step(list, []), LinksTo(ctx.wf.links, receiver));
      VisitAll(ctx, st.list, st.next, fuel - 1)
  }

  /** getPreviousProcessors for each receiver in turn. */
  function VisitAll(ctx: Context, list: seq<Entry>, receivers: seq<Receiver>, fuel: nat): Result<seq<Entry>>
    decreases fuel, 1, |receivers|
  {
    if receivers == [] then Ok(list)
    else
      var l :- Visit(ctx, list, receivers[0], fuel);
      VisitAll(ctx, l, receivers[1..], fuel)
  }

  /** One visit with stack left: the links into the receiver, then the receivers they name. */
  lemma VisitUnfold(ctx: Context, list: seq<Entry>, receiver: Receiver, fuel: nat)
    requires fuel > 0
    ensures var st := LinkSteps(ctx, Step(list, []), LinksTo(ctx.wf.links, receiver));
            && (st.Err? ==> Visit(ctx, list, receiver, fuel) == Err(st.fault))
            && (st.Ok? ==> Visit(ctx, list, receiver, fuel) == VisitAll(ctx, st.value.list, st.value.next, fuel - 1))
  {
  }

  /** A visit whose links were followed without a fault goes on with the receivers they named. */
  lemma VisitThrough(ctx: Context, list: seq<Entry>, receiver: Receiver, fuel: nat, found: seq<Entry>, next: seq<Receiver>)
    requires fuel > 0
    requires LinkSteps(ctx, Step(list, []), LinksTo(ctx.wf.links, receiver)) == Ok(Step(found, next))
    ensures Visit(ctx, list, receiver, fuel) == VisitAll(ctx, found, next, fuel - 1)
  {
  }

  /** The receivers from the j-th on: the j-th is visited first, and its fault ends the walk. */
  lemma VisitAllAt(ctx: Context, list: seq<Entry>, receivers: seq<Receiver>, j: nat, fuel: nat)
    requires j < |receivers|
    ensures var v := Visit(ctx, list, receivers[j], fuel);
            && (v.Err? ==> VisitAll(ctx, list, receivers[j..], fuel) == Err(v.fault))
            && (v.Ok? ==> VisitAll(ctx, list, receivers[j..], fuel) == VisitAll(ctx, v.value, receivers[j + 1..], fuel))
  {
    assert receivers[j..][0] == receivers[j];
    assert receivers[j..][1..] == receivers[j + 1..];
  }

  function OutputReceivers(names: seq<string>): (r: seq<Receiver>)
    ensures |r| == |names|
    ensures forall i :: 0 <= i < |r| ==> r[i] == ToWorkflowOutput(names[i])
  {
    if names == [] then [] else [ToWorkflowOutput(names[0])] + OutputReceivers(names[1..])
  }

  function Reverse<T>(s: seq<T>): (r: seq<T>)
    ensures |r| == |s|
    ensures forall i :: 0 <= i < |s| ==> r[i] == s[|s| - 1 - i]
  {
    if s == [] then [] else Reverse(s[1..]) + [s[0]]
  }

  /** `createListFromWorkflow()`: the walk from every workflow output port, in
      declaration order, then the list reversed. */
  function CreateList(ctx: Context, fuel: nat): Result<seq<Entry>> {
    var l :- VisitAll(ctx, [], OutputReceivers(ctx.wf.outputPorts), fuel);
    Ok(Reverse(l))
  }

  /** The entries not named `name`, in their order. */
  function Without(list: seq<Entry>, name: string): (r: seq<Entry>)
    ensures |r| <= |list|
    ensures forall x :: x in r <==> x in list && (x.None? || x.value.name != name)
  {
    if list == [] then []
    else (if list[0].Some? && list[0].value.name == name then [] else [list[0]]) + Without(list[1..], name)
  }

  predicate NoNull(list: seq<Entry>) {
    forall i :: 0 <= i < |list| ==> list[i].Some?
  }

  predicate DistinctNames(list: seq<Entry>) {
    forall i, j :: 0 <= i < j < |list| && list[i].Some? && list[j].Some? ==> list[i].value.name != list[j].value.name
  }

  /** Entries of the copy that are not equal to the new one are skipped. */
  lemma {:induction false} RemoveEqualSkips(copy: seq<Entry>, result: seq<Entry>, i: nat, k: nat, entry: Entry)
    requires i <= k <= |copy|
    requires forall j :: i <= j < k ==> copy[j].Some? && (entry.None? || copy[j].value.name != entry.value.name)
    ensures RemoveEqual(copy, result, i, entry) == RemoveEqual(copy, result, k, entry)
    decreases k - i
  {
    if i < k {
      RemoveEqualSkips(copy, result, i + 1, k, entry);
    }
  }

  /** A null anywhere in the copy makes the loop throw. */
  lemma {:induction false} RemoveEqualNull(copy: seq<Entry>, result: seq<Entry>, i: nat, k: nat, entry: Entry)
    requires i <= k < |copy| && copy[k].None?
    ensures RemoveEqual(copy, result, i, entry).Err?
    decreases |copy| - i
  {
    if i < k && copy[i].Some? {
      if entry.Some? && copy[i].value.name == entry.value.name && i < |result| {
        RemoveEqualNull(copy, result[..i] + result[i + 1..], i + 1, k, entry);
      } else if !(entry.Some? && copy[i].value.name == entry.value.name) {
        RemoveEqualNull(copy, result, i + 1, k, entry);
      }
    }
  }

  /** Without on a list whose only entry with that name is at j drops exactly that entry. */
  lemma {:induction false} WithoutAt(list: seq<Entry>, name: string, j: nat)
    requires j < |list| && list[j].Some? && list[j].value.name == name
    requires forall i :: 0 <= i < |list| && i != j && list[i].Some? ==> list[i].value.name != name
    ensures Without(list, name) == list[..j] + list[j + 1..]
    decreases j
  {
    var tail := list[1..];
    if j == 0 {
      forall i | 0 <= i < |tail| && tail[i].Some? ensures tail[i].value.name != name {
        assert tail[i] == list[i + 1];
      }
      WithoutNone(tail, name);
    } else {
      forall i | 0 <= i < |tail| && i != j - 1 && tail[i].Some? ensures tail[i].value.name != name {
        assert tail[i] == list[i + 1];
      }
      WithoutAt(tail, name, j - 1);
      assert Without(list, name) == [list[0]] + Without(tail, name);
      ConsWithoutIndex(list, j);
    }
  }

  /** Putting the head back in front of the tail without its entry j - 1
      gives the list without its entry j. */
  lemma ConsWithoutIndex<T>(list: seq<T>, j: nat)
    requires 0 < j < |list|
    ensures [list[0]] + (list[1..][..j - 1] + list[1..][j..]) == list[..j] + list[j + 1..]
  {
    var tail := list[1..];
    assert tail[..j - 1] == list[1..j];
    assert tail[j..] == list[j + 1..];
    assert [list[0]] + list[1..j] == list[..j];
  }

  lemma {:induction false} WithoutNone(list: seq<Entry>, name: string)
    requires forall i :: 0 <= i < |list| && list[i].Some? ==> list[i].value.name != name
    ensures Without(list, name) == list
  {
    if list != [] {
      WithoutNone(list[1..], name);
    }
  }

  /** On a list with no nulls and distinct names, the re-append step removes
      the earlier entry of the same name, if any, moves no other entry and
      puts the new entry last. */
  lemma AddStageSpec(list: seq<Entry>, entry: Entry)
    requires NoNull(list) && DistinctNames(list)
    ensures AddStage(list, entry) == Ok((if entry.Some? then Without(list, entry.value.name) else list) + [entry])
  {
    if entry.Some? && exists j :: 0 <= j < |list| && list[j].value.name == entry.value.name {
      var j :| 0 <= j < |list| && list[j].value.name == entry.value.name;
      RemoveEqualSkips(list, list, 0, j, entry);
      RemoveEqualSkips(list, list[..j] + list[j + 1..], j + 1, |list|, entry);
      WithoutAt(list, entry.value.name, j);
    } else {
      RemoveEqualSkips(list, list, 0, |list|, entry);
      if entry.Some? {
        WithoutNone(list, entry.value.name);
      }
    }
  }

  /** A list with a null entry makes the next re-append step throw. */
  lemma AddStageAfterNull(list: seq<Entry>, entry: Entry)
    requires !NoNull(list)
    ensures AddStage(list, entry).Err?
  {
    var k :| 0 <= k < |list| && list[k].None?;
    RemoveEqualNull(list, list, 0, k, entry);
  }

  /** No two stages share a name, and a null entry can only be the last
      one: once a null is in the list, the next re-append step throws. */
  predicate WellFormed(list: seq<Entry>) {
    DistinctNames(list) && forall i :: 0 <= i < |list| - 1 ==> list[i].Some?
  }


  lemma AddStageWellFormed(list: seq<Entry>, entry: Entry)
    requires WellFormed(list)
    requires AddStage(list, entry).Ok?
    ensures WellFormed(AddStage(list, entry).value)
  {
    if !NoNull(list) {
      AddStageAfterNull(list, entry);
    } else {
      AddStageSpec(list, entry);
      var base := if entry.Some? then Without(list, entry.value.name) else list;
      var r := base + [entry];
      assert NoNull(base) by {
        forall i | 0 <= i < |base| ensures base[i].Some? {
          assert base[i] in base;
        }
      }
      assert DistinctNames(base) by {
        if entry.Some? {
          WithoutDistinct(list, entry.value.name);
        }
      }
      forall i, j | 0 <= i < j < |r| && r[i].Some? && r[j].Some? ensures r[i].value.name != r[j].value.name {
        if j == |r| - 1 {
          assert r[i] in base;
        }
      }
    }
  }

  /** A processor whose configuration class is not in the registry is not
      skipped: a null entry is appended, and the walk still goes on into
      the processor's input ports. */
  lemma UnloadableClassContinues(ctx: Context, st: Step, link: DataLink)
    requires link.receivesFrom.FromProcessor?
    requires var p := link.receivesFrom.processor;
             && p.name in ctx.bindings
             && ClassName(ctx.bindings[p.name].typePath).Ok?
             && ClassName(ctx.bindings[p.name].typePath).value !in ctx.registry
    requires NoNull(st.list) && DistinctNames(st.list)
    ensures LinkStep(ctx, st, link) == Ok(Step(st.list + [None], AddAll(st.next, InputReceivers(link.receivesFrom.processor))))
  {
    AddStageSpec(st.list, None);
  }

  lemma {:induction false} WithoutDistinct(list: seq<Entry>, name: string)
    requires DistinctNames(list)
    ensures DistinctNames(Without(list, name))
  {
    if list != [] {
      WithoutDistinct(list[1..], name);
      var rest := Without(list[1..], name);
      var r := Without(list, name);
      if !(list[0].Some? && list[0].value.name == name) {
        assert r == [list[0]] + rest;
        forall j | 0 < j < |r| && r[0].Some? && r[j].Some? ensures r[0].value.name != r[j].value.name {
          assert r[j] in rest;
          var k :| 0 <= k < |list[1..]| && list[1..][k] == r[j];
          assert list[k + 1] == r[j];
        }
      }
    }
  }

  lemma LinkStepWellFormed(ctx: Context, st: Step, link: DataLink)
    requires WellFormed(st.list)
    requires LinkStep(ctx, st, link).Ok?
    ensures WellFormed(LinkStep(ctx, st, link).value.list)
  {
    if link.receivesFrom.FromProcessor? {
      var entry := StageFor(ctx, link.receivesFrom.processor).value;
      AddStageWellFormed(st.list, entry);
    }
  }

  lemma {:induction false} LinkStepsWellFormed(ctx: Context, st: Step, links: seq<DataLink>)
    requires WellFormed(st.list)
    requires LinkSteps(ctx, st, links).Ok?
    ensures WellFormed(LinkSteps(ctx, st, links).value.list)
    decreases |links|
  {
    if links != [] {
      LinkStepWellFormed(ctx, st, links[0]);
      LinkStepsWellFormed(ctx, LinkStep(ctx, st, links[0]).value, links[1..]);
    }
  }

  lemma {:induction false} VisitWellFormed(ctx: Context, list: seq<Entry>, receiver: Receiver, fuel: nat)
    requires WellFormed(list)
    requires Visit(ctx, list, receiver, fuel).Ok?
    ensures WellFormed(Visit(ctx, list, receiver, fuel).value)
    decreases fuel, 0
  {
    var links := LinksTo(ctx.wf.links, receiver);
    VisitUnfold(ctx, list, receiver, fuel);
    LinkStepsWellFormed(ctx, Step(list, []), links);
    var st := LinkSteps(ctx, Step(list, []), links).value;
    VisitAllWellFormed(ctx, st.list, st.next, fuel - 1);
  }

  lemma {:induction false} VisitAllWellFormed(ctx: Context, list: seq<Entry>, receivers: seq<Receiver>, fuel: nat)
    requires WellFormed(list)
    requires VisitAll(ctx, list, receivers, fuel).Ok?
    ensures WellFormed(VisitAll(ctx, list, receivers, fuel).value)
    decreases fuel, 1, |receivers|
  {
    if receivers != [] {
      VisitWellFormed(ctx, list, receivers[0], fuel);
      VisitAllWellFormed(ctx, Visit(ctx, list, receivers[0], fuel).value, receivers[1..], fuel);
    }
  }

  /** A stage name appears at most once in the list createListFromWorkflow builds. */
  lemma CreateListDistinct(ctx: Context, fuel: nat)
    requires CreateList(ctx, fuel).Ok?
    ensures DistinctNames(CreateList(ctx, fuel).value)
  {
    VisitAllWellFormed(ctx, [], OutputReceivers(ctx.wf.outputPorts), fuel);
    var l := VisitAll(ctx, [], OutputReceivers(ctx.wf.outputPorts), fuel).value;
    var r := Reverse(l);
    forall i, j | 0 <= i < j < |r| && r[i].Some? && r[j].Some? ensures r[i].value.name != r[j].value.name {
      assert r[i] == l[|l| - 1 - i] && r[j] == l[|l| - 1 - j];
    }
  }

  /** The items getRuns appends for the input path: name, "_", port and "," per input port. */
  function PathItems(name: string, ports: seq<string>): string
    decreases |ports|
  {
    if ports == [] then [] else name + "_" + ports[0] + "," + PathItems(name, ports[1..])
  }

  /** The input path getRuns builds: an opening quote, the items, the last
      character deleted, a closing quote. */
  function InputPath(name: string, ports: seq<string>): string {
    var built := "\"" + PathItems(name, ports);
    built[..|built| - 1] + "\""
  }

  /** `<name>_<port>` for every input port. */
  function Qualified(name: string, ports: seq<string>): (r: seq<string>)
    ensures |r| == |ports|
    ensures forall i :: 0 <= i < |ports| ==> r[i] == name + "_" + ports[i]
    decreases |ports|
  {
    if ports == [] then [] else [name + "_" + ports[0]] + Qualified(name, ports[1..])
  }

  lemma {:induction false} PathItemsJoin(name: string, ports: seq<string>)
    requires ports != []
    ensures PathItems(name, ports) == Join(Qualified(name, ports), ',') + ","
    decreases |ports|
  {
    if |ports| > 1 {
      PathItemsJoin(name, ports[1..]);
      var q := Qualified(name, ports);
      assert q[1..] == Qualified(name, ports[1..]);
      assert Join(q, ',') == q[0] + [','] + Join(q[1..], ',');
    }
  }

  /** The input path is the comma-joined `<name>_<port>` list between double
      quotes; with no input port the deleted character is the opening quote,
      which leaves a lone double quote. */
  lemma InputPathShape(name: string, ports: seq<string>)
    ensures ports == [] ==> InputPath(name, ports) == "\""
    ensures ports != [] ==> InputPath(name, ports) == "\"" + Join(Qualified(name, ports), ',') + "\""
  {
    if ports != [] {
      PathItemsJoin(name, ports);
      var j := Join(Qualified(name, ports), ',');
      var built := "\"" + PathItems(name, ports);
      assert built == "\"" + j + ",";
      assert built[..|built| - 1] == "\"" + j;
    }
  }

  /** The output path: the forwarding target of output port 0, quoted. */
  function OutputPath(forward: map<string, string>, outputPorts: seq<string>): string
    requires outputPorts != []
  {
    "\"" + Target(forward, outputPorts[0]) + "\""
  }

  /** What one visit of the getRuns loop does to a list entry before getRun:
      a null entry or unset port lists throw, an empty output port list has
      no port 0; otherwise the paths and the Text formats are set. */
  function PrepareRun(e: Entry): (r: Result<StageValue>)
    ensures e.None? ==> r == Err(NullPointer)
    ensures r.Ok? ==> e.Some? && r.value.(inputPath := e.value.inputPath, outputPath := e.value.outputPath,
                                           inputFormat := e.value.inputFormat, outputFormat := e.value.outputFormat) == e.value
    ensures r.Ok? ==> r.value.inputFormat == Some("TextInputFormat") && r.value.outputFormat == Some("TextOutputFormat")
    ensures r.Ok? <==> e.Some? && e.value.inputPorts.Some? && e.value.outputPorts.Some? && e.value.outputPorts.value != []
    ensures r.Ok? ==> r.value.inputPath == Some(InputPath(e.value.name, e.value.inputPorts.value))
    ensures r.Ok? ==> r.value.outputPath == Some("\"" + Target(e.value.outputToNextInput, e.value.outputPorts.value[0]) + "\"")
  {
    if e.None? || e.value.inputPorts.None? || e.value.outputPorts.None? then Err(NullPointer)
    else if e.value.outputPorts.value == [] then Err(IndexOutOfBounds)
    else
      var st := e.value;
      Ok(st.(inputPath := Some(InputPath(st.name, st.inputPorts.value)),
             outputPath := Some(OutputPath(st.outputToNextInput, st.outputPorts.value)),
             inputFormat := Some("TextInputFormat"),
             outputFormat := Some("TextOutputFormat")))
  }

  /** A StringBuilder that already holds s, followed by what r appends. */
  function Prepend(s: string, r: Result<string>): (q: Result<string>)
    ensures r.Ok? <==> q.Ok?
    ensures r.Err? ==> q == r
    ensures r.Ok? ==> q.value == s + r.value
  {
    match r
    case Ok(v) => Ok(s + v)
    case Err(f) => Err(f)
  }

  const MapReduceTemplates: seq<string> := [IdentityMapTemplate, BeanshellReduceTemplate]
  const RunTemplates: seq<string> := [BeanshellRunTemplate]

  /** What getMapReduceClasses returns for a list: each stage's map and
      reduce classes followed by "\n", in list order. */
  function MapReduces(fs: map<string, string>, pathToTemplates: string, es: seq<Entry>): Result<string> {
    Joined(Fragments(fs, pathToTemplates, es))
  }

  /** Every stage's fragment, in list order. */
  function Fragments(fs: map<string, string>, pathToTemplates: string, es: seq<Entry>): (r: seq<Result<string>>)
    ensures |r| == |es|
    ensures forall i :: 0 <= i < |es| ==> r[i] == Fragment(fs, pathToTemplates, es[i])
  {
    seq(|es|, i requires 0 <= i < |es| => Fragment(fs, pathToTemplates, es[i]))
  }

  /** Fragments each followed by "\n"; the first one that failed ends it. */
  function Joined(frags: seq<Result<string>>): Result<string>
    decreases |frags|
  {
    if frags == [] then Ok([])
    else
      var frag :- frags[0];
      Prepend(frag + "\n", Joined(frags[1..]))
  }

  /** One visit of the getRuns loop on an entry: what getRun returns, and
      the entry afterwards. An entry that cannot be prepared is not changed. */
  function StageRun(fs: map<string, string>, pathToTemplates: string, e: Entry): (Result<string>, Entry) {
    match PrepareRun(e)
    case Err(f) => (Err(f), e)
    case Ok(st) => (Expand(fs, pathToTemplates, RunTemplates, st), Some(st))
  }

  /** The visit outcome for every entry of a list. */
  function StageRuns(fs: map<string, string>, pathToTemplates: string, es: seq<Entry>): (r: seq<(Result<string>, Entry)>)
    ensures |r| == |es|
    ensures forall i :: 0 <= i < |es| ==> r[i] == StageRun(fs, pathToTemplates, es[i])
    decreases |es|
  {
    if es == [] then [] else [StageRun(fs, pathToTemplates, es[0])] + StageRuns(fs, pathToTemplates, es[1..])
  }

  /** The StringBuilder of getRuns over given visit outcomes: the fragments
      up to the first failing visit, each followed by "\n". */
  function RunsOf(outs: seq<(Result<string>, Entry)>): Result<string>
    decreases |outs|
  {
    if outs == [] then Ok([])
    else
      var frag :- outs[0].0;
      Prepend(frag + "\n", RunsOf(outs[1..]))
  }

  /** The list over given visit outcomes: entries up to the first failing
      visit take their new value, that one included; the rest keep theirs. */
  function StateOf(es: seq<Entry>, outs: seq<(Result<string>, Entry)>): (r: seq<Entry>)
    requires |es| == |outs|
    ensures |r| == |es|
    decreases |es|
  {
    if es == [] then []
    else [outs[0].1] + if outs[0].0.Err? then es[1..] else StateOf(es[1..], outs[1..])
  }

  /** What getRuns returns for a list: each stage's run method, after its
      paths and formats are set, followed by "\n", in list order. */
  function Runs(fs: map<string, string>, pathToTemplates: string, es: seq<Entry>): Result<string> {
    RunsOf(StageRuns(fs, pathToTemplates, es))
  }

  /** The list entries after getRuns: the stages it reached are prepared;
      from the one where it stopped on, nothing has changed. */
  function RunsState(fs: map<string, string>, pathToTemplates: string, es: seq<Entry>): (r: seq<Entry>)
    ensures |r| == |es|
  {
    StateOf(es, StageRuns(fs, pathToTemplates, es))
  }

  /** With all four path and format fields set, no stage variable is null. */
  lemma {:induction false} SetFieldsSubstitute(current: string, spans: seq<string>, st: StageValue)
    requires forall i :: 0 <= i < |spans| ==> IsPlaceholder(spans[i])
    requires st.inputPath.Some? && st.outputPath.Some? && st.inputFormat.Some? && st.outputFormat.Some?
    ensures SubstituteAll(current, spans, st).Ok?
    decreases |spans|
  {
    if spans != [] {
      assert IsPlaceholder(spans[0]);
      SubstituteOneOk(current, spans[0], st);
      var next := SubstituteOne(current, spans[0], st);
      SetFieldsSubstitute(next.value, spans[1..], st);
    }
  }

  /** Once a stage is prepared, expanding any templates for it succeeds. */
  lemma PreparedExpands(fs: map<string, string>, pathToTemplates: string, names: seq<string>, e: Entry)
    requires PrepareRun(e).Ok?
    ensures Expand(fs, pathToTemplates, names, PrepareRun(e).value).Ok?
  {
    var text := TemplateText(fs, pathToTemplates, names);
    SetFieldsSubstitute(text, Spans(text), PrepareRun(e).value);
  }

  lemma {:induction false} RunsOfOkIff(outs: seq<(Result<string>, Entry)>)
    ensures RunsOf(outs).Ok? <==> forall i :: 0 <= i < |outs| ==> outs[i].0.Ok?
    decreases |outs|
  {
    if outs != [] {
      RunsOfOkIff(outs[1..]);
      assert forall i :: 1 <= i < |outs| ==> outs[1..][i - 1] == outs[i];
    }
  }

  /** A visit fails exactly when its entry cannot be prepared. */
  lemma StageRunOkIff(fs: map<string, string>, pathToTemplates: string, e: Entry)
    ensures StageRun(fs, pathToTemplates, e).0.Ok? <==> PrepareRun(e).Ok?
  {
    if PrepareRun(e).Ok? {
      PreparedExpands(fs, pathToTemplates, RunTemplates, e);
    }
  }

  /** getRuns succeeds exactly when every entry can be prepared: it is a
      stage whose port lists are set and which has an output port. */
  lemma RunsOkIff(fs: map<string, string>, pathToTemplates: string, es: seq<Entry>)
    ensures Runs(fs, pathToTemplates, es).Ok? <==> forall i :: 0 <= i < |es| ==> PrepareRun(es[i]).Ok?
  {
    var outs := StageRuns(fs, pathToTemplates, es);
    RunsOfOkIff(outs);
    forall i | 0 <= i < |es| ensures outs[i].0.Ok? <==> PrepareRun(es[i]).Ok? {
      StageRunOkIff(fs, pathToTemplates, es[i]);
    }
  }

  lemma {:induction false} StateOfAllOk(es: seq<Entry>, outs: seq<(Result<string>, Entry)>)
    requires |es| == |outs|
    requires forall i :: 0 <= i < |outs| ==> outs[i].0.Ok?
    ensures forall i :: 0 <= i < |es| ==> StateOf(es, outs)[i] == outs[i].1
    decreases |es|
  {
    if es != [] {
      assert outs[0].0.Ok?;
      StateOfAllOk(es[1..], outs[1..]);
      var r := StateOf(es, outs);
      assert r == [outs[0].1] + StateOf(es[1..], outs[1..]);
      forall i | 1 <= i < |es| ensures r[i] == outs[i].1 {
        assert outs[1..][i - 1] == outs[i];
      }
    }
  }

  /** When getRuns succeeds every entry is left prepared. */
  lemma RunsStatePrepared(fs: map<string, string>, pathToTemplates: string, es: seq<Entry>)
    requires Runs(fs, pathToTemplates, es).Ok?
    ensures forall i :: 0 <= i < |es| ==> PrepareRun(es[i]).Ok? && RunsState(fs, pathToTemplates, es)[i] == Some(PrepareRun(es[i]).value)
  {
    var outs := StageRuns(fs, pathToTemplates, es);
    RunsOfOkIff(outs);
    StateOfAllOk(es, outs);
    forall i | 0 <= i < |es| ensures PrepareRun(es[i]).Ok? {
      StageRunOkIff(fs, pathToTemplates, es[i]);
    }
  }

  /** What one stage contributes to getMapReduceClasses: its expanded
      map and reduce templates, or the exception a null entry raises. */
  function Fragment(fs: map<string, string>, pathToTemplates: string, e: Entry): (r: Result<string>)
    ensures e.None? ==> r == Err(NullPointer)
  {
    if e.None? then Err(NullPointer) else Expand(fs, pathToTemplates, MapReduceTemplates, e.value)
  }

  /** One turn of the getMapReduceClasses loop keeps its invariant, or
      the failing fragment is the whole result. */
  lemma JoinedStep(frags: seq<Result<string>>, i: nat, builder: string)
    requires i < |frags|
    requires Prepend(builder, Joined(frags[i..])) == Joined(frags)
    ensures frags[i].Err? ==> Joined(frags) == Err(frags[i].fault)
    ensures frags[i].Ok? ==> Prepend(builder + (frags[i].value + "\n"), Joined(frags[i + 1..])) == Joined(frags)
  {
    var t := frags[i..];
    assert t[0] == frags[i] && t[1..] == frags[i + 1..];
    if frags[i].Ok? {
      PrependPrepend(builder, frags[i].value + "\n", Joined(frags[i + 1..]));
    }
  }

  /** The fragments of two lists put together are those of the first, then those of the second. */
  lemma FragmentsAppend(fs: map<string, string>, pathToTemplates: string, a: seq<Entry>, b: seq<Entry>)
    ensures Fragments(fs, pathToTemplates, a + b) == Fragments(fs, pathToTemplates, a) + Fragments(fs, pathToTemplates, b)
  {
    var x, y, z := Fragments(fs, pathToTemplates, a + b), Fragments(fs, pathToTemplates, a), Fragments(fs, pathToTemplates, b);
    forall i | 0 <= i < |x| ensures x[i] == (y + z)[i] {
      if i < |a| {
        assert (a + b)[i] == a[i];
      } else {
        assert (a + b)[i] == b[i - |a|];
      }
    }
  }

  /** Joining two lists of fragments: a failure in the first ends it,
      otherwise the first's text comes before the second's. */
  lemma {:induction false} JoinedAppend(x: seq<Result<string>>, y: seq<Result<string>>)
    ensures Joined(x).Err? ==> Joined(x + y) == Joined(x)
    ensures Joined(x).Ok? ==> Joined(x + y) == Prepend(Joined(x).value, Joined(y))
    decreases |x|
  {
    if x == [] {
      assert x + y == y;
      PrependNothing(Joined(y));
    } else {
      var xy := x + y;
      assert xy[0] == x[0] && xy[1..] == x[1..] + y;
      JoinedAppend(x[1..], y);
      if x[0].Ok? {
        var rest := Joined(x[1..]);
        if rest.Ok? {
          PrependPrepend(x[0].value + "\n", rest.value, Joined(y));
        }
      }
    }
  }

  /** After the last fragment the builder holds the whole text. */
  lemma JoinedEnd(frags: seq<Result<string>>, builder: string)
    requires Prepend(builder, Joined(frags[|frags|..])) == Joined(frags)
    ensures Joined(frags) == Ok(builder)
  {
    assert frags[|frags|..] == [];
    assert builder + [] == builder;
  }

  lemma PrependNothing(r: Result<string>)
    ensures Prepend([], r) == r
  {
    if r.Ok? {
      assert [] + r.value == r.value;
    }
  }

  lemma PrependPrepend(s: string, t: string, r: Result<string>)
    ensures Prepend(s, Prepend(t, r)) == Prepend(s + t, r)
  {
    if r.Ok? {
      assert s + (t + r.value) == (s + t) + r.value;
    }
  }

  /** getMapReduceClasses over two lists put together: the fragments of the
      first list, then those of the second. */
  lemma MapReducesAppend(fs: map<string, string>, pathToTemplates: string, a: seq<Entry>, b: seq<Entry>)
    ensures MapReduces(fs, pathToTemplates, a).Err? ==> MapReduces(fs, pathToTemplates, a + b) == MapReduces(fs, pathToTemplates, a)
    ensures MapReduces(fs, pathToTemplates, a).Ok? ==>
              MapReduces(fs, pathToTemplates, a + b) == Prepend(MapReduces(fs, pathToTemplates, a).value, MapReduces(fs, pathToTemplates, b))
  {
    FragmentsAppend(fs, pathToTemplates, a, b);
    JoinedAppend(Fragments(fs, pathToTemplates, a), Fragments(fs, pathToTemplates, b));
  }

  /** What one visit of the getRuns loop contributes to the result and to the list. */
  lemma OutcomeAt(es: seq<Entry>, outs: seq<(Result<string>, Entry)>, i: nat, done: seq<Entry>)
    requires |es| == |outs| && i < |es|
    requires done + StateOf(es[i..], outs[i..]) == StateOf(es, outs)
    ensures RunsOf(outs[i..]) == if outs[i].0.Err? then Err(outs[i].0.fault) else Prepend(outs[i].0.value + "\n", RunsOf(outs[i + 1..]))
    ensures outs[i].0.Err? ==> done + ([outs[i].1] + es[i + 1..]) == StateOf(es, outs)
    ensures outs[i].0.Ok? ==> (done + [outs[i].1]) + StateOf(es[i + 1..], outs[i + 1..]) == StateOf(es, outs)
  {
    var t, u := es[i..], outs[i..];
    assert t[0] == es[i] && t[1..] == es[i + 1..];
    assert u[0] == outs[i] && u[1..] == outs[i + 1..];
    assert StateOf(t, u) == [outs[i].1] + if outs[i].0.Err? then es[i + 1..] else StateOf(es[i + 1..], outs[i + 1..]);
    if outs[i].0.Ok? {
      var rest := StateOf(es[i + 1..], outs[i + 1..]);
      assert (done + [outs[i].1]) + rest == done + ([outs[i].1] + rest);
    }
  }

  lemma PrependAll(builder: string, r: Result<string>)
    requires r == Ok([])
    ensures Prepend(builder, r) == Ok(builder)
  {
    assert builder + [] == builder;
  }

  /** The list entry a stage object stands for. */
  ghost function EntryOf(x: ActivityConfig?): (e: Entry)
    reads x
    ensures x == null <==> e.None?
  {
    if x == null then None else Some(x.Snap())
  }

  /** The values of the stage objects in a list. */
  ghost function Entries(l: seq<ActivityConfig?>): (r: seq<Entry>)
    reads set x: ActivityConfig | x in l
    ensures |r| == |l|
    ensures forall i :: 0 <= i < |l| ==> r[i] == EntryOf(l[i])
    decreases |l|
  {
    if l == [] then [] else [EntryOf(l[0])] + Entries(l[1..])
  }

  lemma EntriesRemoveAt(l: seq<ActivityConfig?>, i: nat)
    requires i < |l|
    ensures Entries(l[..i] + l[i + 1..]) == Entries(l)[..i] + Entries(l)[i + 1..]
  {
    EntriesConcat(l[..i], l[i + 1..]);
    EntriesTake(l, i);
    EntriesDrop(l, i + 1);
  }

  lemma EntriesConcat(a: seq<ActivityConfig?>, b: seq<ActivityConfig?>)
    ensures Entries(a + b) == Entries(a) + Entries(b)
  {
    var l, r := Entries(a + b), Entries(a) + Entries(b);
    forall k | 0 <= k < |a + b| ensures l[k] == r[k] {
      assert (a + b)[k] == if k < |a| then a[k] else b[k - |a|];
    }
  }

  lemma EntriesTake(l: seq<ActivityConfig?>, n: nat)
    requires n <= |l|
    ensures Entries(l[..n]) == Entries(l)[..n]
  {
    var x, y := Entries(l[..n]), Entries(l)[..n];
    forall k | 0 <= k < n ensures x[k] == y[k] {
      assert l[..n][k] == l[k];
    }
  }

  lemma EntriesDrop(l: seq<ActivityConfig?>, n: nat)
    requires n <= |l|
    ensures Entries(l[n..]) == Entries(l)[n..]
  {
    assert l == l[..n] + l[n..];
    EntriesConcat(l[..n], l[n..]);
    var a, b := Entries(l[..n]), Entries(l[n..]);
    assert (a + b)[|a|..] == b;
  }

  lemma EntriesAppend(l: seq<ActivityConfig?>, x: ActivityConfig?)
    ensures Entries(l + [x]) == Entries(l) + [EntryOf(x)]
  {
    var m := l + [x];
    assert forall k :: 0 <= k < |l| ==> m[k] == l[k];
  }

  lemma EntriesReverse(l: seq<ActivityConfig?>)
    ensures Entries(Reverse(l)) == Reverse(Entries(l))
  {
  }

  /** Replacing entry i of done + es[i..]. */
  lemma SpliceAt(before: seq<Entry>, done: seq<Entry>, es: seq<Entry>, i: nat, e: Entry)
    requires |done| == i && i < |es|
    requires before == done + es[i..]
    ensures before[i := e] == done + ([e] + es[i + 1..])
    ensures before[i := e] == (done + [e]) + es[i + 1..]
  {
    var t := done + ([e] + es[i + 1..]);
    forall k | 0 <= k < |before| ensures before[i := e][k] == t[k] {
    }
  }

  /** No stage object occurs twice in a list. */
  predicate DistinctObjects(l: seq<ActivityConfig?>) {
    forall i, j :: 0 <= i < j < |l| && l[i] != null ==> l[i] != l[j]
  }

  lemma DistinctFromNames(l: seq<ActivityConfig?>)
    requires DistinctNames(Entries(l))
    ensures DistinctObjects(l)
  {
    forall i, j | 0 <= i < j < |l| && l[i] != null ensures l[i] != l[j] {
      if l[j] != null {
        assert Entries(l)[i] == Some(l[i].Snap()) && Entries(l)[j] == Some(l[j].Snap());
      }
    }
  }

  class WorkflowManager {
    /** The bundle as the Scufl2 reader returned it. */
    const bundle: Bundle
    /** The stage classes reflection can load, by simple name. */
    const registry: map<string, StageKind>
    var activityList: seq<ActivityConfig?>

    ghost predicate Valid()
      reads this
    {
      DistinctObjects(activityList)
    }

    /** What the walk over the main workflow reads. */
    function Ctx(wf: Workflow): Context {
      Context(wf, bundle.bindings, registry)
    }

    /** A manager over an already read bundle, before the list is built. */
    constructor (bundle: Bundle, registry: map<string, StageKind>)
      ensures Valid() && this.bundle == bundle && this.registry == registry && activityList == []
    {
      this.bundle := bundle;
      this.registry := registry;
      activityList := [];
    }

    /** The walk's list is assigned to activityList only when it completes. */
    method Load(fuel: nat) returns (fault: Option<Fault>)
      modifies this`activityList
      ensures Valid() || (fault.Some? && activityList == old(activityList))
      ensures fault.None? <==> bundle.mainWorkflow.Some? && CreateList(Ctx(bundle.mainWorkflow.value), fuel).Ok?
      ensures fault.None? ==> Entries(activityList) == CreateList(Ctx(bundle.mainWorkflow.value), fuel).value
      ensures fault.Some? ==> activityList == old(activityList)
    {
      var r := CreateListFromWorkflow(fuel);
      if r.Err? {
        return Some(r.fault);
      }
      activityList := r.value;
      fault := None;
    }

    /** `createListFromWorkflow()`: the stages reached from every output
        port of the main workflow, in execution order. */
    method CreateListFromWorkflow(fuel: nat) returns (r: Result<seq<ActivityConfig?>>)
      ensures bundle.mainWorkflow.None? ==> r == Err(NullPointer)
      ensures bundle.mainWorkflow.Some? && r.Err? ==> CreateList(Ctx(bundle.mainWorkflow.value), fuel) == Err(r.fault)
      ensures bundle.mainWorkflow.Some? && r.Ok? ==> CreateList(Ctx(bundle.mainWorkflow.value), fuel) == Ok(Entries(r.value))
      ensures r.Ok? ==> DistinctObjects(r.value)
    {
      if bundle.mainWorkflow.None? {
        return Err(NullPointer);
      }
      var wf := bundle.mainWorkflow.value;
      var ports := wf.outputPorts;
      ghost var receivers := OutputReceivers(ports);
      ghost var goal := VisitAll(Ctx(wf), [], receivers, fuel);
      var result: seq<ActivityConfig?> := [];
      for i := 0 to |ports|
        invariant VisitAll(Ctx(wf), Entries(result), receivers[i..], fuel) == goal
      {
        assert receivers[i..][1..] == receivers[i + 1..];
        var next := GetPreviousProcessors(wf, result, ToWorkflowOutput(ports[i]), fuel, Entries(result));
        if next.Err? {
          return Err(next.fault);
        }
        result := next.value;
      }
      assert receivers[|ports|..] == [];
      EntriesReverse(result);
      result := Reverse(result);
      CreateListDistinct(Ctx(wf), fuel);
      DistinctFromNames(result);
      return Ok(result);
    }

    /** `getPreviousProcessors(result, receiver)` with `fuel` frames of stack
        left: the stages feeding the receiver are re-appended to the list,
        then the walk goes on from their input ports. */
    method GetPreviousProcessors(wf: Workflow, result: seq<ActivityConfig?>, receiver: Receiver, fuel: nat, ghost entries: seq<Entry>) returns (r: Result<seq<ActivityConfig?>>)
      requires entries == Entries(result)
      ensures r.Err? ==> Visit(Ctx(wf), entries, receiver, fuel) == Err(r.fault)
      ensures r.Ok? ==> Visit(Ctx(wf), entries, receiver, fuel) == Ok(Entries(r.value))
      decreases fuel, 0
    {
      var first, next := FollowLinks(wf, result, receiver, fuel, entries);
      if first.Err? {
        return Err(first.fault);
      }
      r := VisitReceivers(wf, first.value, next, fuel - 1, Entries(first.value));
    }

    /** The first half of one visit: the stack check, then the links into
        the receiver, followed by VisitLinks, and what is left of the visit after them. */
    method FollowLinks(wf: Workflow, result: seq<ActivityConfig?>, receiver: Receiver, fuel: nat, ghost entries: seq<Entry>)
      returns (first: Result<seq<ActivityConfig?>>, next: seq<Receiver>)
      requires entries == Entries(result)
      ensures first.Ok? ==> fuel > 0
      ensures first.Err? ==> Visit(Ctx(wf), entries, receiver, fuel) == Err(first.fault)
      ensures first.Ok? ==> Visit(Ctx(wf), entries, receiver, fuel) == VisitAll(Ctx(wf), Entries(first.value), next, fuel - 1)
    {
      if fuel == 0 {
        return Err(StackOverflow), [];
      }
      first, next := VisitLinks(wf, result, LinksTo(wf.links, receiver));
      assert Entries(result) == entries;
      if first.Err? {
        VisitUnfold(Ctx(wf), entries, receiver, fuel);
      } else {
        VisitThrough(Ctx(wf), entries, receiver, fuel, Entries(first.value), next);
      }
    }

    /** The loop of getPreviousProcessors over the receivers the links
        named, each visited with one frame less of stack. */
    method VisitReceivers(wf: Workflow, result: seq<ActivityConfig?>, next: seq<Receiver>, fuel: nat, ghost entries: seq<Entry>) returns (r: Result<seq<ActivityConfig?>>)
      requires entries == Entries(result)
      ensures r.Err? ==> VisitAll(Ctx(wf), entries, next, fuel) == Err(r.fault)
      ensures r.Ok? ==> VisitAll(Ctx(wf), entries, next, fuel) == Ok(Entries(r.value))
      decreases fuel, 1
    {
      var list := result;
      ghost var current := entries;
      for j := 0 to |next|
        invariant current == Entries(list)
        invariant VisitAll(Ctx(wf), current, next[j..], fuel) == VisitAll(Ctx(wf), entries, next, fuel)
      {
        VisitAllAt(Ctx(wf), current, next, j, fuel);
        var sub := GetPreviousProcessors(wf, list, next[j], fuel, current);
        if sub.Err? {
          return Err(sub.fault);
        }
        list := sub.value;
        current := Entries(list);
      }
      assert next[|next|..] == [];
      return Ok(list);
    }

    /** The loop over the links into one receiver: each link from a
        processor re-appends that processor's stage and records its input
        ports as receivers to visit next. */
    method VisitLinks(wf: Workflow, result: seq<ActivityConfig?>, links: seq<DataLink>) returns (r: Result<seq<ActivityConfig?>>, next: seq<Receiver>)
      ensures r.Err? ==> LinkSteps(Ctx(wf), Step(Entries(result), []), links) == Err(r.fault)
      ensures r.Ok? ==> LinkSteps(Ctx(wf), Step(Entries(result), []), links) == Ok(Step(Entries(r.value), next))
    {
      var list := result;
      next := [];
      ghost var goal := LinkSteps(Ctx(wf), Step(Entries(result), []), links);
      for k := 0 to |links|
        invariant LinkSteps(Ctx(wf), Step(Entries(list), next), links[k..]) == goal
      {
        assert links[k..][1..] == links[k + 1..];
        var link := links[k];
        if link.receivesFrom.FromWorkflowInput? {
          continue;
        }
        var p := link.receivesFrom.processor;
        var stage := MakeStage(wf, p);
        if stage.Err? {
          return Err(stage.fault), next;
        }
        var added := AddToResult(list, stage.value);
        if added.Err? {
          return Err(added.fault), next;
        }
        list := added.value;
        next := AddAll(next, InputReceivers(p));
      }
      assert links[|links|..] == [];
      return Ok(list), next;
    }

    /** The stage object a link visit builds for processor p, or null when
        reflection cannot load its class. */
    method MakeStage(wf: Workflow, p: Processor) returns (r: Result<ActivityConfig?>)
      ensures r.Err? ==> StageFor(Ctx(wf), p) == Err(r.fault)
      ensures r.Ok? ==> StageFor(Ctx(wf), p) == Ok(EntryOf(r.value))
      ensures r.Ok? && r.value != null ==> fresh(r.value)
    {
      if p.name !in bundle.bindings {
        return Err(MissingConfiguration);
      }
      var configuration := bundle.bindings[p.name];
      var className := ClassName(configuration.typePath);
      if className.Err? {
        return Err(className.fault);
      }
      if className.value !in registry {
        return Ok(null);
      }
      var stage := new ActivityConfig(configuration.name);
      stage.FetchScript(configuration.script);
      var outs := AddForwarding(stage, wf.links, p);
      var ins: seq<string> := [];
      for i := 0 to |p.inputPorts|
        invariant ins == p.inputPorts[..i]
        modifies {}
      {
        TakeNext(p.inputPorts, i);
        ins := ins + [p.inputPorts[i]];
      }
      assert p.inputPorts[..|p.inputPorts|] == p.inputPorts;
      stage.SetInputPorts(ins);
      stage.SetOutputPorts(outs);
      StageForLoaded(Ctx(wf), p, className.value);
      assert stage.Snap() == LoadedStage(Ctx(wf), p);
      return Ok(stage);
    }

    /** The loop over p's output ports: their names in order, and every
        link leaving one of them entered into the stage's forwarding map. */
    method AddForwarding(stage: ActivityConfig, links: seq<DataLink>, p: Processor) returns (outs: seq<string>)
      modifies stage`outputToNextInput
      ensures outs == p.outputPorts
      ensures stage.outputToNextInput == Forwarding(links, p, p.outputPorts, old(stage.outputToNextInput))
      ensures stage.Snap() == old(stage.Snap()).(outputToNextInput := stage.outputToNextInput)
    {
      var ports := p.outputPorts;
      outs := [];
      ghost var goal := Forwarding(links, p, ports, stage.outputToNextInput);
      for i := 0 to |ports|
        invariant outs == ports[..i]
        invariant Forwarding(links, p, ports[i..], stage.outputToNextInput) == goal
      {
        ForwardingStep(links, p, ports, i, stage.outputToNextInput);
        TakeNext(ports, i);
        var port := ports[i];
        outs := outs + [port];
        ForwardPort(stage, port, LinksFrom(links, FromProcessor(p, port)));
      }
      assert ports[|ports|..] == [] && ports[..|ports|] == ports;
    }

    /** The inner loop: addToPortMap for every link leaving one output port. */
    method ForwardPort(stage: ActivityConfig, port: string, out: seq<DataLink>)
      modifies stage`outputToNextInput
      ensures stage.outputToNextInput == ForwardLinks(old(stage.outputToNextInput), port, out)
    {
      ghost var goal := ForwardLinks(stage.outputToNextInput, port, out);
      for j := 0 to |out|
        invariant ForwardLinks(stage.outputToNextInput, port, out[j..]) == goal
      {
        assert out[j..][1..] == out[j + 1..];
        stage.AddToPortMap(port, TargetName(out[j].sendsTo));
      }
      assert out[|out|..] == [];
    }

    /** `getMapReduceClasses()`: every stage's map and reduce classes, each followed by "\n". */
    method GetMapReduceClasses(fs: map<string, string>, pathToTemplates: string) returns (r: Result<string>)
      ensures r == MapReduces(fs, pathToTemplates, Entries(activityList))
    {
      var l := activityList;
      ghost var es := Entries(l);
      ghost var frags := Fragments(fs, pathToTemplates, es);
      var builder: string := [];
      PrependNothing(Joined(frags));
      for i := 0 to |l|
        invariant Entries(l) == es
        invariant Prepend(builder, Joined(frags[i..])) == Joined(frags)
      {
        var frag := MapReduceOf(l[i], fs, pathToTemplates);
        assert frag == frags[i];
        JoinedStep(frags, i, builder);
        if frag.Err? {
          return Err(frag.fault);
        }
        builder := builder + (frag.value + "\n");
      }
      JoinedEnd(frags, builder);
      return Ok(builder);
    }

    /** One visit of the getMapReduceClasses loop: the stage's fragment,
        or the NullPointerException of a null entry. */
    method MapReduceOf(c: ActivityConfig?, fs: map<string, string>, pathToTemplates: string) returns (r: Result<string>)
      ensures r == Fragment(fs, pathToTemplates, EntryOf(c))
    {
      if c == null {
        return Err(NullPointer);
      }
      r := c.GetMapReduce(fs, pathToTemplates);
    }

    /** `getRuns()`: for every stage, set its paths and formats, then emit
        its run method followed by "\n". Stages after the one where it stops
        are left as they were. */
    method GetRuns(fs: map<string, string>, pathToTemplates: string) returns (r: Result<string>)
      requires Valid()
      modifies set x: ActivityConfig | x in activityList
      ensures r == Runs(fs, pathToTemplates, old(Entries(activityList)))
      ensures Entries(activityList) == RunsState(fs, pathToTemplates, old(Entries(activityList)))
    {
      r := RunAll(activityList, fs, pathToTemplates);
    }

    /** The loop of getRuns over the stage list l. */
    method RunAll(l: seq<ActivityConfig?>, fs: map<string, string>, pathToTemplates: string) returns (r: Result<string>)
      requires DistinctObjects(l)
      modifies set x: ActivityConfig | x in l
      ensures r == Runs(fs, pathToTemplates, old(Entries(l)))
      ensures Entries(l) == RunsState(fs, pathToTemplates, old(Entries(l)))
    {
      ghost var es := Entries(l);
      ghost var outs := StageRuns(fs, pathToTemplates, es);
      ghost var final := StateOf(es, outs);
      assert RunsState(fs, pathToTemplates, es) == final;
      assert Runs(fs, pathToTemplates, es) == RunsOf(outs);
      ghost var done: seq<Entry> := [];
      var builder: string := [];
      PrependNothing(RunsOf(outs));
      for i := 0 to |l|
        invariant |done| == i
        invariant Prepend(builder, RunsOf(outs[i..])) == RunsOf(outs)
        invariant done + StateOf(es[i..], outs[i..]) == final
        invariant Entries(l) == done + es[i..]
      {
        OutcomeAt(es, outs, i, done);
        ghost var before := Entries(l);
        var run := RunAt(l, i, fs, pathToTemplates);
        ghost var e := Entries(l)[i];
        assert (run, e) == outs[i];
        SpliceAt(before, done, es, i, e);
        if run.Err? {
          return Err(run.fault);
        }
        PrependPrepend(builder, run.value + "\n", RunsOf(outs[i + 1..]));
        builder := builder + (run.value + "\n");
        done := done + [e];
      }
      assert StateOf(es[|l|..], outs[|l|..]) == [];
      assert outs[|l|..] == [];
      assert Entries(l) == final by {
        assert done + [] == done && es[|l|..] == [];
      }
      PrependAll(builder, RunsOf(outs[|l|..]));
      return Ok(builder);
    }

    /** One visit of the getRuns loop on position i of the list: a null
        entry faults, any other stage is prepared and rendered; no other
        stage of the list changes. */
    method RunAt(l: seq<ActivityConfig?>, i: nat, fs: map<string, string>, pathToTemplates: string) returns (run: Result<string>)
      requires i < |l| && DistinctObjects(l)
      modifies if l[i] == null then {} else {l[i]}
      ensures (run, Entries(l)[i]) == StageRun(fs, pathToTemplates, old(Entries(l))[i])
      ensures Entries(l) == old(Entries(l))[i := Entries(l)[i]]
    {
      var c := l[i];
      if c == null {
        run := Err(NullPointer);
      } else {
        run := RunStage(c, fs, pathToTemplates);
        forall k | 0 <= k < |l| && k != i ensures Entries(l)[k] == old(Entries(l))[k] {
          if l[k] != null {
            assert l[k] != c;
          }
        }
      }
      assert Entries(l) == old(Entries(l))[i := Entries(l)[i]];
    }

    /** One visit of the getRuns loop on a stage object: prepare it, then getRun. */
    method RunStage(c: ActivityConfig, fs: map<string, string>, pathToTemplates: string) returns (r: Result<string>)
      modifies c
      ensures (r, EntryOf(c)) == StageRun(fs, pathToTemplates, Some(old(c.Snap())))
    {
      var prepared := PrepareForRun(c);
      if prepared.Err? {
        return Err(prepared.fault);
      }
      r := c.GetRun(fs, pathToTemplates);
    }

    /** The path building and the four setters of one getRuns visit. */
    method PrepareForRun(c: ActivityConfig) returns (r: Result<()>)
      modifies c
      ensures PrepareRun(Some(old(c.Snap()))).Err? ==> r == Err(PrepareRun(Some(old(c.Snap()))).fault) && c.Snap() == old(c.Snap())
      ensures PrepareRun(Some(old(c.Snap()))).Ok? ==> r.Ok? && c.Snap() == PrepareRun(Some(old(c.Snap()))).value
    {
      if c.inputPorts.None? {
        return Err(NullPointer);
      }
      var ports := c.inputPorts.value;
      var pathBuilder := "\"";
      for k := 0 to |ports|
        invariant pathBuilder + PathItems(c.name, ports[k..]) == "\"" + PathItems(c.name, ports)
      {
        assert ports[k..][1..] == ports[k + 1..];
        pathBuilder := pathBuilder + (c.name + "_" + ports[k] + ",");
      }
      assert ports[|ports|..] == [];
      assert pathBuilder == "\"" + PathItems(c.name, ports);
      pathBuilder := pathBuilder[..|pathBuilder| - 1];
      pathBuilder := pathBuilder + "\"";
      var inputPath := pathBuilder;
      if c.outputPorts.None? {
        return Err(NullPointer);
      }
      if c.outputPorts.value == [] {
        return Err(IndexOutOfBounds);
      }
      var intermediatePath := "\"" + Target(c.outputToNextInput, c.outputPorts.value[0]) + "\"";
      c.SetInputPath(inputPath);
      c.SetOutputPath(intermediatePath);
      c.SetInputFormat("TextInputFormat");
      c.SetOutputFormat("TextOutputFormat");
      return Ok(());
    }

    /** The copy loop and `result.add`: an entry equal to the stage is
        removed at its index, then the stage is appended. */
    method AddToResult(result: seq<ActivityConfig?>, stage: ActivityConfig?) returns (r: Result<seq<ActivityConfig?>>)
      ensures r.Err? ==> AddStage(Entries(result), EntryOf(stage)) == Err(r.fault)
      ensures r.Ok? ==> AddStage(Entries(result), EntryOf(stage)) == Ok(Entries(r.value))
    {
      var copy := result;
      var res := result;
      ghost var goal := RemoveEqual(Entries(copy), Entries(copy), 0, EntryOf(stage));
      for i := 0 to |copy|
        invariant RemoveEqual(Entries(copy), Entries(res), i, EntryOf(stage)) == goal
      {
        if copy[i] == null {
          return Err(NullPointer);
        }
        if copy[i].Equals(stage) {
          if i >= |res| {
            return Err(IndexOutOfBounds);
          }
          EntriesRemoveAt(res, i);
          res := res[..i] + res[i + 1..];
        }
      }
      EntriesAppend(res, stage);
      return Ok(res + [stage]);
    }
  }
}
