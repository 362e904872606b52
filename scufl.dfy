/** The part of a Scufl2 workflow bundle the generators read, as plain
    values: the main workflow with its ports, processors and data links, the
    configuration bound to each processor in the main profile, and the
    profile's activities and configurations in the order `first()` sees
    them. A port knows the processor it belongs to, as a Scufl2 port knows
    its parent. */
module Scufl {
  import opened Wrappers

  datatype Processor = Processor(name: string, inputPorts: seq<string>, outputPorts: seq<string>)

  /** The sending end of a link: a workflow input port or a processor output port. */
  datatype Sender = FromWorkflowInput(name: string) | FromProcessor(processor: Processor, port: string)

  /** The receiving end of a link: a workflow output port or a processor input port. */
  datatype Receiver = ToWorkflowOutput(name: string) | ToProcessor(processor: Processor, port: string)

  datatype DataLink = DataLink(receivesFrom: Sender, sendsTo: Receiver)

  datatype Workflow = Workflow(
    inputPorts: seq<string>,
    outputPorts: seq<string>,
    processors: seq<Processor>,
    links: seq<DataLink>)

  /** An activity configuration: its name, its configurable type (the full
      URI and the URI's path component) and its script property, absent when
      the property cannot be read. */
  datatype Configuration = Configuration(name: string, typeUri: string, typePath: string, script: Option<string>)

  datatype Activity = Activity(typeUri: string, inputPorts: seq<string>, outputPorts: seq<string>)

  datatype Bundle = Bundle(
    workflows: seq<Workflow>,
    mainWorkflow: Option<Workflow>,
    activities: seq<Activity>,
    configurations: seq<Configuration>,
    bindings: map<string, Configuration>)

  /** `Scufl2Tools.datalinksTo(port)`: the links that end at the port, in link order. */
  function LinksTo(links: seq<DataLink>, to: Receiver): (r: seq<DataLink>)
    ensures forall l :: l in r <==> l in links && l.sendsTo == to
    ensures |r| <= |links|
  {
    if links == [] then []
    else (if links[0].sendsTo == to then [links[0]] else []) + LinksTo(links[1..], to)
  }

  /** `Scufl2Tools.datalinksFrom(port)`: the links that start at the port, in link order. */
  function LinksFrom(links: seq<DataLink>, from: Sender): (r: seq<DataLink>)
    ensures forall l :: l in r <==> l in links && l.receivesFrom == from
    ensures |r| <= |links|
  {
    if links == [] then []
    else (if links[0].receivesFrom == from then [links[0]] else []) + LinksFrom(links[1..], from)
  }

  /** The input ports of a processor, as the receivers the walk visits next. */
  function InputReceivers(p: Processor): (r: seq<Receiver>)
    ensures |r| == |p.inputPorts|
    ensures forall i :: 0 <= i < |r| ==> r[i] == ToProcessor(p, p.inputPorts[i])
  {
    InputReceiversOf(p, p.inputPorts)
  }

  function InputReceiversOf(p: Processor, ports: seq<string>): (r: seq<Receiver>)
    ensures |r| == |ports|
    ensures forall i :: 0 <= i < |r| ==> r[i] == ToProcessor(p, ports[i])
  {
    if ports == [] then [] else [ToProcessor(p, ports[0])] + InputReceiversOf(p, ports[1..])
  }
}
