/** Rewriting a rendered config for a project: the producer's output, the consumer's input
    and the consumer-side filter. */
module ProjectRewrite {
  import opened Prelude
  import opened Json

  datatype IncomingRoute = IncomingRoute(subject: string, durable: string, when: string)

  datatype IOPlan = IOPlan(natsUrl: string, outgoing: seq<string>, incoming: seq<IncomingRoute>)

  datatype Rewritten = Rewritten(doc: Json) | NotAMapping

  function NatsOutput(url: string, subject: string): Json {
    Obj(map["nats_jetstream" := Obj(map[
      "urls" := Arr([Str(url)]),
      "subject" := Str(subject),
      "metadata" := Obj(map["include_patterns" := Arr([Str(".*")])])])])
  }

  function NatsOutputs(url: string, subjects: seq<string>): seq<Json> {
    seq(|subjects|, i requires 0 <= i < |subjects| => NatsOutput(url, subjects[i]))
  }

  function BuildOutput(url: string, subjects: seq<string>): Json {
    if |subjects| == 1 then NatsOutput(url, subjects[0])
    else Obj(map["broker" := Obj(map["pattern" := Str("fan_out"), "outputs" := Arr(NatsOutputs(url, subjects))])])
  }

  function NatsInput(url: string, i: IncomingRoute): Json {
    Obj(map["nats_jetstream" := Obj(map[
      "urls" := Arr([Str(url)]),
      "subject" := Str(i.subject),
      "durable" := Str(i.durable),
      "queue" := Str("")])])
  }

  function NatsInputs(url: string, incoming: seq<IncomingRoute>): seq<Json> {
    seq(|incoming|, i requires 0 <= i < |incoming| => NatsInput(url, incoming[i]))
  }

  function BuildInput(url: string, incoming: seq<IncomingRoute>): Json {
    if |incoming| == 1 then NatsInput(url, incoming[0])
    else Obj(map["broker" := Obj(map["inputs" := Arr(NatsInputs(url, incoming))])])
  }

  function FilterMapping(when: string): string { "root = if !(" + when + ") { deleted() } else { this }" }

  /** The subjects of project routes contain no character that needs escaping. */
  function Quote(s: string): string { "\"" + s + "\"" }

  function SubjectCheck(subject: string): string { "@nats_subject == " + Quote(subject) }

  function Case(i: IncomingRoute): Json {
    Obj(map["check" := Str(SubjectCheck(i.subject)),
            "processors" := Arr([Obj(map["mapping" := Str(FilterMapping(i.when))])])])
  }

  /** One switch case per filtered route, in declaration order. */
  function Cases(incoming: seq<IncomingRoute>): seq<Json> {
    if incoming == [] then []
    else
      var rest := Cases(incoming[..|incoming| - 1]);
      var i := incoming[|incoming| - 1];
      if i.when == "" then rest else rest + [Case(i)]
  }

  function PredicateProcessor(incoming: seq<IncomingRoute>): Option<Json> {
    if Cases(incoming) == [] then None
    else if |incoming| == 1 then Some(Obj(map["mapping" := Str(FilterMapping(incoming[0].when))]))
    else Some(Obj(map["switch" := Arr(Cases(incoming))]))
  }

  method BuildPredicateProcessor(incoming: seq<IncomingRoute>) returns (proc: Option<Json>)
    ensures proc == PredicateProcessor(incoming)
  {
    var withWhen := 0;
    for i := 0 to |incoming|
      invariant withWhen == |Cases(incoming[..i])|
    {
      assert incoming[..i + 1][..i] == incoming[..i];
      if incoming[i].when != "" {
        withWhen := withWhen + 1;
      }
    }
    assert incoming[..|incoming|] == incoming;
    if withWhen == 0 { return None; }
    if |incoming| == 1 { return Some(Obj(map["mapping" := Str(FilterMapping(incoming[0].when))])); }
    var cases := [];
    for i := 0 to |incoming|
      invariant cases == Cases(incoming[..i])
    {
      assert incoming[..i + 1][..i] == incoming[..i];
      if incoming[i].when == "" { continue; }
      cases := cases + [Case(incoming[i])];
    }
    proc := Some(Obj(map["switch" := Arr(cases)]));
  }

  function PipelineFields(doc: map<string, Json>): map<string, Json> {
    if "pipeline" in doc && doc["pipeline"].Obj? then doc["pipeline"].fields else map[]
  }

  function ProcessorsIn(fields: map<string, Json>): seq<Json> {
    if "processors" in fields && fields["processors"].Arr? then fields["processors"].items else []
  }

  /** The processors of a config document, in order. */
  function Processors(doc: map<string, Json>): seq<Json> { ProcessorsIn(PipelineFields(doc)) }

  function Prepend(doc: map<string, Json>, proc: Json): map<string, Json> {
    doc["pipeline" := Obj(PipelineFields(doc)["processors" := Arr([proc] + Processors(doc))])]
  }

  function RewriteFields(doc: map<string, Json>, plan: IOPlan): map<string, Json> {
    var d1 := if |plan.outgoing| > 0 then doc["output" := BuildOutput(plan.natsUrl, plan.outgoing)] else doc;
    if |plan.incoming| == 0 then d1
    else
      var d2 := d1["input" := BuildInput(plan.natsUrl, plan.incoming)];
      match PredicateProcessor(plan.incoming)
      case None => d2
      case Some(proc) => Prepend(d2, proc)
  }

  function Rewrite(doc: Json, plan: IOPlan): Rewritten {
    if |plan.outgoing| == 0 && |plan.incoming| == 0 then Rewritten(doc)
    else if !doc.Obj? then NotAMapping
    else Rewritten(Obj(RewriteFields(doc.fields, plan)))
  }

  /** The source's own form: the document's map is changed entry by entry. */
  method ApplyProjectIO(doc: Json, plan: IOPlan) returns (r: Rewritten)
    ensures r == Rewrite(doc, plan)
    ensures |plan.outgoing| == 0 && |plan.incoming| == 0 ==> r == Rewritten(doc)
    ensures r.NotAMapping? <==> |plan.outgoing| + |plan.incoming| > 0 && !doc.Obj?
    ensures doc.Obj? ==> r == Rewritten(Obj(RewriteFields(doc.fields, plan)))
  {
    if |plan.outgoing| == 0 && |plan.incoming| == 0 { return Rewritten(doc); }
    if !doc.Obj? { return NotAMapping; }
    var d := doc.fields;
    if |plan.outgoing| > 0 {
      d := d["output" := BuildOutput(plan.natsUrl, plan.outgoing)];
    }
    if |plan.incoming| > 0 {
      d := d["input" := BuildInput(plan.natsUrl, plan.incoming)];
      var proc := BuildPredicateProcessor(plan.incoming);
      if proc.Some? {
        var pipe := map[];
        if "pipeline" in d && d["pipeline"].Obj? {
          pipe := d["pipeline"].fields;
        }
        var existing := [];
        if "processors" in pipe && pipe["processors"].Arr? {
          existing := pipe["processors"].items;
        }
        pipe := pipe["processors" := Arr([proc.value] + existing)];
        d := d["pipeline" := Obj(pipe)];
      }
    }
    r := Rewritten(Obj(d));
  }

  /** What the rewrite leaves alone: every other entry of the document, and the user's own
      processors, which follow whatever was inserted. */
  lemma RewriteFrame(doc: map<string, Json>, plan: IOPlan)
    ensures
      var d := RewriteFields(doc, plan);
      && (forall k :: k !in {"output", "input", "pipeline"} ==> (k in d <==> k in doc) && (k in doc ==> d[k] == doc[k]))
      && (|plan.outgoing| == 0 ==>
            ("output" in d <==> "output" in doc) && ("output" in doc ==> d["output"] == doc["output"]))
      && (|plan.incoming| == 0 ==>
            ("input" in d <==> "input" in doc) && ("input" in doc ==> d["input"] == doc["input"]))
      && (|plan.outgoing| > 0 ==> "output" in d && d["output"] == BuildOutput(plan.natsUrl, plan.outgoing))
      && (|plan.incoming| > 0 ==> "input" in d && d["input"] == BuildInput(plan.natsUrl, plan.incoming))
      && Processors(d) == (if |plan.incoming| == 0 || PredicateProcessor(plan.incoming).None? then []
                           else [PredicateProcessor(plan.incoming).value]) + Processors(doc)
  {
    hide BuildOutput, BuildInput, PredicateProcessor;
    assert "output" != "input" && "output" != "pipeline" && "input" != "pipeline";
  }
}
