/** What rewritten configs do at run time, and the proof that they deliver exactly what the
    routing table declares. An input stamps the subject it reads from; a switch runs its first
    matching case and lets unmatched messages through; a fan-out broker sends every message to all
    its outputs; inputs that share a durable consumer or a queue share its messages. */
module Delivery {
  import opened Prelude
  import opened CycleSearch
  import opened ProjectRoutes
  import opened Json
  import opened ProjectRewrite

  // ---------- run-time meaning of a config document

  function StrAt(j: Json, key: string): Option<string> {
    if j.Obj? && key in j.fields && j.fields[key].Str? then Some(j.fields[key].s) else None
  }

  function ArrAt(j: Json, key: string): Option<seq<Json>> {
    if j.Obj? && key in j.fields && j.fields[key].Arr? then Some(j.fields[key].items) else None
  }

  function StrOr(j: Json, key: string, otherwise: string): string {
    if StrAt(j, key).Some? then StrAt(j, key).value else otherwise
  }

  /** Whether a NATS component talks to the server at `url`. */
  predicate ConnectsTo(j: Json, url: string) { ArrAt(j, "urls").Some? && Str(url) in ArrAt(j, "urls").value }

  /** The broker's pattern; fan_out unless another one is set. */
  predicate FansOut(broker: Json) { StrOr(broker, "pattern", "fan_out") == "fan_out" }

  /** The subjects of the server at `url` an output publishes to: every message if `always`, otherwise
      any of them (brokers with another pattern send a message to some of their outputs only). */
  function OutputSubjects(o: Json, url: string, always: bool): seq<string>
    decreases o, 1
  {
    if !o.Obj? then []
    else if "nats_jetstream" in o.fields then
      var n := o.fields["nats_jetstream"];
      if ConnectsTo(n, url) && StrAt(n, "subject").Some? then [StrAt(n, "subject").value] else []
    else if "broker" in o.fields && ArrAt(o.fields["broker"], "outputs").Some? &&
        (always ==> FansOut(o.fields["broker"])) then
      SubjectsOfAll(o.fields["broker"].fields["outputs"].items, url, always)
    else []
  }

  function SubjectsOfAll(outs: seq<Json>, url: string, always: bool): seq<string>
    decreases outs, 0
  {
    if outs == [] then [] else OutputSubjects(outs[0], url, always) + SubjectsOfAll(outs[1..], url, always)
  }

  datatype Binding = Binding(subject: string, durable: string, queue: string)

  /** The consumers on the server at `url` an input reads from. */
  function InputBindings(i: Json, url: string): seq<Binding>
    decreases i, 1
  {
    if !i.Obj? then []
    else if "nats_jetstream" in i.fields then
      var n := i.fields["nats_jetstream"];
      if ConnectsTo(n, url) && StrAt(n, "subject").Some?
      then [Binding(StrAt(n, "subject").value, StrOr(n, "durable", ""), StrOr(n, "queue", ""))]
      else []
    else if "broker" in i.fields && ArrAt(i.fields["broker"], "inputs").Some? then
      BindingsOfAll(i.fields["broker"].fields["inputs"].items, url)
    else []
  }

  function BindingsOfAll(ins: seq<Json>, url: string): seq<Binding>
    decreases ins, 0
  {
    if ins == [] then [] else InputBindings(ins[0], url) + BindingsOfAll(ins[1..], url)
  }

  /** Who shares the messages of a binding: the members of a queue, the holders of a durable
      consumer, or the pipeline alone. */
  datatype Group = Queue(name: string) | Durable(name: string) | Alone(pipeline: string)

  function GroupOf(b: Binding, pipeline: string): Group {
    if b.queue != "" then Queue(b.queue) else if b.durable != "" then Durable(b.durable) else Alone(pipeline)
  }

  /** The mapping text that drops a message unless `test` holds of it. */
  function DropUnless(test: string): string { "root = if !(" + test + ") { deleted() } else { this }" }

  /** The check text that is true of exactly the messages read from `subject`. */
  function ReadFrom(subject: string): string { "@nats_subject == \"" + subject + "\"" }

  /** A filter mapping drops the message unless its predicate holds; other mappings are the
      user's business. */
  ghost predicate MappingPasses(proc: Json, holds: string -> bool) {
    forall w :: StrAt(proc, "mapping") == Some(DropUnless(w)) ==> holds(w)
  }

  ghost predicate CaseMatches(c: Json, subject: string) { StrAt(c, "check") == Some(ReadFrom(subject)) }

  ghost predicate CasePasses(c: Json, holds: string -> bool) {
    ArrAt(c, "processors").Some? ==> forall p :: p in ArrAt(c, "processors").value ==> MappingPasses(p, holds)
  }

  ghost predicate FirstMatch(cases: seq<Json>, subject: string, k: int) {
    0 <= k < |cases| && CaseMatches(cases[k], subject) && forall j :: 0 <= j < k ==> !CaseMatches(cases[j], subject)
  }

  ghost predicate Passes(proc: Json, subject: string, holds: string -> bool) {
    && MappingPasses(proc, holds)
    && (ArrAt(proc, "switch").Some? ==>
          forall k :: FirstMatch(ArrAt(proc, "switch").value, subject, k) ==>
              CasePasses(ArrAt(proc, "switch").value[k], holds))
  }

  type Doc = map<string, Json>

  /** The subjects every message is published to. */
  function Published(doc: Doc, url: string): seq<string> {
    if "output" in doc then OutputSubjects(doc["output"], url, true) else []
  }

  /** The subjects some message may be published to. */
  function MayPublish(doc: Doc, url: string): seq<string> {
    if "output" in doc then OutputSubjects(doc["output"], url, false) else []
  }

  lemma {:induction false} AlwaysMeansSometimes(o: Json, url: string, subject: string)
    requires subject in OutputSubjects(o, url, true)
    ensures subject in OutputSubjects(o, url, false)
    decreases o, 1
  {
    if "nats_jetstream" !in o.fields {
      AllAlwaysSometimes(o.fields["broker"].fields["outputs"].items, url, subject);
    }
  }

  lemma {:induction false} AllAlwaysSometimes(outs: seq<Json>, url: string, subject: string)
    requires subject in SubjectsOfAll(outs, url, true)
    ensures subject in SubjectsOfAll(outs, url, false)
    decreases outs, 0
  {
    if subject in OutputSubjects(outs[0], url, true) {
      AlwaysMeansSometimes(outs[0], url, subject);
    } else {
      AllAlwaysSometimes(outs[1..], url, subject);
    }
  }

  /** The groups on a subject that a pipeline belongs to. */
  function Groups(doc: Doc, url: string, subject: string, pipeline: string): set<Group> {
    if "input" in doc
    then set b | b in InputBindings(doc["input"], url) && b.subject == subject :: GroupOf(b, pipeline)
    else {}
  }

  /** Every group gets one copy of a message and hands it to one of its holders. */
  ghost predicate HandsOut(docs: map<string, Doc>, url: string, subject: string, handed: Group -> string) {
    forall m, g :: m in docs && g in Groups(docs[m], url, subject, m) ==>
      handed(g) in docs && g in Groups(docs[handed(g)], url, subject, handed(g))
  }

  /** The processors a message meets before the user's own. */
  function Inserted(doc: Doc, user: Doc): seq<Json> {
    var n := |Processors(doc)| - |Processors(user)|;
    if n >= 0 then Processors(doc)[..n] else []
  }

  ghost predicate Reaches(doc: Doc, user: Doc, subject: string, holds: string -> bool) {
    forall k :: 0 <= k < |Inserted(doc, user)| ==> Passes(Inserted(doc, user)[k], subject, holds)
  }

  /** How many copies of one message published by `p` on `subject` reach the user's part of `q`,
      when all of `docs` run and the groups hand their messages out as `handed` says. */
  ghost function Deliveries(docs: map<string, Doc>, users: map<string, Doc>, url: string, p: string, q: string,
                            subject: string,
                            handed: Group -> string, holds: string -> bool): nat
    requires p in docs && q in docs && q in users
  {
    if Reaches(docs[q], users[q], subject, holds)
    then Times(multiset(Published(docs[p], url))[subject], |set g | g in Groups(docs[q], url, subject, q) &&
        handed(g) == q|)
    else 0
  }

  function Times(a: nat, b: nat): nat { a * b }

  /** The messages can be handed out: any holder of each group will do. */
  lemma SomeHand(docs: map<string, Doc>, url: string, subject: string)
    ensures exists handed :: HandsOut(docs, url, subject, handed)
  {
    hide Groups;
    var handed: Group -> string := (g: Group) =>
      if exists m :: m in docs && g in Groups(docs[m], url, subject, m)
      then var m :| m in docs && g in Groups(docs[m], url, subject, m); m
      else "";
    assert HandsOut(docs, url, subject, handed);
  }

  // ---------- the generated parts mean what the plan says

  lemma {:induction false} OutputsPublish(url: string, subjects: seq<string>)
    ensures SubjectsOfAll(NatsOutputs(url, subjects), url, true) == subjects
  {
    if subjects != [] {
      OutputsPublish(url, subjects[1..]);
      assert NatsOutputs(url, subjects)[1..] == NatsOutputs(url, subjects[1..]);
      OutputPublishes(url, subjects[0]);
      assert subjects == [subjects[0]] + subjects[1..];
    }
  }

  lemma OutputPublishes(url: string, subject: string)
    ensures OutputSubjects(NatsOutput(url, subject), url, true) == [subject]
  {
  }

  lemma BuildOutputPublishes(url: string, subjects: seq<string>)
    ensures OutputSubjects(BuildOutput(url, subjects), url, true) == subjects
  {
    if |subjects| == 1 {
      OutputPublishes(url, subjects[0]);
    } else {
      OutputsPublish(url, subjects);
      assert "nats_jetstream" != "broker";
      assert "pattern" != "outputs";
    }
  }

  /** Every output forwards all metadata of a message. */
  predicate ForwardsMetadata(o: Json)
    decreases o, 1
  {
    && o.Obj?
    && if "nats_jetstream" in o.fields then
         var n := o.fields["nats_jetstream"];
         && n.Obj? && "metadata" in n.fields
         && ArrAt(n.fields["metadata"], "include_patterns") == Some([Str(".*")])
       else "broker" in o.fields && ArrAt(o.fields["broker"], "outputs").Some?
            && AllForwardMetadata(o.fields["broker"].fields["outputs"].items)
  }

  predicate AllForwardMetadata(outs: seq<Json>)
    decreases outs, 0
  {
    forall i :: 0 <= i < |outs| ==> ForwardsMetadata(outs[i])
  }

  lemma OutputForwards(url: string, subject: string)
    ensures ForwardsMetadata(NatsOutput(url, subject))
  {
    assert "metadata" != "subject" && "metadata" != "urls";
  }

  lemma BuildOutputForwards(url: string, subjects: seq<string>)
    ensures ForwardsMetadata(BuildOutput(url, subjects))
  {
    hide NatsOutput;
    if |subjects| == 1 {
      OutputForwards(url, subjects[0]);
    } else {
      forall i | 0 <= i < |subjects| ensures ForwardsMetadata(NatsOutputs(url, subjects)[i]) {
        OutputForwards(url, subjects[i]);
      }
      assert "nats_jetstream" != "broker" && "pattern" != "outputs";
    }
  }

  function BindingOf(i: IncomingRoute): Binding { Binding(i.subject, i.durable, "") }

  function BindingsOf(incoming: seq<IncomingRoute>): seq<Binding> {
    seq(|incoming|, i requires 0 <= i < |incoming| => BindingOf(incoming[i]))
  }

  lemma InputBinds(url: string, i: IncomingRoute)
    ensures InputBindings(NatsInput(url, i), url) == [BindingOf(i)]
  {
    assert "subject" != "durable" && "durable" != "queue" && "subject" != "queue";
  }

  lemma {:induction false} InputsBind(url: string, incoming: seq<IncomingRoute>)
    ensures BindingsOfAll(NatsInputs(url, incoming), url) == BindingsOf(incoming)
  {
    if incoming != [] {
      InputsBind(url, incoming[1..]);
      assert NatsInputs(url, incoming)[1..] == NatsInputs(url, incoming[1..]);
      InputBinds(url, incoming[0]);
      assert BindingsOf(incoming) == [BindingOf(incoming[0])] + BindingsOf(incoming[1..]);
    }
  }

  lemma BuildInputBinds(url: string, incoming: seq<IncomingRoute>)
    ensures InputBindings(BuildInput(url, incoming), url) == BindingsOf(incoming)
  {
    if |incoming| == 1 {
      InputBinds(url, incoming[0]);
    } else {
      InputsBind(url, incoming);
      assert "nats_jetstream" != "broker";
    }
  }

  // ---------- the filter

  /** The compiler prints exactly the texts whose meaning is fixed above. */
  lemma PrintedTexts(when: string, subject: string)
    ensures FilterMapping(when) == DropUnless(when) && SubjectCheck(subject) == ReadFrom(subject)
  {
    assert "@nats_subject == " + "\"" == "@nats_subject == \"";
  }

  lemma DropUnlessInjective(v: string, w: string)
    requires DropUnless(v) == DropUnless(w)
    ensures v == w
  {
    var head, tail := "root = if !(", ") { deleted() } else { this }";
    assert DropUnless(v)[|head|..|head| + |v|] == v && DropUnless(w)[|head|..|head| + |w|] == w;
    assert |DropUnless(v)| == |head| + |v| + |tail|;
    assert |DropUnless(w)| == |head| + |w| + |tail|;
  }

  lemma ReadFromInjective(s: string, t: string)
    requires ReadFrom(s) == ReadFrom(t)
    ensures s == t
  {
    var n := |"@nats_subject == \""|;
    assert |ReadFrom(s)| == n + |s| + 1 && |ReadFrom(t)| == n + |t| + 1;
    assert ReadFrom(s)[n..n + |s|] == s && ReadFrom(t)[n..n + |t|] == t;
  }

  function FilterProc(when: string): Json { Obj(map["mapping" := Str(FilterMapping(when))]) }

  lemma FilterProcPasses(when: string, holds: string -> bool)
    ensures MappingPasses(FilterProc(when), holds) <==> holds(when)
    ensures ArrAt(FilterProc(when), "switch") == None
  {
    hide FilterMapping, DropUnless;
    PrintedTexts(when, "");
    assert "mapping" != "switch";
    assert StrAt(FilterProc(when), "mapping") == Some(DropUnless(when));
    forall w | DropUnless(when) == DropUnless(w) ensures when == w {
      DropUnlessInjective(when, w);
    }
  }

  lemma CaseMeaning(i: IncomingRoute, subject: string, holds: string -> bool)
    ensures CaseMatches(Case(i), subject) <==> i.subject == subject
    ensures CasePasses(Case(i), holds) <==> holds(i.when)
  {
    hide FilterMapping, DropUnless, SubjectCheck, ReadFrom, MappingPasses;
    assert "check" != "processors";
    FilterProcPasses(i.when, holds);
    PrintedTexts(i.when, i.subject);
    assert ArrAt(Case(i), "processors") == Some([FilterProc(i.when)]);
    if CaseMatches(Case(i), subject) {
      ReadFromInjective(i.subject, subject);
    }
    if holds(i.when) {
      forall p | p in [FilterProc(i.when)] ensures MappingPasses(p, holds) {
        assert p == FilterProc(i.when);
      }
    } else {
      assert FilterProc(i.when) in [FilterProc(i.when)];
    }
  }

  /** The entries of the consumer side that read from one subject. */
  function OnSubject(incoming: seq<IncomingRoute>, subject: string): seq<IncomingRoute> {
    if incoming == [] then []
    else
      var rest := OnSubject(incoming[..|incoming| - 1], subject);
      var i := incoming[|incoming| - 1];
      if i.subject == subject then rest + [i] else rest
  }

  lemma {:induction false} OnSubjectAppend(s: seq<IncomingRoute>, t: seq<IncomingRoute>, subject: string)
    ensures OnSubject(s + t, subject) == OnSubject(s, subject) + OnSubject(t, subject)
  {
    if t == [] {
      assert s + t == s;
    } else {
      var n := |t| - 1;
      assert (s + t)[..|s| + n] == s + t[..n];
      OnSubjectAppend(s, t[..n], subject);
    }
  }

  lemma {:induction false} OnSubjectMembers(incoming: seq<IncomingRoute>, subject: string, x: IncomingRoute)
    ensures x in OnSubject(incoming, subject) <==> x in incoming && x.subject == subject
  {
    if incoming != [] {
      var n := |incoming| - 1;
      OnSubjectMembers(incoming[..n], subject, x);
      assert incoming == incoming[..n] + [incoming[n]];
    }
  }

  /** The first predicate among some entries, if any has one. */
  function FirstPredicate(incoming: seq<IncomingRoute>): Option<string> {
    if incoming == [] then None
    else
      var rest := FirstPredicate(incoming[..|incoming| - 1]);
      var i := incoming[|incoming| - 1];
      if rest.Some? then rest else if i.when != "" then Some(i.when) else None
  }

  ghost predicate Holds(when: Option<string>, holds: string -> bool) { when.Some? ==> holds(when.value) }

  ghost predicate DecidedBy(cases: seq<Json>, subject: string, when: Option<string>, holds: string -> bool) {
    if when.None? then forall k :: 0 <= k < |cases| ==> !CaseMatches(cases[k], subject)
    else exists k :: FirstMatch(cases, subject, k) && (CasePasses(cases[k], holds) <==> holds(when.value))
  }

  lemma CasesStep(incoming: seq<IncomingRoute>, subject: string)
    requires incoming != []
    ensures
      var n := |incoming| - 1;
      var last, before := incoming[n], FirstPredicate(OnSubject(incoming[..n], subject));
      && Cases(incoming) == Cases(incoming[..n]) + (if last.when == "" then [] else [Case(last)])
      && FirstPredicate(OnSubject(incoming, subject))
         == if before.Some? || last.subject != subject || last.when == "" then before else Some(last.when)
  {
    hide Case;
    var n := |incoming| - 1;
    var before := OnSubject(incoming[..n], subject);
    assert (before + [incoming[n]])[..|before|] == before;
    assert Cases(incoming[..n]) + [] == Cases(incoming[..n]);
  }

  /** A further case decides only what no earlier case matched. */
  lemma DecidedStep(cases: seq<Json>, subject: string, when: Option<string>, last: IncomingRoute, holds: string -> bool)
    requires DecidedBy(cases, subject, when, holds)
    ensures DecidedBy(cases + [Case(last)], subject,
                      if when.Some? || last.subject != subject then when else Some(last.when), holds)
  {
    hide Case, CaseMatches, CasePasses;
    CaseMeaning(last, subject, holds);
    var cases' := cases + [Case(last)];
    assert cases'[|cases|] == Case(last) && forall k :: 0 <= k < |cases| ==> cases'[k] == cases[k];
    if when.Some? {
      var k :| FirstMatch(cases, subject, k) && (CasePasses(cases[k], holds) <==> holds(when.value));
      assert FirstMatch(cases', subject, k) && cases'[k] == cases[k];
    } else if last.subject == subject {
      assert FirstMatch(cases', subject, |cases|);
    }
  }

  /** The switch is decided by the first predicate among the entries on the message's subject. */
  lemma {:induction false} CasesDecidedBy(incoming: seq<IncomingRoute>, subject: string, holds: string -> bool)
    ensures DecidedBy(Cases(incoming), subject, FirstPredicate(OnSubject(incoming, subject)), holds)
  {
    if incoming != [] {
      hide Case, DecidedBy, Cases, FirstPredicate, OnSubject;
      var n := |incoming| - 1;
      CasesDecidedBy(incoming[..n], subject, holds);
      CasesStep(incoming, subject);
      var cases := Cases(incoming[..n]);
      assert cases + [] == cases;
      DecidedStep(cases, subject, FirstPredicate(OnSubject(incoming[..n], subject)), incoming[n], holds);
    }
  }

  /** The inserted filter lets a message through exactly when no entry on its subject has a
      predicate or the first one that does holds, for a single entry and for a fan-in alike. */
  lemma FilterExact(incoming: seq<IncomingRoute>, subject: string, holds: string -> bool)
    requires OnSubject(incoming, subject) != []
    ensures (PredicateProcessor(incoming).Some? ==> Passes(PredicateProcessor(incoming).value, subject, holds))
            <==> Holds(FirstPredicate(OnSubject(incoming, subject)), holds)
  {
    hide Case, CasePasses, CaseMatches, MappingPasses;
    CasesDecidedBy(incoming, subject, holds);
    if |incoming| == 1 {
      assert incoming[..0] == [] && OnSubject(incoming, subject) == incoming;
      FilterProcPasses(incoming[0].when, holds);
    } else if Cases(incoming) != [] {
      SwitchIsNoMapping(Cases(incoming), holds);
    }
  }

  lemma SwitchIsNoMapping(cases: seq<Json>, holds: string -> bool)
    ensures MappingPasses(Obj(map["switch" := Arr(cases)]), holds)
    ensures ArrAt(Obj(map["switch" := Arr(cases)]), "switch") == Some(cases)
  {
    assert "mapping" != "switch";
  }

  // ---------- the plan and the table

  function ToRenderRoute(i: Incoming): IncomingRoute { IncomingRoute(i.subject, i.durable, i.when) }

  function ToRenderRoutes(s: seq<Incoming>): seq<IncomingRoute> {
    seq(|s|, i requires 0 <= i < |s| => ToRenderRoute(s[i]))
  }

  function ToRenderPlan(p: Plan): IOPlan { IOPlan(p.natsUrl, p.outgoing, ToRenderRoutes(p.incoming)) }

  lemma {:induction false} OutgoingAbsent(project: string, routes: seq<Route>, p: string, name: string)
    requires forall i :: 0 <= i < |routes| ==> routes[i].name != name
    ensures multiset(Outgoing(project, routes, p))[Subject(project, name)] == 0
  {
    if routes != [] {
      var n := |routes| - 1;
      OutgoingAbsent(project, routes[..n], p, name);
      if Subject(project, routes[n].name) == Subject(project, name) {
        SubjectInjective(project, routes[n].name, name);
      }
    }
  }

  /** The producer side publishes once to each of its routes and to no other route. */
  lemma {:induction false} OutgoingOnce(project: string, routes: seq<Route>, p: string, i: nat)
    requires UniqueNames(routes) && i < |routes|
    ensures multiset(Outgoing(project, routes, p))[Subject(project, routes[i].name)] ==
            if routes[i].source == p then 1 else 0
  {
    var n := |routes| - 1;
    if i < n {
      OutgoingOnce(project, routes[..n], p, i);
      if Subject(project, routes[n].name) == Subject(project, routes[i].name) {
        SubjectInjective(project, routes[n].name, routes[i].name);
      }
    } else {
      OutgoingAbsent(project, routes[..n], p, routes[n].name);
    }
  }

  lemma {:induction false} OutgoingEmpty(project: string, routes: seq<Route>, p: string)
    ensures Outgoing(project, routes, p) == [] <==> !IsProducer(routes, p)
  {
    if routes != [] {
      var n := |routes| - 1;
      OutgoingEmpty(project, routes[..n], p);
      if IsProducer(routes, p) && routes[n].source != p {
        var i :| 0 <= i < |routes| && routes[i].source == p;
        assert routes[..n][i].source == p;
      }
    }
  }

  lemma {:induction false} IncomingOfEmpty(project: string, route: string, targets: seq<Target>, q: string)
    ensures IncomingOf(project, route, targets, q) == [] <==> !IsTarget(targets, q)
  {
    if targets != [] {
      var n := |targets| - 1;
      IncomingOfEmpty(project, route, targets[..n], q);
      assert forall k :: 0 <= k < n ==> targets[..n][k] == targets[k];
    }
  }

  lemma {:induction false} IncomingEmpty(project: string, routes: seq<Route>, q: string)
    ensures AllIncoming(project, routes, q) == [] <==> !IsConsumer(routes, q)
  {
    if routes != [] {
      var n := |routes| - 1;
      IncomingEmpty(project, routes[..n], q);
      IncomingOfEmpty(project, routes[n].name, routes[n].targets, q);
      ConsumerSplit(routes, q);
      hide IncomingOf, IsConsumer, IsTarget;
    }
  }

  lemma ConsumerSplit(routes: seq<Route>, q: string)
    requires routes != []
    ensures IsConsumer(routes, q) <==>
            IsConsumer(routes[..|routes| - 1], q) || IsTarget(routes[|routes| - 1].targets, q)
  {
    hide IsTarget;
    var n := |routes| - 1;
    if IsConsumer(routes, q) {
      var i :| 0 <= i < |routes| && IsTarget(routes[i].targets, q);
      assert i < n ==> routes[..n][i] == routes[i];
    }
    if IsConsumer(routes[..n], q) {
      var i :| 0 <= i < n && IsTarget(routes[..n][i].targets, q);
      assert routes[i] == routes[..n][i];
    }
  }

  lemma {:induction false} IncomingOfMembers(project: string, route: string, targets: seq<Target>, q: string,
                                             x: Incoming)
    requires x in IncomingOf(project, route, targets, q)
    ensures x.subject == Subject(project, route) && x.durable == DurableName(project, route, q)
  {
    hide Subject, DurableName;
    var n := |targets| - 1;
    if x in IncomingOf(project, route, targets[..n], q) {
      IncomingOfMembers(project, route, targets[..n], q, x);
    }
  }

  lemma {:induction false} AllOrNoneOnSubject(s: seq<IncomingRoute>, subject: string)
    ensures (forall x :: x in s ==> x.subject == subject) ==> OnSubject(s, subject) == s
    ensures (forall x :: x in s ==> x.subject != subject) ==> OnSubject(s, subject) == []
  {
    if s != [] {
      var n := |s| - 1;
      AllOrNoneOnSubject(s[..n], subject);
      assert s[n] in s && s == s[..n] + [s[n]];
    }
  }

  /** Of one route's entries, all or none are on the subject of another route, by name. */
  lemma RouteOnSubject(project: string, r: Route, q: string, name: string)
    ensures OnSubject(ToRenderRoutes(IncomingOf(project, r.name, r.targets, q)), Subject(project, name))
            == if r.name == name then ToRenderRoutes(IncomingOf(project, r.name, r.targets, q)) else []
  {
    hide Subject, IncomingOf, DurableName;
    var s := IncomingOf(project, r.name, r.targets, q);
    forall x | x in ToRenderRoutes(s) ensures x.subject == Subject(project, r.name) {
      var j :| 0 <= j < |s| && x == ToRenderRoute(s[j]);
      IncomingOfMembers(project, r.name, r.targets, q, s[j]);
    }
    if Subject(project, r.name) == Subject(project, name) {
      SubjectInjective(project, r.name, name);
    }
    AllOrNoneOnSubject(ToRenderRoutes(s), Subject(project, name));
  }

  lemma {:induction false} NothingOnSubject(project: string, routes: seq<Route>, q: string, name: string)
    requires forall i :: 0 <= i < |routes| ==> routes[i].name != name
    ensures OnSubject(ToRenderRoutes(AllIncoming(project, routes, q)), Subject(project, name)) == []
  {
    hide Subject, IncomingOf, OnSubject;
    if routes == [] {
      AllOrNoneOnSubject(ToRenderRoutes(AllIncoming(project, routes, q)), Subject(project, name));
    } else {
      var n := |routes| - 1;
      NothingOnSubject(project, routes[..n], q, name);
      SplitOnSubject(project, routes, q, name);
    }
  }

  lemma SplitOnSubject(project: string, routes: seq<Route>, q: string, name: string)
    requires routes != []
    ensures
      var r := routes[|routes| - 1];
      OnSubject(ToRenderRoutes(AllIncoming(project, routes, q)), Subject(project, name))
      == OnSubject(ToRenderRoutes(AllIncoming(project, routes[..|routes| - 1], q)), Subject(project, name))
         + if r.name == name then ToRenderRoutes(IncomingOf(project, r.name, r.targets, q)) else []
  {
    hide Subject, IncomingOf, OnSubject;
    var r := routes[|routes| - 1];
    var before, last := AllIncoming(project, routes[..|routes| - 1], q), IncomingOf(project, r.name, r.targets, q);
    assert ToRenderRoutes(before + last) == ToRenderRoutes(before) + ToRenderRoutes(last);
    OnSubjectAppend(ToRenderRoutes(before), ToRenderRoutes(last), Subject(project, name));
    RouteOnSubject(project, r, q, name);
  }

  /** On a route's subject the consumer side has exactly the route's entries for it, in order. */
  lemma {:induction false} IncomingOnSubject(project: string, routes: seq<Route>, q: string, i: nat)
    requires UniqueNames(routes) && i < |routes|
    ensures OnSubject(ToRenderRoutes(AllIncoming(project, routes, q)), Subject(project, routes[i].name))
            == ToRenderRoutes(IncomingOf(project, routes[i].name, routes[i].targets, q))
  {
    hide Subject, IncomingOf, OnSubject, AllIncoming, ToRenderRoutes;
    var n := |routes| - 1;
    SplitOnSubject(project, routes, q, routes[i].name);
    if i < n {
      IncomingOnSubject(project, routes[..n], q, i);
      assert routes[..n][i] == routes[i];
    } else {
      NothingOnSubject(project, routes[..n], q, routes[n].name);
    }
  }

  // ---------- the main result

  /** The config deployed for pipeline `x`: its user config rewritten by its plan. */
  function DeployedDoc(project: Project, namespace: string, user: Doc, x: string): Doc {
    RewriteFields(user, ToRenderPlan(Plan(NatsUrl(project.name, namespace), Outgoing(project.name, project.routes, x),
                                          AllIncoming(project.name, project.routes, x))))
  }

  /** It is what the rewrite makes of the user's config. */
  lemma DeployedIsRewritten(project: Project, namespace: string, user: Doc, x: string)
    ensures Rewrite(Obj(user), ToRenderPlan(Plan(NatsUrl(project.name, namespace),
                                                 Outgoing(project.name, project.routes, x),
                                                 AllIncoming(project.name, project.routes, x))))
            == Rewritten(Obj(DeployedDoc(project, namespace, user, x)))
  {
    hide NatsUrl, Outgoing, AllIncoming, PredicateProcessor, BuildInput, BuildOutput;
  }

  function DeployedDocs(project: Project, namespace: string, users: map<string, Doc>): map<string, Doc> {
    map m | m in users :: DeployedDoc(project, namespace, users[m], m)
  }

  function ServerOf(project: Project, namespace: string): string { NatsUrl(project.name, namespace) }

  /** Where the project does not manage a side, the user's own config stays off its subjects. */
  ghost predicate KeepsOff(project: Project, namespace: string, user: Doc, x: string) {
    forall r :: r in project.routes ==>
      && (!IsProducer(project.routes, x) ==>
            Subject(project.name, r.name) !in MayPublish(user, ServerOf(project, namespace)))
      && (!IsConsumer(project.routes, x) ==>
            Groups(user, ServerOf(project, namespace), Subject(project.name, r.name), x) == {})
  }

  ghost predicate AllKeepOff(project: Project, namespace: string, users: map<string, Doc>) {
    forall m :: m in users ==> KeepsOff(project, namespace, users[m], m)
  }

  ghost predicate EntryFor(r: Route, q: string, k: int) { 0 <= k < |r.targets| && r.targets[k].pipeline == q }

  /** What the routing table says: some entry of r targets q with an empty or true predicate. */
  ghost predicate Declared(r: Route, q: string, holds: string -> bool) {
    exists k :: EntryFor(r, q, k) && (r.targets[k].when == "" || holds(r.targets[k].when))
  }

  /** All entries of r for q carry the same predicate. */
  ghost predicate OnePredicate(r: Route, q: string) {
    forall k, l :: EntryFor(r, q, k) && EntryFor(r, q, l) ==> r.targets[k].when == r.targets[l].when
  }

  /** The first predicate given for q. */
  function DecidingPredicate(targets: seq<Target>, q: string): Option<string> {
    if targets == [] then None
    else
      var rest := DecidingPredicate(targets[..|targets| - 1], q);
      var t := targets[|targets| - 1];
      if rest.Some? then rest else if t.pipeline == q && t.when != "" then Some(t.when) else None
  }

  /** What the compiled configs do with a message of r: q gets it unless its deciding predicate fails. */
  ghost predicate Forwarded(r: Route, q: string, holds: string -> bool) {
    IsTarget(r.targets, q) && Holds(DecidingPredicate(r.targets, q), holds)
  }

  /** Copies of a message of p that reach q over route i when all pipelines run their deployed configs. */
  ghost function Delivered(project: Project, namespace: string, users: map<string, Doc>, p: string, q: string, i: nat,
                           handed: Group -> string, holds: string -> bool): nat
    requires i < |project.routes| && p in users && q in users
  {
    Deliveries(DeployedDocs(project, namespace, users), users, ServerOf(project, namespace), p, q,
               Subject(project.name, project.routes[i].name), handed, holds)
  }

  /** The run-time is free to hand out the messages of route i. */
  ghost predicate FairHand(project: Project, namespace: string, users: map<string, Doc>, i: nat,
                           handed: Group -> string)
    requires i < |project.routes|
  {
    HandsOut(DeployedDocs(project, namespace, users), ServerOf(project, namespace),
             Subject(project.name, project.routes[i].name), handed)
  }

  lemma PublishedOnce(project: Project, namespace: string, user: Doc, p: string, i: nat)
    requires UniqueNames(project.routes) && i < |project.routes| && KeepsOff(project, namespace, user, p)
    ensures multiset(Published(DeployedDoc(project, namespace, user, p),
                               ServerOf(project, namespace)))[Subject(project.name, project.routes[i].name)]
            == if project.routes[i].source == p then 1 else 0
  {
    hide RewriteFields, Outgoing, AllIncoming, Subject, OutputSubjects;
    var url := ServerOf(project, namespace);
    var plan := ToRenderPlan(Plan(url, Outgoing(project.name, project.routes, p),
                                  AllIncoming(project.name, project.routes, p)));
    RewriteFrame(user, plan);
    OutgoingEmpty(project.name, project.routes, p);
    OutgoingOnce(project.name, project.routes, p, i);
    BuildOutputPublishes(url, plan.outgoing);
    if plan.outgoing == [] {
      assert project.routes[i] in project.routes;
      assert project.routes[i].source != p;
      assert Published(DeployedDoc(project, namespace, user, p), url) == Published(user, url);
      if Subject(project.name, project.routes[i].name) in Published(user, url) {
        AlwaysMeansSometimes(user["output"], url, Subject(project.name, project.routes[i].name));
      }
    }
  }

  /** A target of a route is alone in its group on the route's subject; nobody else reads it. */
  ghost function OwnGroup(project: Project, r: Route, q: string): set<Group> {
    if IsTarget(r.targets, q) then {Durable(DurableName(project.name, r.name, q))} else {}
  }

  lemma GroupsExact(project: Project, namespace: string, user: Doc, q: string, i: nat)
    requires UniqueNames(project.routes) && i < |project.routes| && KeepsOff(project, namespace, user, q)
    ensures Groups(DeployedDoc(project, namespace, user, q), ServerOf(project, namespace),
                   Subject(project.name, project.routes[i].name), q)
            == OwnGroup(project, project.routes[i], q)
  {
    hide RewriteFields, AllIncoming, Subject, InputBindings, Outgoing, DurableName, OnSubject, IncomingOf;
    var all := AllIncoming(project.name, project.routes, q);
    var url := ServerOf(project, namespace);
    var plan := ToRenderPlan(Plan(url, Outgoing(project.name, project.routes, q), all));
    var r := project.routes[i];
    var s := Subject(project.name, r.name);
    RewriteFrame(user, plan);
    IncomingEmpty(project.name, project.routes, q);
    var doc := DeployedDoc(project, namespace, user, q);
    if all == [] {
      assert r in project.routes;
      assert !IsTarget(r.targets, q);
      assert Groups(doc, url, s, q) == Groups(user, url, s, q);
    } else {
      BuildInputBinds(url, plan.incoming);
      assert InputBindings(doc["input"], url) == BindingsOf(plan.incoming);
      IncomingOnSubject(project.name, project.routes, q, i);
      IncomingOfEmpty(project.name, r.name, r.targets, q);
      OneBinding(project.name, r, q, plan.incoming);
      DurableNamed(project.name, r.name, q);
      assert GroupOf(Binding(s, DurableName(project.name, r.name, q), ""), q) ==
          Durable(DurableName(project.name, r.name, q));
    }
  }

  lemma DurableNamed(project: string, route: string, pipeline: string)
    ensures DurableName(project, route, pipeline) != ""
  {
  }

  /** All entries for one target of one route share one durable consumer. */
  lemma OneBinding(project: string, r: Route, q: string, incoming: seq<IncomingRoute>)
    requires OnSubject(incoming, Subject(project, r.name)) == ToRenderRoutes(IncomingOf(project, r.name, r.targets, q))
    ensures
      var only := Binding(Subject(project, r.name), DurableName(project, r.name, q), "");
      forall b :: b in BindingsOf(incoming) && b.subject == Subject(project, r.name) <==>
          b == only && IncomingOf(project, r.name, r.targets, q) != []
  {
    hide Subject, DurableName, OnSubject, IncomingOf;
    var s, entries := Subject(project, r.name), IncomingOf(project, r.name, r.targets, q);
    var only := Binding(s, DurableName(project, r.name, q), "");
    forall b | b in BindingsOf(incoming) && b.subject == s ensures b == only && entries != [] {
      var j :| 0 <= j < |incoming| && b == BindingOf(incoming[j]);
      OnSubjectMembers(incoming, s, incoming[j]);
      var k :| 0 <= k < |entries| && incoming[j] == ToRenderRoute(entries[k]);
      IncomingOfMembers(project, r.name, r.targets, q, entries[k]);
    }
    if entries != [] {
      IncomingOfMembers(project, r.name, r.targets, q, entries[0]);
      var x := ToRenderRoutes(entries)[0];
      OnSubjectMembers(incoming, s, x);
      var j :| 0 <= j < |incoming| && incoming[j] == x;
      assert BindingsOf(incoming)[j] == only;
    }
  }

  /** Since durable names are unique per target, every target gets its own copy whoever hands out. */
  lemma HandedToTarget(project: Project, namespace: string, users: map<string, Doc>, q: string, i: nat,
                       handed: Group -> string)
    requires UniqueNames(project.routes) && i < |project.routes| && AllKeepOff(project, namespace, users) && q in users
    requires FairHand(project, namespace, users, i, handed)
    ensures
      var groups := Groups(DeployedDoc(project, namespace, users[q], q), ServerOf(project, namespace),
                           Subject(project.name, project.routes[i].name), q);
      |set g | g in groups && handed(g) == q| == if IsTarget(project.routes[i].targets, q) then 1 else 0
  {
    hide DeployedDoc, Groups, Subject, ServerOf, DurableName, KeepsOff, UniqueNames, IsTarget;
    var r := project.routes[i];
    forall m | m in users
      ensures Groups(DeployedDoc(project, namespace, users[m], m), ServerOf(project, namespace),
                     Subject(project.name, r.name), m) == OwnGroup(project, r, m)
    {
      GroupsExact(project, namespace, users[m], m, i);
    }
    var groups := OwnGroup(project, r, q);
    if IsTarget(r.targets, q) {
      var g := Durable(DurableName(project.name, r.name, q));
      var docs := DeployedDocs(project, namespace, users);
      assert q in docs && g in groups;
      assert handed(g) in docs && g in OwnGroup(project, r, handed(g));
      DurableNameInjective(project.name, r.name, handed(g), q);
      assert (set x | x in groups && handed(x) == q) == {g};
    } else {
      assert (set x | x in groups && handed(x) == q) == {};
    }
  }

  lemma {:induction false} FirstPredicateOfTargets(project: string, route: string, targets: seq<Target>, q: string)
    ensures FirstPredicate(ToRenderRoutes(IncomingOf(project, route, targets, q))) == DecidingPredicate(targets, q)
  {
    hide Subject, DurableName;
    if targets != [] {
      var n := |targets| - 1;
      FirstPredicateOfTargets(project, route, targets[..n], q);
      var s, t := ToRenderRoutes(IncomingOf(project, route, targets[..n], q)),
          ToRenderRoutes(IncomingOf(project, route, targets, q));
      if targets[n].pipeline == q {
        assert t[..|s|] == s && |t| == |s| + 1 && t[|s|].when == targets[n].when;
      } else {
        assert t == s;
      }
    }
  }

  lemma ReachesExactly(project: Project, namespace: string, user: Doc, q: string, i: nat, holds: string -> bool)
    requires UniqueNames(project.routes) && i < |project.routes| && IsTarget(project.routes[i].targets, q)
    ensures Reaches(DeployedDoc(project, namespace, user, q), user, Subject(project.name, project.routes[i].name),
                    holds)
            <==> Holds(DecidingPredicate(project.routes[i].targets, q), holds)
  {
    hide RewriteFields, AllIncoming, Subject, Outgoing, Passes, PredicateProcessor, UniqueNames, IncomingOf, OnSubject,
         NatsUrl, BuildOutput, BuildInput, Processors, Reaches, DecidingPredicate, FirstPredicate;
    var r := project.routes[i];
    var all := AllIncoming(project.name, project.routes, q);
    var plan := ToRenderPlan(Plan(NatsUrl(project.name, namespace), Outgoing(project.name, project.routes, q), all));
    RewriteFrame(user, plan);
    var s := Subject(project.name, r.name);
    IncomingOnSubject(project.name, project.routes, q, i);
    IncomingOfEmpty(project.name, r.name, r.targets, q);
    FirstPredicateOfTargets(project.name, r.name, r.targets, q);
    assert OnSubject(plan.incoming, s) != [];
    assert plan.incoming != [] by { AllOrNoneOnSubject([], s); }
    FilterExact(plan.incoming, s, holds);
    InsertedDecides(DeployedDoc(project, namespace, user, q), user, PredicateProcessor(plan.incoming), s, holds);
  }

  lemma InsertedDecides(doc: Doc, user: Doc, proc: Option<Json>, s: string, holds: string -> bool)
    requires Processors(doc) == (if proc.None? then [] else [proc.value]) + Processors(user)
    ensures Reaches(doc, user, s, holds) <==> (proc.Some? ==> Passes(proc.value, s, holds))
  {
    hide Passes, Processors;
    if proc.Some? {
      assert Inserted(doc, user) == [proc.value];
      assert Inserted(doc, user)[0] == proc.value;
    } else {
      assert Inserted(doc, user) == [];
    }
  }

  /** What the compiled configs do with every accepted project, every pair of pipelines p and q, every
      route and every message, however groups hand their messages out: it is delivered over the route
      from p to q exactly once if p is the route's source, q is a target and the deciding predicate
      holds, and not at all otherwise. */
  lemma DeliveredExactly(project: Project, namespace: string, pipelines: map<string, PipelineView>,
                         parses: string -> bool,
                         users: map<string, Doc>, p: string, q: string, i: nat, handed: Group -> string,
                         holds: string -> bool)
    requires Accepted(project, pipelines, parses) && i < |project.routes| && p in users && q in users
    requires AllKeepOff(project, namespace, users) && FairHand(project, namespace, users, i, handed)
    ensures Delivered(project, namespace, users, p, q, i, handed, holds)
            == if project.routes[i].source == p && Forwarded(project.routes[i], q, holds) then 1 else 0
  {
    hide DeployedDoc, Reaches, Published, Groups, Subject, DecidingPredicate, ServerOf, KeepsOff, FairHand;
    assert UniqueNames(project.routes);
    PublishedOnce(project, namespace, users[p], p, i);
    HandedToTarget(project, namespace, users, q, i, handed);
    if IsTarget(project.routes[i].targets, q) {
      ReachesExactly(project, namespace, users[q], q, i, holds);
    }
  }

  lemma {:induction false} DecidingPredicateShape(targets: seq<Target>, q: string)
    ensures DecidingPredicate(targets, q).None? <==>
            forall k :: 0 <= k < |targets| && targets[k].pipeline == q ==> targets[k].when == ""
    ensures DecidingPredicate(targets, q).Some? ==>
              exists k :: 0 <= k < |targets| && targets[k].pipeline == q &&
                  targets[k].when == DecidingPredicate(targets, q).value != ""
  {
    if targets != [] {
      var n := |targets| - 1;
      DecidingPredicateShape(targets[..n], q);
      assert forall k :: 0 <= k < n ==> targets[..n][k] == targets[k];
    }
  }

  /** Forwarding follows the declaration for every message exactly when the entries that name one
      target twice carry one and the same predicate. */
  lemma ForwardsAsDeclared(r: Route, q: string)
    ensures (forall holds: string -> bool :: Forwarded(r, q, holds) <==> Declared(r, q, holds)) <==> OnePredicate(r, q)
  {
    hide DecidingPredicate;
    DecidingPredicateShape(r.targets, q);
    if OnePredicate(r, q) {
      forall holds: string -> bool ensures Forwarded(r, q, holds) <==> Declared(r, q, holds) {
      }
    } else {
      var k, l :| EntryFor(r, q, k) && EntryFor(r, q, l) && r.targets[k].when != r.targets[l].when;
      var when := DecidingPredicate(r.targets, q).value;
      var other := if r.targets[k].when == when then l else k;
      assert EntryFor(r, q, other) && r.targets[other].when != when;
      var holds := (w: string) => w != when;
      assert Declared(r, q, holds) && !Forwarded(r, q, holds);
    }
  }

  /** Compilation preserves routing: for every accepted project the compiled configs deliver every
      message as declared, once, exactly when no target is listed twice in the route with
      different predicates. */
  lemma RoutingPreserved(project: Project, namespace: string, pipelines: map<string, PipelineView>,
                         parses: string -> bool,
                         users: map<string, Doc>, p: string, q: string, i: nat, handed: Group -> string)
    requires Accepted(project, pipelines, parses) && i < |project.routes| && p in users && q in users
    requires AllKeepOff(project, namespace, users) && FairHand(project, namespace, users, i, handed)
    ensures (forall holds: string -> bool :: Delivered(project, namespace, users, p, q, i, handed, holds)
               == if project.routes[i].source == p && Declared(project.routes[i], q, holds) then 1 else 0)
            <==> (project.routes[i].source == p ==> OnePredicate(project.routes[i], q))
  {
    hide Delivered, Declared, Forwarded, OnePredicate, Accepted, AllKeepOff, FairHand;
    forall holds: string -> bool
      ensures Delivered(project, namespace, users, p, q, i, handed, holds)
              == if project.routes[i].source == p && Forwarded(project.routes[i], q, holds) then 1 else 0
    {
      DeliveredExactly(project, namespace, pipelines, parses, users, p, q, i, handed, holds);
    }
    ForwardsAsDeclared(project.routes[i], q);
  }

  /** In particular nothing is lost, added or repeated on a route that lists no target twice. */
  lemma DistinctTargetsPreserved(project: Project, namespace: string, pipelines: map<string, PipelineView>,
                                 parses: string -> bool,
                                 users: map<string, Doc>, p: string, q: string, i: nat, handed: Group -> string,
                                 holds: string -> bool)
    requires Accepted(project, pipelines, parses) && i < |project.routes| && p in users && q in users
    requires AllKeepOff(project, namespace, users) && FairHand(project, namespace, users, i, handed)
    requires forall k, l :: 0 <= k < l < |project.routes[i].targets| ==>
             project.routes[i].targets[k].pipeline != project.routes[i].targets[l].pipeline
    ensures Delivered(project, namespace, users, p, q, i, handed, holds)
            == if project.routes[i].source == p && Declared(project.routes[i], q, holds) then 1 else 0
  {
    hide Delivered, Declared, Accepted, AllKeepOff, FairHand;
    assert OnePredicate(project.routes[i], q);
    RoutingPreserved(project, namespace, pipelines, parses, users, p, q, i, handed);
  }

  // ---------- a target listed twice

  const MEMBERS := Pair("x", "p", "q")

  /** A project that lists q twice, unconditionally and under `when`. */
  function Twice(when: string): Project {
    Project("x", [Route("r", "p", [Target("q", ""), Target("q", when)])], [])
  }

  lemma TwiceIsAccepted(when: string, parses: string -> bool)
    requires parses(when)
    ensures Accepted(Twice(when), MEMBERS, parses)
  {
    hide Accepted, Pair;
    PairIsAccepted("x", Twice(when).routes[0], "q", parses);
  }

  lemma TwiceForwards(when: string, holds: string -> bool)
    requires when != "" && !holds(when)
    ensures Declared(Twice(when).routes[0], "q", holds) && !Forwarded(Twice(when).routes[0], "q", holds)
  {
    var r := Twice(when).routes[0];
    assert EntryFor(r, "q", 0) && r.targets[0].when == "";
    assert r.targets[..1] == [Target("q", "")] && [Target("q", "")][..0] == [];
    assert DecidingPredicate([Target("q", "")], "q") == None;
    assert DecidingPredicate(r.targets, "q") == Some(when);
  }

  lemma EmptyKeepsOff(project: Project, namespace: string, x: string)
    ensures KeepsOff(project, namespace, map[], x)
  {
  }

  /** In an accepted project, beside an unconditional entry for q a second entry's predicate filters the
      whole route: a message on which it fails is declared for q and dropped. */
  lemma DuplicateTargetIsFiltered(namespace: string, when: string, parses: string -> bool, handed: Group -> string,
                                  holds: string -> bool)
    requires when != "" && parses(when) && !holds(when)
    requires FairHand(Twice(when), namespace, map["p" := map[], "q" := map[]], 0, handed)
    ensures Accepted(Twice(when), MEMBERS, parses) && Declared(Twice(when).routes[0], "q", holds)
    ensures Delivered(Twice(when), namespace, map["p" := map[], "q" := map[]], "p", "q", 0, handed, holds) == 0
  {
    hide Delivered, FairHand, Accepted, KeepsOff, Declared, Forwarded;
    var users: map<string, Doc> := map["p" := map[], "q" := map[]];
    TwiceIsAccepted(when, parses);
    TwiceForwards(when, holds);
    EmptyKeepsOff(Twice(when), namespace, "p");
    EmptyKeepsOff(Twice(when), namespace, "q");
    DeliveredExactly(Twice(when), namespace, MEMBERS, parses, users, "p", "q", 0, handed, holds);
  }
}
