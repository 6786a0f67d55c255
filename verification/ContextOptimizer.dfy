/** The optimizer as the source runs it, over the sections that the assembler produces. */
module ContextOptimizer {
  import opened EventLog
  import opened Delimited
  import opened Optimizer
  import opened References

  // ---- which event sections stay whole ----

  /** Event-like sections from position `i` on. */
  function EventsFrom(sections: seq<Section>, i: nat): nat
    requires i <= |sections|
    decreases |sections| - i
  {
    if i == |sections| then 0 else (if EventLike(sections[i].kind) then 1 else 0) + EventsFrom(sections, i + 1)
  }

  /** One of the newest `recent` event-like sections. */
  predicate Recent(sections: seq<Section>, i: nat, recent: nat)
    requires i < |sections|
  {
    EventLike(sections[i].kind) && EventsFrom(sections, i) <= recent
  }

  method KeepFullIndexes(sections: seq<Section>, recent: nat) returns (keep: set<nat>)
    ensures forall i: nat :: i < |sections| ==> (i in keep <==> Recent(sections, i, recent))
  {
    var indexes: seq<nat> := [];
    for i := 0 to |sections|
      invariant forall j :: 0 <= j < |indexes| ==> indexes[j] < i && EventLike(sections[indexes[j]].kind)
      invariant forall j :: 0 <= j < |indexes| ==>
                  EventsFrom(sections, indexes[j]) == |indexes| - j + EventsFrom(sections, i)
      invariant forall k :: 0 <= k < i && EventLike(sections[k].kind) ==> k in indexes
    {
      if EventLike(sections[i].kind) {
        indexes := indexes + [i];
      }
    }
    var start := Max(0, |indexes| - recent);
    keep := set j | start <= j < |indexes| :: indexes[j];
    forall i: nat | i < |sections| ensures i in keep <==> Recent(sections, i, recent) {
      if EventLike(sections[i].kind) {
        var j :| 0 <= j < |indexes| && indexes[j] == i;
        assert EventsFrom(sections, i) == |indexes| - j;
        if i in keep {
          var m :| start <= m < |indexes| && indexes[m] == i;
        }
      }
    }
  }

  class SimpleContextOptimizer {
    const digest: string -> string
    var references: Refs

    ghost predicate Consistent()
      reads this
    {
      Faithful(digest, references) && Labelled(digest, references)
    }

    constructor (digest: string -> string)
      ensures this.digest == digest && references == map[] && Consistent()
    {
      this.digest := digest;
      references := map[];
    }

    /** The row is stored first; then the reference built from it is refused when its summary is empty. */
    method SaveReference(task: string, kind: SectionType, content: string) returns (saved: Option<RefId>)
      requires Consistent()
      modifies this
      ensures saved == if Blank(content) then None else Some(BuildRefId(digest, task, kind, content))
      ensures Consistent() && references.Keys == old(references).Keys + {BuildRefId(digest, task, kind, content)}
      ensures saved.Some? ==> references[saved.value].summary != ""
      ensures KeepsOriginals(old(references), references)
    {
      var id := BuildRefId(digest, task, kind, content);
      var summary := Summarize(content, 240);
      references := Upsert(references, id, content, summary);
      assert summary == "" ==> Blank(content) && digest(content) == id.digest;
      return if summary == "" then None else Some(id);
    }

    /** None for an unknown id, and for a stored row that the reference schema refuses. */
    method Retrieve(id: RefId) returns (found: Option<Reference>)
      ensures found == if Retrievable(references, id) then Some(references[id]) else None
    {
      if id !in references {
        return None;
      }
      if references[id].summary == "" {
        return None;
      }
      return Some(references[id]);
    }

    /** No section when saving its reference raised. */
    method TransformSection(task: string, s: Section, p: Policy, keepFull: bool)
      returns (t: Option<Section>, created: Option<RefId>)
      requires ValidPolicy(p) && Consistent()
      modifies this
      ensures t.None? <==> Unsavable(p, s)
      ensures t.Some? ==> Transformed(p, s, keepFull, t.value)
      ensures created == if Referenced(p, s) && t.Some? then Some(BuildRefId(digest, task, s.kind, s.content)) else None
      ensures Consistent() && (created.Some? ==> created.value in references)
      ensures KeepsOriginals(old(references), references)
    {
      var preserve := s.critical || s.kind in p.preserve;
      var content := s.content;
      created := None;
      if LogLike(s.kind) && |content| > p.largeContent && !preserve {
        created := SaveReference(task, s.kind, content);
        if created.None? {
          return None, None;
        }
        content := "[context_ref]" + "\n" + "summary: " + references[created.value].summary;
      } else if s.kind == BatonType && |content| > p.maxBaton {
        content := CutBaton(content, p.maxBaton);
      } else if EventLike(s.kind) && !keepFull && !preserve {
        content := Summarize(content, p.maxEventSummary);
      } else if |content| > p.maxNoncritical && !preserve {
        content := Summarize(content, p.maxNoncritical);
      }
      t := Some(s.(content := content));
    }

    /** The decision on one transformed section; `warned` says that a critical one overflowed. */
    method EmitSection(p: Policy, t: Section, runningTokens: nat) returns (e: Option<Section>, warned: bool)
      requires ValidPolicy(p)
      ensures Decided(p, t, runningTokens, e)
      ensures warned <==> t.critical && runningTokens + Cost(t) > p.budget
    {
      var tokens := EstimateTokens(t.content) + 10;
      if runningTokens + tokens <= p.budget {
        return Some(t), false;
      }
      if t.critical {
        return Some(t), true;
      }
      var remaining := Max(p.budget - runningTokens, 0);
      var reduced := ReduceNoncritical(t, p, remaining);
      var reducedTokens := EstimateTokens(reduced.content) + 10;
      if reduced.content != "" && reducedTokens <= remaining {
        return Some(reduced), false;
      }
      return None, false;
    }

    /** One pass over the sections, which ends without a bundle when a reference cannot be saved.  `ts` and
        `es` record, section by section, what it became and what was emitted for it. */
    method Optimize(task: string, sections: seq<Section>, p: Policy)
      returns (raised: bool, optimized: seq<Section>, includedRefs: set<RefId>, criticalWarnings: nat, skipWarnings: nat,
               ghost ts: seq<Section>, ghost es: seq<Option<Section>>)
      requires ValidPolicy(p) && Consistent()
      modifies this
      ensures raised <==> !AllSavable(p, sections)
      ensures !raised ==>
                && AllTransformed(p, sections, |sections|, ts) && Allocated(p, ts, es)
                && optimized == Emitted(es) && skipWarnings == Skipped(es)
                && (criticalWarnings == 0 ==> Overflow(p, ts, es) == 0)
                && includedRefs == RefsOf(digest, task, p, sections)
      ensures Effect(digest, Call(task, p, sections, old(references), references))
    {
      hide Transformed, Recent, EventsFrom, Decided, Allocated, Emitted, Skipped, Spent, Overflow, Unsavable, Referenced,
        Faithful, Labelled;
      raised, optimized, includedRefs, criticalWarnings, skipWarnings := false, [], {}, 0, 0;
      ts, es := [], [];
      AllocateNothing(p);
      var runningTokens := 0;
      var keep := KeepFullIndexes(sections, p.recentEvents);
      for index := 0 to |sections|
        invariant !raised && forall i :: 0 <= i < index ==> !Unsavable(p, sections[i])
        invariant AllTransformed(p, sections, index, ts) && |es| == index && Allocated(p, ts, es)
        invariant optimized == Emitted(es) && runningTokens == Spent(es) && skipWarnings == Skipped(es)
        invariant criticalWarnings == 0 ==> Overflow(p, ts, es) == 0
        invariant includedRefs == RefsOf(digest, task, p, sections[..index])
        invariant Consistent() && includedRefs <= references.Keys
        invariant KeepsOriginals(old(references), references)
      {
        assert sections[..index + 1][..index] == sections[..index];
        var section := sections[index];
        var transformed, created := TransformSection(task, section, p, index in keep);
        if transformed.None? {
          raised := true;
          return;
        }
        var t := transformed.value;
        if created.Some? {
          includedRefs := includedRefs + {created.value};
        }
        var e, warned := EmitSection(p, t, runningTokens);
        AllocateNext(p, ts, es, t, e);
        ts, es := ts + [t], es + [e];
        if warned {
          criticalWarnings := criticalWarnings + 1;
        }
        if e.Some? {
          optimized := optimized + [e.value];
          runningTokens := runningTokens + EstimateTokens(e.value.content) + 10;
        } else {
          skipWarnings := skipWarnings + 1;
        }
      }
      assert sections[..|sections|] == sections;
    }
  }

  predicate Retrievable(refs: Refs, id: RefId) {
    id in refs && refs[id].summary != ""
  }

  predicate AllSavable(p: Policy, sections: seq<Section>) {
    forall i :: 0 <= i < |sections| ==> !Unsavable(p, sections[i])
  }

  /** One optimize call, with the store of references before and after it. */
  datatype Call = Call(task: string, policy: Policy, sections: seq<Section>, before: Refs, after: Refs)

  /** What a call leaves, whether it raises or not. */
  ghost predicate Effect(digest: string -> string, c: Call) {
    && Faithful(digest, c.after) && Labelled(digest, c.after)
    && KeepsOriginals(c.before, c.after)
    && (AllSavable(c.policy, c.sections) ==> RefsOf(digest, c.task, c.policy, c.sections) <= c.after.Keys)
  }

  ghost predicate AllTransformed(p: Policy, sections: seq<Section>, n: nat, ts: seq<Section>)
    requires n <= |sections|
  {
    && |ts| == n
    && forall i :: 0 <= i < n ==> Transformed(p, sections[i], Recent(sections, i, p.recentEvents), ts[i])
  }

  predicate KeepsOriginals(before: Refs, after: Refs) {
    forall id :: id in before ==> id in after && after[id].original == before[id].original
  }

  /** The references that an optimize call includes: one per large log-like section that nothing preserves. */
  function RefsOf(digest: string -> string, task: string, p: Policy, sections: seq<Section>): set<RefId> {
    if sections == [] then {}
    else
      var s := sections[|sections| - 1];
      RefsOf(digest, task, p, sections[..|sections| - 1]) +
      if Referenced(p, s) then {BuildRefId(digest, task, s.kind, s.content)} else {}
  }

  lemma AllocateNothing(p: Policy)
    ensures Allocated(p, [], []) && Emitted([]) == [] && Spent([]) == 0 && Skipped([]) == 0 && Overflow(p, [], []) == 0
  {
  }

  lemma AllocateNext(p: Policy, ts: seq<Section>, es: seq<Option<Section>>, t: Section, e: Option<Section>)
    requires Allocated(p, ts, es) && Decided(p, t, Spent(es), e)
    ensures Allocated(p, ts + [t], es + [e])
    ensures Emitted(es + [e]) == Emitted(es) + match e case None => [] case Some(s) => [s]
    ensures Spent(es + [e]) == Spent(es) + match e case None => 0 case Some(s) => Cost(s)
    ensures Skipped(es + [e]) == Skipped(es) + if e.None? then 1 else 0
    ensures Overflow(p, ts + [t], es + [e])
            == Overflow(p, ts, es) + if t.critical && Spent(es) + Cost(t) > p.budget then Cost(t) else 0
  {
    hide Allocated, Emitted, Spent, Skipped, Overflow, Decided;
    AllocatedLengths(p, ts, es);
    StillAllocated(p, ts, es, t, e);
    EmitNext(es, e);
    OverflowNext(p, ts, es, t, e);
  }

  lemma EmitNext(es: seq<Option<Section>>, e: Option<Section>)
    ensures Emitted(es + [e]) == Emitted(es) + match e case None => [] case Some(s) => [s]
    ensures Spent(es + [e]) == Spent(es) + match e case None => 0 case Some(s) => Cost(s)
    ensures Skipped(es + [e]) == Skipped(es) + if e.None? then 1 else 0
  {
    var more := es + [e];
    assert more[..|more| - 1] == es;
    SpentLast(more) by { hide Emitted; }
    assert Emitted(more) == Emitted(es) + match e case None => [] case Some(s) => [s] by { hide Spent; }
  }

  lemma OverflowNext(p: Policy, ts: seq<Section>, es: seq<Option<Section>>, t: Section, e: Option<Section>)
    requires |ts| == |es|
    ensures Overflow(p, ts + [t], es + [e])
            == Overflow(p, ts, es) + if t.critical && Spent(es) + Cost(t) > p.budget then Cost(t) else 0
  {
    hide Spent, Cost;
    var more := es + [e];
    assert more[..|more| - 1] == es && (ts + [t])[..|more| - 1] == ts;
  }

  lemma StillAllocated(p: Policy, ts: seq<Section>, es: seq<Option<Section>>, t: Section, e: Option<Section>)
    requires Allocated(p, ts, es) && Decided(p, t, Spent(es), e)
    ensures Allocated(p, ts + [t], es + [e])
  {
    hide Decided, Spent;
    var more := es + [e];
    forall i | 0 <= i < |more| ensures Decided(p, (ts + [t])[i], Spent(more[..i]), more[i]) {
      assert more[..i] == es[..i];
      assert es[..|es|] == es;
    }
  }

  /** What the optimizer includes is in the store, and with an injective digest it retrieves the content. */
  lemma {:induction false} IncludedRefIsOfASection(digest: string -> string, task: string, p: Policy,
                                                   sections: seq<Section>, id: RefId) returns (i: nat)
    requires id in RefsOf(digest, task, p, sections)
    ensures i < |sections| && Referenced(p, sections[i])
    ensures id == BuildRefId(digest, task, sections[i].kind, sections[i].content)
  {
    var n := |sections| - 1;
    if Referenced(p, sections[n]) && id == BuildRefId(digest, task, sections[n].kind, sections[n].content) {
      i := n;
    } else {
      i := IncludedRefIsOfASection(digest, task, p, sections[..n], id);
    }
  }

  /** A sequence of calls on one store, each starting where the one before ended. */
  ghost predicate Calls(digest: string -> string, calls: seq<Call>) {
    && (forall i :: 0 <= i < |calls| ==> Effect(digest, calls[i]))
    && (forall i :: 0 < i < |calls| ==> calls[i].before == calls[i - 1].after)
  }

  lemma {:induction false} LaterCallsKeep(digest: string -> string, calls: seq<Call>, i: nat, n: nat)
    requires Calls(digest, calls) && i <= n < |calls|
    ensures KeepsOriginals(calls[i].after, calls[n].after)
    decreases n
  {
    hide Faithful, Labelled, RefsOf;
    if i == n {
    } else {
      LaterCallsKeep(digest, calls, i, n - 1);
      assert Effect(digest, calls[n]);
    }
  }

  /** With an injective digest, what any call of the sequence included is retrieved after any later call,
      as the exact content of one of that call's sections. */
  lemma IncludedRefsAreRecoverable(digest: string -> string, calls: seq<Call>, i: nat, n: nat, id: RefId) returns (k: nat)
    requires Injective(digest) && Calls(digest, calls) && i <= n < |calls|
    requires AllSavable(calls[i].policy, calls[i].sections)
    requires id in RefsOf(digest, calls[i].task, calls[i].policy, calls[i].sections)
    ensures Retrievable(calls[n].after, id)
    ensures k < |calls[i].sections| && Referenced(calls[i].policy, calls[i].sections[k])
    ensures calls[n].after[id].original == calls[i].sections[k].content
  {
    var call, refs := calls[i], calls[n].after;
    k := IncludedRefIsOfASection(digest, call.task, call.policy, call.sections, id);
    LaterCallsKeep(digest, calls, i, n);
    assert Effect(digest, calls[i]) && Effect(digest, calls[n]);
    assert digest(refs[id].original) == digest(call.sections[k].content);
    assert !Unsavable(call.policy, call.sections[k]);
  }

  // ---- the assembler ----

  /** What the assembler looks for in an event's type and payload. */
  datatype EventFacts = EventFacts(
    schema: bool, patch: bool, log: bool, output: bool, file: bool, error: bool, marker: bool)

  function ClassifyEvent(f: EventFacts): SectionType {
    if f.schema then SchemaType
    else if f.patch then PatchType
    else if f.log then LogOutput
    else if f.output then ToolOutput
    else if f.file then FileContent
    else if f.error then ErrorType
    else EventType
  }

  function EventSection(title: string, content: string, f: EventFacts): Section {
    var kind := ClassifyEvent(f);
    var critical := kind in {ConstraintType, ErrorType, SchemaType, PatchType};
    Section("Event: " + title, kind, content, critical || (!LogLike(kind) && f.marker))
  }

  datatype Packet = Packet(text: string, constraints: Option<string>)

  function BatonSections(packet: Packet): seq<Section> {
    [Section("Latest Baton Packet", BatonType, packet.text, false)] +
    match packet.constraints
    case None => []
    case Some(text) => [Section("Critical Constraints", ConstraintType, text, true)]
  }

  datatype EventView = EventView(title: string, content: string, facts: EventFacts)

  function EventSections(events: seq<EventView>): seq<Section> {
    if events == [] then []
    else
      var e := events[|events| - 1];
      EventSections(events[..|events| - 1]) + [EventSection(e.title, e.content, e.facts)]
  }

  function Optional(text: Option<string>, title: string, kind: SectionType): seq<Section> {
    match text
    case None => []
    case Some(content) => [Section(title, kind, content, false)]
  }

  function WithPacket(taskText: string, packet: Option<Packet>): seq<Section> {
    [Section("Task Snapshot", TaskType, taskText, true)] +
    match packet case None => [] case Some(p) => BatonSections(p)
  }

  function Preamble(taskText: string, packet: Option<Packet>, routing: Option<string>, memory: Option<string>): seq<Section> {
    WithPacket(taskText, packet)
    + Optional(routing, "Routing Decision", RoutingType)
    + Optional(memory, "Relevant Memory", MemoryType)
  }

  function Assembled(taskText: string, packet: Option<Packet>, routing: Option<string>, memory: Option<string>,
                     events: seq<EventView>, prior: Option<string>): seq<Section> {
    Preamble(taskText, packet, routing, memory)
    + EventSections(events)
    + Optional(prior, "Prior Optimized Bundle", PriorBundle)
  }

  method Append(sections: seq<Section>, text: Option<string>, title: string, kind: SectionType) returns (more: seq<Section>)
    ensures more == sections + Optional(text, title, kind)
  {
    more := sections;
    if text.Some? {
      more := more + [Section(title, kind, text.value, false)];
    }
  }

  method AppendEvents(sections: seq<Section>, events: seq<EventView>) returns (more: seq<Section>)
    ensures more == sections + EventSections(events)
  {
    hide EventSection;
    more := sections;
    for i := 0 to |events|
      invariant more == sections + EventSections(events[..i])
    {
      assert events[..i + 1][..i] == events[..i];
      more := more + [EventSection(events[i].title, events[i].content, events[i].facts)];
    }
    assert events[..|events|] == events;
  }

  method Assemble(taskText: string, packet: Option<Packet>, routing: Option<string>, memory: Option<string>,
                  events: seq<EventView>, prior: Option<string>) returns (sections: seq<Section>)
    ensures sections == Assembled(taskText, packet, routing, memory, events, prior)
  {
    hide BatonSections, EventSections, Optional;
    sections := [Section("Task Snapshot", TaskType, taskText, true)];
    if packet.Some? {
      sections := sections + BatonSections(packet.value);
    }
    assert sections == WithPacket(taskText, packet);
    sections := Append(sections, routing, "Routing Decision", RoutingType);
    sections := Append(sections, memory, "Relevant Memory", MemoryType);
    sections := AppendEvents(sections, events);
    sections := Append(sections, prior, "Prior Optimized Bundle", PriorBundle);
  }

  predicate CriticalIsPlain(s: Section) {
    s.critical ==> s.kind != BatonType && !LogLike(s.kind)
  }

  lemma {:induction false} EventSectionsArePlain(events: seq<EventView>, s: Section)
    requires s in EventSections(events)
    ensures CriticalIsPlain(s)
  {
    if s in EventSections(events[..|events| - 1]) {
      EventSectionsArePlain(events[..|events| - 1], s);
    }
  }

  /** No critical section that the assembler produces is a baton or log-like. */
  lemma AssembledCriticalIsPlain(taskText: string, packet: Option<Packet>, routing: Option<string>,
                                 memory: Option<string>, events: seq<EventView>, prior: Option<string>, s: Section)
    requires s in Assembled(taskText, packet, routing, memory, events, prior)
    ensures CriticalIsPlain(s)
  {
    hide EventSections;
    if s in EventSections(events) {
      EventSectionsArePlain(events, s);
    }
  }

  /** So every critical section of an assembled bundle is emitted word for word. */
  lemma AssembledCriticalSurvives(p: Policy, taskText: string, packet: Option<Packet>, routing: Option<string>,
                                  memory: Option<string>, events: seq<EventView>, prior: Option<string>,
                                  ts: seq<Section>, es: seq<Option<Section>>, i: nat)
    requires var sections := Assembled(taskText, packet, routing, memory, events, prior);
             && AllTransformed(p, sections, |sections|, ts) && Allocated(p, ts, es)
             && i < |sections| && sections[i].critical
    ensures i < |es| && es[i] == Some(Assembled(taskText, packet, routing, memory, events, prior)[i])
  {
    hide Assembled, Transformed, Allocated;
    var sections := Assembled(taskText, packet, routing, memory, events, prior);
    AssembledCriticalIsPlain(taskText, packet, routing, memory, events, prior, sections[i]);
    AllocatedLengths(p, ts, es);
    CriticalIsVerbatim(p, sections[i], Recent(sections, i, p.recentEvents), ts[i]);
    SkippedExactly(p, ts, es, i);
  }

  lemma AllocatedLengths(p: Policy, ts: seq<Section>, es: seq<Option<Section>>)
    requires Allocated(p, ts, es)
    ensures |ts| == |es|
  {
  }
}
