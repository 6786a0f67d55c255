/** What a reader of an optimized context can rely on: sizes, order, and what stays word for word. */
module ContextLaws {
  import opened EventLog
  import opened Delimited
  import opened Optimizer
  import opened References
  import opened ContextOptimizer

  // ---- sizes ----

  /** Four characters are a token, a begun one counts. */
  lemma EstimateIsCeiling(text: string)
    ensures 4 * (EstimateTokens(text) - 1) < |text| <= 4 * EstimateTokens(text)
    ensures EstimateTokens(text) == 0 <==> text == ""
  {
  }

  lemma RenderStep(sections: seq<Section>, s: Section)
    ensures sections == [] ==> Render(sections + [s]) == "## " + s.title + "\n" + s.content
    ensures sections != [] ==> Render(sections + [s]) == Render(sections) + "\n\n" + ("## " + s.title + "\n" + s.content)
  {
    assert (sections + [s])[..|sections|] == sections;
  }

  lemma Regroup(a: string, b: string, c: string, d: string, e: string)
    ensures a + b + c + d + e == a + b + (c + d + e)
  {
    assert a + b + c + d + e == a + b + (c + d + e);
  }

  /** A prompt is the prompt of its first sections, a blank line, and the prompt of the rest. */
  lemma {:induction false} PromptsConcatenate(first: seq<Section>, rest: seq<Section>)
    requires first != [] && rest != []
    ensures Render(first + rest) == Render(first) + "\n\n" + Render(rest)
    decreases |rest|
  {
    hide Render;
    var n := |rest| - 1;
    var s := rest[n];
    var block := "## " + s.title + "\n" + s.content;
    assert rest == rest[..n] + [s] && first + rest == first + rest[..n] + [s];
    RenderStep(first + rest[..n], s);
    RenderStep(rest[..n], s);
    if n == 0 {
      assert first + rest[..n] == first;
      assert [] + [s] == rest;
    } else {
      PromptsConcatenate(first, rest[..n]);
      Regroup(Render(first), "\n\n", Render(rest[..n]), "\n\n", block);
    }
  }

  /** The prompt of a single section is its heading and its content. */
  lemma PromptOfOne(s: Section)
    ensures Render([s]) == "## " + s.title + "\n" + s.content
  {
    RenderStep([], s);
    assert [] + [s] == [s];
  }

  // ---- what becomes of a section ----

  /** Which sections the first rewriting leaves as they are: those that stay whole by their type or their
      criticality, and those within the limits that apply to them. */
  lemma UntouchedSections(p: Policy, s: Section, keepFull: bool, t: Section)
    requires Transformed(p, s, keepFull, t)
    requires s.kind == BatonType ==> |s.content| <= p.maxBaton
    requires || s.critical || s.kind in p.preserve
             || (|s.content| <= p.maxNoncritical && |s.content| <= p.largeContent
                 && (EventLike(s.kind) ==> keepFull || (IsCompact(s.content) && |s.content| <= p.maxEventSummary)))
    ensures t == s
  {
    CompactedIsIdentityIff(s.content);
    assert s.(content := s.content) == s;
  }

  /** Whatever is neither a reference nor a cut baton is no longer than before, and not longer than its limit. */
  lemma RewritingShortens(p: Policy, s: Section, keepFull: bool, t: Section)
    requires Transformed(p, s, keepFull, t) && !Referenced(p, s) && s.kind != BatonType
    ensures |t.content| <= |s.content|
    ensures !Preserved(p, s) ==> |t.content| <= p.maxNoncritical || (EventLike(s.kind) && |t.content| <= p.maxEventSummary)
    ensures !Preserved(p, s) && EventLike(s.kind) && !keepFull ==> |t.content| <= p.maxEventSummary
    ensures t.content == "" ==> Blank(s.content)
  {
    CompactedIsCompact(s.content);
    assert |t.content| <= |Compacted(s.content)| || t.content == s.content || |t.content| <= |s.content|;
  }

  function DigitValue(c: char): nat {
    if '0' <= c <= '9' then c as nat - '0' as nat else 0
  }

  function DecimalValue(s: string): nat {
    if s == "" then 0 else 10 * DecimalValue(s[..|s| - 1]) + DigitValue(s[|s| - 1])
  }

  lemma {:induction false} DecimalReadsBack(n: nat)
    ensures DecimalValue(Decimal(n)) == n
  {
    if n < 10 {
      assert Decimal(n)[..0] == "";
      DigitReadsBack(n);
    } else {
      DecimalReadsBack(n / 10);
      assert Decimal(n)[..|Decimal(n)| - 1] == Decimal(n / 10);
      DigitReadsBack(n % 10);
    }
  }

  lemma DigitReadsBack(n: nat)
    requires n < 10
    ensures DigitValue(Digit(n)) == n
  {
  }

  /** A cut baton keeps its first characters and says how many are missing. */
  lemma CutBatonTells(content: string, limit: nat)
    requires limit < |content|
    ensures CutBaton(content, limit)[..limit] == content[..limit]
    ensures exists number :: CutBaton(content, limit)
                             == content[..limit] + "\n[truncated non-critical baton details: " + number + " chars]"
                             && limit + DecimalValue(number) == |content|
  {
    DecimalReadsBack(|content| - limit);
    assert CutBaton(content, limit)
        == content[..limit] + "\n[truncated non-critical baton details: " + Decimal(|content| - limit) + " chars]";
  }

  // ---- references ----

  /** A reference stands for a log, an output or a file over the threshold that neither its type nor its
      criticality keeps whole. */
  predicate Replaced(p: Policy, s: Section) {
    && (s.kind == LogOutput || s.kind == ToolOutput || s.kind == FileContent)
    && |s.content| > p.largeContent && !s.critical && s.kind !in p.preserve
  }

  /** The included references are those of exactly these sections. */
  lemma {:induction false} RefsOfReplaced(digest: string -> string, task: string, p: Policy, sections: seq<Section>, id: RefId)
    ensures id in RefsOf(digest, task, p, sections)
            <==> exists i :: 0 <= i < |sections| && Replaced(p, sections[i])
                             && id == BuildRefId(digest, task, sections[i].kind, sections[i].content)
  {
    if sections == [] {
    } else {
      var n := |sections| - 1;
      RefsOfReplaced(digest, task, p, sections[..n], id);
      assert forall i :: 0 <= i < n ==> sections[..n][i] == sections[i];
      assert Replaced(p, sections[n]) <==> Referenced(p, sections[n]);
    }
  }

  // ---- recent events ----

  function EventLikeFrom(sections: seq<Section>, i: nat): set<nat> {
    set k: nat | i <= k < |sections| && EventLike(sections[k].kind)
  }

  lemma {:induction false} EventsAreCounted(sections: seq<Section>, i: nat)
    requires i <= |sections|
    ensures EventsFrom(sections, i) == |EventLikeFrom(sections, i)|
    decreases |sections| - i
  {
    if i == |sections| {
      assert EventLikeFrom(sections, i) == {};
    } else {
      EventsAreCounted(sections, i + 1);
      assert EventLikeFrom(sections, i) == EventLikeFrom(sections, i + 1) + (if EventLike(sections[i].kind) then {i} else {});
    }
  }

  /** An event-like section stays whole exactly when fewer than `recent` event-like sections come after it. */
  lemma RecentMeansFewAfter(sections: seq<Section>, i: nat, recent: nat)
    requires i < |sections|
    ensures Recent(sections, i, recent) <==> EventLike(sections[i].kind) && |EventLikeFrom(sections, i + 1)| < recent
  {
    EventsAreCounted(sections, i + 1);
  }

  // ---- the assembled bundle ----

  /** An event is kept word for word when it carries a schema or a patch, and otherwise when it carries
      neither logs nor output nor a file and reports an error or shows a critical marker. */
  lemma CriticalEvents(title: string, content: string, f: EventFacts)
    ensures var s := EventSection(title, content, f);
            && s.title == "Event: " + title && s.content == content
            && (s.critical <==> f.schema || f.patch || (!f.log && !f.output && !f.file && (f.error || f.marker)))
            && (LogLike(s.kind) <==> !f.schema && !f.patch && (f.log || f.output || f.file))
            && (EventLike(s.kind) <==> !(f.schema || f.patch || f.log || f.output || f.file || f.error))
  {
  }

  /** How many sections come before the first event. */
  function Lead(packet: Option<Packet>, routing: Option<string>, memory: Option<string>): nat {
    1 + (if packet.Some? then 1 + (if packet.value.constraints.Some? then 1 else 0) else 0)
    + (if routing.Some? then 1 else 0) + (if memory.Some? then 1 else 0)
  }

  lemma {:induction false} EventsInOrder(events: seq<EventView>, i: nat)
    requires i < |events|
    ensures |EventSections(events)| == |events|
    ensures EventSections(events)[i] == EventSection(events[i].title, events[i].content, events[i].facts)
    decreases |events|
  {
    hide EventSection;
    var n := |events| - 1;
    if i < n {
      EventsInOrder(events[..n], i);
    } else {
      EventSectionsLength(events);
      EventSectionsLength(events[..n]);
    }
  }

  lemma {:induction false} EventSectionsLength(events: seq<EventView>)
    ensures |EventSections(events)| == |events|
  {
    if events == [] {
    } else {
      EventSectionsLength(events[..|events| - 1]);
    }
  }

  /** The bundle: the task first and critical, the baton and its constraints, the routing decision, the
      memory, every event in order, and the prior bundle last. */
  lemma BundleOrder(taskText: string, packet: Option<Packet>, routing: Option<string>, memory: Option<string>,
                    events: seq<EventView>, prior: Option<string>)
    ensures var bundle := Assembled(taskText, packet, routing, memory, events, prior);
            var lead := Lead(packet, routing, memory);
            && |bundle| == lead + |events| + (if prior.Some? then 1 else 0)
            && bundle[0] == Section("Task Snapshot", TaskType, taskText, true)
            && (packet.Some? ==> bundle[1] == Section("Latest Baton Packet", BatonType, packet.value.text, false))
            && (packet.Some? && packet.value.constraints.Some? ==>
                  bundle[2] == Section("Critical Constraints", ConstraintType, packet.value.constraints.value, true))
            && (memory.Some? ==> bundle[lead - 1] == Section("Relevant Memory", MemoryType, memory.value, false))
            && (routing.Some? ==>
                  bundle[lead - 1 - (if memory.Some? then 1 else 0)] == Section("Routing Decision", RoutingType, routing.value, false))
            && (prior.Some? ==> bundle[|bundle| - 1] == Section("Prior Optimized Bundle", PriorBundle, prior.value, false))
  {
    hide EventSections;
    EventSectionsLength(events);
    PreambleOrder(taskText, packet, routing, memory);
    hide Preamble;
  }

  lemma PreambleOrder(taskText: string, packet: Option<Packet>, routing: Option<string>, memory: Option<string>)
    ensures var head := Preamble(taskText, packet, routing, memory);
            var lead := Lead(packet, routing, memory);
            && |head| == lead
            && head[0] == Section("Task Snapshot", TaskType, taskText, true)
            && (packet.Some? ==> head[1] == Section("Latest Baton Packet", BatonType, packet.value.text, false))
            && (packet.Some? && packet.value.constraints.Some? ==>
                  head[2] == Section("Critical Constraints", ConstraintType, packet.value.constraints.value, true))
            && (memory.Some? ==> head[lead - 1] == Section("Relevant Memory", MemoryType, memory.value, false))
            && (routing.Some? ==>
                  head[lead - 1 - (if memory.Some? then 1 else 0)] == Section("Routing Decision", RoutingType, routing.value, false))
  {
    var first := WithPacket(taskText, packet);
    assert |first| == 1 + (if packet.Some? then 1 + (if packet.value.constraints.Some? then 1 else 0) else 0);
    assert first[0] == Section("Task Snapshot", TaskType, taskText, true);
    assert packet.Some? ==> first[1] == Section("Latest Baton Packet", BatonType, packet.value.text, false);
    assert packet.Some? && packet.value.constraints.Some? ==>
             first[2] == Section("Critical Constraints", ConstraintType, packet.value.constraints.value, true);
    hide WithPacket;
  }

  /** The events of the bundle, in their order. */
  lemma BundleEvents(taskText: string, packet: Option<Packet>, routing: Option<string>, memory: Option<string>,
                     events: seq<EventView>, prior: Option<string>, i: nat)
    requires i < |events|
    ensures var bundle := Assembled(taskText, packet, routing, memory, events, prior);
            var lead := Lead(packet, routing, memory);
            lead + i < |bundle| && bundle[lead + i] == EventSection(events[i].title, events[i].content, events[i].facts)
  {
    hide EventSections, EventSection;
    EventSectionsLength(events);
    EventsInOrder(events, i);
    PreambleOrder(taskText, packet, routing, memory);
    hide Preamble;
  }

  // ---- stored plan fields ----

  /** A stored field is the joined list, or its first 250 characters. */
  lemma StoredFieldIsPrefix(items: seq<string>, separator: string)
    ensures var text, field := Join(items, separator), StoreField(items, separator);
            && field <= text && |field| == (if |text| < 250 then |text| else 250)
  {
  }
}
