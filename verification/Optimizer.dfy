/** The context optimizer: a greedy token allocator with critical overrides, summaries and references. */
module Optimizer {
  import opened EventLog
  import opened Delimited

  datatype SectionType =
    | TaskType | ConstraintType | BatonType | RoutingType | MemoryType | EventType | ToolOutput | LogOutput
    | FileContent | ErrorType | SchemaType | PatchType | PriorBundle | SummaryType | OtherType

  datatype Section = Section(title: string, kind: SectionType, content: string, critical: bool)

  /** The constraints that the schema puts on a policy are in ValidPolicy. */
  datatype Policy = Policy(
    budget: nat, layering: bool, preserve: set<SectionType>, largeContent: nat, maxBaton: nat,
    recentEvents: nat, maxEventSummary: nat, maxNoncritical: nat)

  predicate ValidPolicy(p: Policy) {
    && 256 <= p.budget <= 200_000 && p.largeContent >= 500 && p.maxBaton >= 512 && p.recentEvents <= 100
    && p.maxEventSummary >= 80 && p.maxNoncritical >= 120
  }

  predicate LogLike(kind: SectionType) {
    kind == LogOutput || kind == ToolOutput || kind == FileContent
  }

  predicate EventLike(kind: SectionType) {
    kind == EventType || kind == MemoryType
  }

  function EstimateTokens(text: string): nat {
    if text == "" then 0 else Max(1, (|text| + 3) / 4)
  }

  function Cost(s: Section): nat {
    EstimateTokens(s.content) + 10
  }

  function TotalCost(sections: seq<Section>): nat {
    if sections == [] then 0 else TotalCost(sections[..|sections| - 1]) + Cost(sections[|sections| - 1])
  }

  // ---- the rendered prompt ----

  function Render(sections: seq<Section>): string {
    if sections == [] then ""
    else
      var s := sections[|sections| - 1];
      var block := "## " + s.title + "\n" + s.content;
      if |sections| == 1 then block else Render(sections[..|sections| - 1]) + "\n\n" + block
  }

  /** How far the titles exceed 34 characters, in all. */
  function TitleExcess(sections: seq<Section>): nat {
    if sections == [] then 0
    else TitleExcess(sections[..|sections| - 1]) + Max(|sections[|sections| - 1].title| - 34, 0)
  }

  lemma {:induction false} RenderedLength(sections: seq<Section>)
    ensures |Render(sections)| <= Max(4 * TotalCost(sections) + TitleExcess(sections) - 2, 0)
  {
    if sections == [] {
    } else {
      RenderedLength(sections[..|sections| - 1]);
    }
  }

  /** Ten tokens of overhead per section pay for a title of up to 34 characters. */
  lemma RenderedTokens(sections: seq<Section>)
    ensures EstimateTokens(Render(sections)) <= TotalCost(sections) + (TitleExcess(sections) + 3) / 4
  {
    RenderedLength(sections);
  }

  // ---- shortening ----

  /** What is known of `textwrap.shorten` on compact text. */
  predicate Shortened(text: string, width: nat, r: string) {
    && |r| <= width
    && (|text| <= width ==> r == text)
    && (r == "" <==> text == "")
  }

  const PLACEHOLDER := " ..."

  /** The longest prefix of whole words that leaves room for the placeholder. */
  method Shorten(text: string, width: nat) returns (r: string)
    requires width >= 4
    ensures Shortened(text, width, r)
  {
    if |text| <= width {
      return text;
    }
    var end := width - |PLACEHOLDER|;
    while end > 0 && text[end] != ' '
      invariant 0 <= end <= width - |PLACEHOLDER|
    {
      end := end - 1;
    }
    return if end == 0 then "..." else text[..end] + PLACEHOLDER;
  }

  /** `" ".join(text.split())`: runs of white space become one blank, and the ends are trimmed. */
  function Compacted(text: string): string {
    if text == "" then ""
    else
      var n := |text| - 1;
      var before := Compacted(text[..n]);
      if IsSpace(text[n]) then before
      else if before != "" && n > 0 && IsSpace(text[n - 1]) then before + " " + [text[n]]
      else before + [text[n]]
  }

  /** White space is a single blank, and never first; `NearlyCompact` allows it at the end. */
  predicate NearlyCompact(s: string) {
    forall i :: 0 <= i < |s| && IsSpace(s[i]) ==> NearlyCompactAt(s, i)
  }

  predicate NearlyCompactAt(s: string, i: nat)
    requires i < |s|
  {
    s[i] == ' ' && i > 0 && !IsSpace(s[i - 1])
  }

  predicate IsCompact(s: string) {
    NearlyCompact(s) && (s != "" ==> !IsSpace(s[|s| - 1]))
  }

  lemma WordGrows(s: string, gap: bool, c: char)
    requires IsCompact(s) && !IsSpace(c)
    ensures IsCompact(if gap then (if s == "" then [c] else s + " " + [c]) else s + [c])
  {
    var more := if gap then (if s == "" then [c] else s + " " + [c]) else s + [c];
    forall i | 0 <= i < |more| && IsSpace(more[i]) ensures NearlyCompactAt(more, i) {
      if i < |s| {
        assert more[i] == s[i] && NearlyCompactAt(s, i);
      } else {
        assert i == |s| && s != "" && more[i - 1] == s[|s| - 1];
      }
    }
  }

  lemma {:induction false} CompactedIsCompact(text: string)
    ensures IsCompact(Compacted(text)) && |Compacted(text)| <= |text|
    ensures text != "" && IsSpace(text[|text| - 1]) ==> |Compacted(text)| < |text|
    ensures Compacted(text) == "" <==> Blank(text)
  {
    hide IsCompact, IsSpace;
    if text == "" {
      assert IsCompact("") by { NothingIsCompact(); }
    } else {
      var n := |text| - 1;
      CompactedIsCompact(text[..n]);
      assert Blank(text) <==> Blank(text[..n]) && IsSpace(text[n]);
      if !IsSpace(text[n]) {
        WordGrows(Compacted(text[..n]), n > 0 && IsSpace(text[n - 1]), text[n]);
        assert "" + [text[n]] == [text[n]];
      }
    }
  }

  lemma NothingIsCompact()
    ensures IsCompact("")
  {
  }

  lemma CompactedStep(s: string)
    requires s != ""
    ensures var n := |s| - 1;
            var before := Compacted(s[..n]);
            Compacted(s) == if IsSpace(s[n]) then before
                            else if before != "" && n > 0 && IsSpace(s[n - 1]) then before + " " + [s[n]]
                            else before + [s[n]]
  {
  }

  lemma NearlyCompactPrefix(s: string)
    requires NearlyCompact(s) && s != ""
    ensures NearlyCompact(s[..|s| - 1])
  {
    forall i | 0 <= i < |s| - 1 && IsSpace(s[i]) ensures NearlyCompactAt(s[..|s| - 1], i) {
      assert NearlyCompactAt(s, i);
    }
  }

  lemma {:induction false} NearlyCompactIsKept(s: string)
    requires NearlyCompact(s)
    ensures Compacted(s) == if s != "" && IsSpace(s[|s| - 1]) then s[..|s| - 1] else s
  {
    if s == "" {
    } else {
      var n := |s| - 1;
      NearlyCompactPrefix(s);
      NearlyCompactIsKept(s[..n]);
      CompactedStep(s);
      assert IsSpace(s[n]) ==> NearlyCompactAt(s, n);
      assert n > 0 && IsSpace(s[n - 1]) ==> NearlyCompactAt(s, n - 1);
      hide IsSpace, NearlyCompact, Compacted;
      if !IsSpace(s[n]) && n > 0 && IsSpace(s[n - 1]) {
        assert s == s[..n][..n - 1] + " " + [s[n]];
      } else if !IsSpace(s[n]) {
        assert s == s[..n] + [s[n]];
      }
    }
  }

  /** Exactly the compact texts are left as they are. */
  lemma CompactedIsIdentityIff(s: string)
    ensures Compacted(s) == s <==> IsCompact(s)
  {
    CompactedIsCompact(s);
    if IsCompact(s) {
      NearlyCompactIsKept(s);
    }
  }

  method Compact(text: string) returns (r: string)
    ensures r == Compacted(text)
  {
    r := "";
    var gap := false;
    for i := 0 to |text|
      invariant r == Compacted(text[..i])
      invariant gap <==> i > 0 && IsSpace(text[i - 1])
    {
      assert text[..i + 1][..i] == text[..i];
      if IsSpace(text[i]) {
        gap := true;
      } else {
        r := r + (if gap && r != "" then [' '] else []) + [text[i]];
        gap := false;
      }
    }
    assert text[..|text|] == text;
  }

  method Summarize(text: string, width: nat) returns (r: string)
    requires width >= 4
    ensures Shortened(Compacted(text), width, r)
    ensures |r| <= width && (r == "" <==> Blank(text))
  {
    CompactedIsCompact(text);
    var compact := Compact(text);
    r := Shorten(compact, width);
  }

  /** The last resort for a section that does not fit: a summary, or nothing. */
  method ReduceNoncritical(s: Section, p: Policy, remaining: nat) returns (r: Section)
    requires ValidPolicy(p)
    ensures r == s.(content := r.content)
    ensures r.content == "" <==> remaining < 30 || Blank(s.content)
    ensures r.content != "" ==> Cost(r) <= remaining
  {
    if remaining <= 12 {
      return s.(content := "");
    }
    var remainingChars := Max(remaining * 4 - 40, 0);
    var bounded := Min(remainingChars, p.maxEventSummary);
    if bounded < 80 {
      return s.(content := "");
    }
    var content := Summarize(s.content, bounded);
    return s.(content := content);
  }

  // ---- what becomes of one section ----

  predicate Preserved(p: Policy, s: Section) {
    s.critical || s.kind in p.preserve
  }

  predicate Referenced(p: Policy, s: Section) {
    LogLike(s.kind) && |s.content| > p.largeContent && !Preserved(p, s)
  }

  /** The summary of a blank original is empty, which the reference schema refuses. */
  predicate Unsavable(p: Policy, s: Section) {
    Referenced(p, s) && Blank(s.content)
  }

  function Digit(n: nat): char
    requires n < 10
  {
    ['0', '1', '2', '3', '4', '5', '6', '7', '8', '9'][n]
  }

  function Decimal(n: nat): string {
    if n < 10 then [Digit(n)] else Decimal(n / 10) + [Digit(n % 10)]
  }

  function CutBaton(content: string, limit: nat): string
    requires limit < |content|
  {
    content[..limit] + "\n[truncated non-critical baton details: " + Decimal(|content| - limit) + " chars]"
  }

  /** The first rewriting of a section, before the budget is looked at. */
  predicate Transformed(p: Policy, s: Section, keepFull: bool, t: Section) {
    && t == s.(content := t.content)
    && if Referenced(p, s) then t.content != ""
       else if s.kind == BatonType && |s.content| > p.maxBaton then t.content == CutBaton(s.content, p.maxBaton)
       else if EventLike(s.kind) && !keepFull && !Preserved(p, s)
       then Shortened(Compacted(s.content), p.maxEventSummary, t.content)
       else if |s.content| > p.maxNoncritical && !Preserved(p, s)
       then Shortened(Compacted(s.content), p.maxNoncritical, t.content)
       else t.content == s.content
  }

  /** A critical section passes unchanged unless it is a baton over the baton limit, which is cut. */
  lemma CriticalIsVerbatim(p: Policy, s: Section, keepFull: bool, t: Section)
    requires Transformed(p, s, keepFull, t) && s.critical
    ensures t == if s.kind == BatonType && |s.content| > p.maxBaton then s.(content := CutBaton(s.content, p.maxBaton))
                 else s
  {
    assert s.(content := s.content) == s;
  }

  // ---- the allocation ----

  function Remaining(p: Policy, spent: nat): nat {
    Max(p.budget - spent, 0)
  }

  /** What is emitted for a transformed section when `spent` tokens are already taken. */
  predicate Decided(p: Policy, t: Section, spent: nat, e: Option<Section>) {
    if spent + Cost(t) <= p.budget || t.critical then e == Some(t)
    else if Remaining(p, spent) < 30 || Blank(t.content) then e == None
    else
      && e.Some? && e.value == t.(content := e.value.content)
      && e.value.content != "" && Cost(e.value) <= Remaining(p, spent)
  }

  function Emitted(es: seq<Option<Section>>): seq<Section> {
    if es == [] then []
    else
      Emitted(es[..|es| - 1]) +
      match es[|es| - 1] case None => [] case Some(s) => [s]
  }

  function Skipped(es: seq<Option<Section>>): nat {
    if es == [] then 0 else Skipped(es[..|es| - 1]) + if es[|es| - 1].None? then 1 else 0
  }

  function Spent(es: seq<Option<Section>>): nat {
    TotalCost(Emitted(es))
  }

  /** The whole allocation, decision by decision. */
  predicate Allocated(p: Policy, ts: seq<Section>, es: seq<Option<Section>>) {
    && |ts| == |es|
    && forall i :: 0 <= i < |ts| ==> Decided(p, ts[i], Spent(es[..i]), es[i])
  }

  /** The output is an order-preserving selection: each section is emitted or skipped. */
  lemma {:induction false} EmittedPlusSkipped(es: seq<Option<Section>>)
    ensures |Emitted(es)| + Skipped(es) == |es|
  {
    if es == [] {
    } else {
      EmittedPlusSkipped(es[..|es| - 1]);
    }
  }

  /** The tokens of the critical sections that were emitted over the budget. */
  function Overflow(p: Policy, ts: seq<Section>, es: seq<Option<Section>>): nat
    requires |ts| == |es|
  {
    if ts == [] then 0
    else
      var n := |ts| - 1;
      Overflow(p, ts[..n], es[..n]) +
      if ts[n].critical && Spent(es[..n]) + Cost(ts[n]) > p.budget then Cost(ts[n]) else 0
  }

  lemma SpentLast(es: seq<Option<Section>>)
    requires es != []
    ensures Spent(es) == Spent(es[..|es| - 1]) +
              match es[|es| - 1] case None => 0 case Some(s) => Cost(s)
  {
    var before := Emitted(es[..|es| - 1]);
    match es[|es| - 1] {
      case None => assert Emitted(es) == before;
      case Some(s) => assert Emitted(es)[..|Emitted(es)| - 1] == before;
    }
  }

  lemma SpentNothing(p: Policy)
    ensures Spent([]) == 0
  {
  }

  lemma {:induction false} AllocationWithinBudget(p: Policy, ts: seq<Section>, es: seq<Option<Section>>)
    requires Allocated(p, ts, es)
    ensures Spent(es) <= p.budget + Overflow(p, ts, es)
  {
    hide Spent, Blank, EstimateTokens;
    if ts == [] {
      assert es == [];
      SpentNothing(p);
    } else {
      var n := |ts| - 1;
      assert forall i :: 0 <= i < n ==> es[..n][..i] == es[..i];
      assert Allocated(p, ts[..n], es[..n]);
      AllocationWithinBudget(p, ts[..n], es[..n]);
      SpentLast(es);
      assert Decided(p, ts[n], Spent(es[..n]), es[n]);
    }
  }

  /** The rendered prompt is within the budget, plus the critical overflow, plus a quarter of what the
      titles exceed 34 characters by. */
  lemma PromptBound(p: Policy, ts: seq<Section>, es: seq<Option<Section>>)
    requires Allocated(p, ts, es)
    ensures EstimateTokens(Render(Emitted(es)))
            <= p.budget + Overflow(p, ts, es) + (TitleExcess(Emitted(es)) + 3) / 4
  {
    AllocationWithinBudget(p, ts, es);
    RenderedTokens(Emitted(es));
  }

  /** Every critical section is emitted as it was transformed; a section is skipped exactly when it is not
      critical, does not fit, and has fewer than 30 tokens left or nothing to say. */
  lemma SkippedExactly(p: Policy, ts: seq<Section>, es: seq<Option<Section>>, i: nat)
    requires Allocated(p, ts, es) && i < |ts|
    ensures ts[i].critical || Spent(es[..i]) + Cost(ts[i]) <= p.budget ==> es[i] == Some(ts[i])
    ensures es[i].Some? && es[i] != Some(ts[i]) ==>
              && es[i].value == ts[i].(content := es[i].value.content) && es[i].value.content != ""
              && Spent(es[..i]) + Cost(es[i].value) <= p.budget
    ensures es[i] == None <==>
              && !ts[i].critical && Spent(es[..i]) + Cost(ts[i]) > p.budget
              && (Remaining(p, Spent(es[..i])) < 30 || Blank(ts[i].content))
  {
    assert Decided(p, ts[i], Spent(es[..i]), es[i]);
  }
}
