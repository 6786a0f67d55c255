/** The delimiter encoding in which plans and child ids are stored in event data. */
module Delimited {
  import opened EventLog

  /** The characters that Python's `str.strip` and `str.split` treat as white space. */
  predicate IsSpace(c: char) {
    var n := c as int;
    || 9 <= n <= 13 || 28 <= n <= 32 || n == 133 || n == 160 || n == 5760 || 8192 <= n <= 8202
    || n == 8232 || n == 8233 || n == 8239 || n == 8287 || n == 12288
  }

  predicate Blank(s: string) {
    forall i :: 0 <= i < |s| ==> IsSpace(s[i])
  }

  function TrimLeft(s: string): string {
    if s != "" && IsSpace(s[0]) then TrimLeft(s[1..]) else s
  }

  function TrimRight(s: string): string {
    if s != "" && IsSpace(s[|s| - 1]) then TrimRight(s[..|s| - 1]) else s
  }

  function Strip(s: string): string {
    TrimRight(TrimLeft(s))
  }

  /** `str.split` with a one-character separator. */
  function Split(s: string, d: char): (pieces: seq<string>)
    ensures |pieces| >= 1
  {
    if s == "" then [""]
    else
      var rest := Split(s[1..], d);
      if s[0] == d then [""] + rest else [[s[0]] + rest[0]] + rest[1..]
  }

  /** The pieces that are not blank, stripped. */
  function Clean(pieces: seq<string>): seq<string> {
    if pieces == [] then []
    else (if Strip(pieces[0]) == "" then [] else [Strip(pieces[0])]) + Clean(pieces[1..])
  }

  function SplitDelimited(value: string, d: char): seq<string> {
    if Strip(value) == "" then [] else Clean(Split(value, d))
  }

  function Join(items: seq<string>, separator: string): string {
    if items == [] then ""
    else if |items| == 1 then items[0]
    else items[0] + separator + Join(items[1..], separator)
  }

  // ---- trimming ----

  lemma {:induction false} TrimLeftBlank(pad: string, s: string)
    requires Blank(pad)
    ensures TrimLeft(pad + s) == TrimLeft(s)
  {
    if pad == "" {
      assert pad + s == s;
    } else {
      assert (pad + s)[1..] == pad[1..] + s;
      TrimLeftBlank(pad[1..], s);
    }
  }

  lemma {:induction false} TrimRightBlank(s: string, pad: string)
    requires Blank(pad)
    ensures TrimRight(s + pad) == TrimRight(s)
  {
    if pad == "" {
      assert s + pad == s;
    } else {
      assert (s + pad)[..|s + pad| - 1] == s + pad[..|pad| - 1];
      TrimRightBlank(s, pad[..|pad| - 1]);
    }
  }

  lemma {:induction false} BlankTrims(s: string)
    ensures Blank(s) <==> TrimLeft(s) == ""
    ensures Blank(s) <==> Strip(s) == ""
  {
    BlankLeft(s);
    BlankRight(TrimLeft(s));
    if TrimLeft(s) != "" {
      LeftEdge(s);
    }
  }

  lemma {:induction false} BlankLeft(s: string)
    ensures Blank(s) <==> TrimLeft(s) == ""
  {
    if s != "" && IsSpace(s[0]) {
      BlankLeft(s[1..]);
      assert Blank(s) <==> Blank(s[1..]);
    }
  }

  lemma {:induction false} BlankRight(s: string)
    ensures Blank(s) <==> TrimRight(s) == ""
  {
    if s != "" && IsSpace(s[|s| - 1]) {
      BlankRight(s[..|s| - 1]);
      assert Blank(s) <==> Blank(s[..|s| - 1]);
    }
  }

  lemma {:induction false} LeftEdge(s: string)
    requires TrimLeft(s) != ""
    ensures !IsSpace(TrimLeft(s)[0])
  {
    if IsSpace(s[0]) {
      LeftEdge(s[1..]);
    }
  }

  lemma {:induction false} RightPrefix(s: string)
    ensures |TrimRight(s)| <= |s| && s[..|TrimRight(s)|] == TrimRight(s)
    ensures TrimRight(s) != "" ==> !IsSpace(TrimRight(s)[|TrimRight(s)| - 1])
  {
    if s != "" && IsSpace(s[|s| - 1]) {
      RightPrefix(s[..|s| - 1]);
    }
  }

  /** Items that survive the encoding: trimmed, not empty, and free of the delimiter. */
  predicate Plain(item: string, d: char) {
    Strip(item) == item && item != "" && d !in item
  }

  lemma PlainEdges(item: string, d: char)
    requires Plain(item, d)
    ensures !IsSpace(item[0]) && TrimLeft(item) == item && TrimRight(item) == item
  {
    RightPrefix(TrimLeft(item));
    LeftLength(item);
    assert TrimLeft(item) == item;
    LeftEdge(item);
  }

  lemma {:induction false} LeftLength(s: string)
    ensures |TrimLeft(s)| <= |s|
    ensures |TrimLeft(s)| == |s| ==> TrimLeft(s) == s
  {
    if s != "" && IsSpace(s[0]) {
      LeftLength(s[1..]);
    }
  }

  /** A non-empty prefix of a plain item, between blanks, is stripped on the right only. */
  lemma StripPadded(lead: string, item: string, m: nat, trail: string, d: char)
    requires Blank(lead) && Blank(trail) && Plain(item, d) && 1 <= m <= |item|
    ensures Strip(lead + item[..m] + trail) == TrimRight(item[..m]) != ""
  {
    PlainEdges(item, d);
    assert lead + item[..m] + trail == lead + (item[..m] + trail);
    TrimLeftBlank(lead, item[..m] + trail);
    assert (item[..m] + trail)[0] == item[0];
    TrimRightBlank(item[..m], trail);
    BlankRight(item[..m]);
    assert !IsSpace(item[..m][0]);
  }

  // ---- splitting ----

  lemma {:induction false} SplitAt(a: string, b: string, d: char)
    requires d !in a
    ensures Split(a + [d] + b, d) == [a] + Split(b, d)
  {
    var s := a + [d] + b;
    if a == "" {
      assert s == [d] + b && s[1..] == b;
    } else {
      assert s[1..] == a[1..] + [d] + b;
      assert d !in a[1..];
      SplitAt(a[1..], b, d);
      assert [a[0]] + a[1..] == a;
    }
  }

  lemma {:induction false} SplitNone(a: string, d: char)
    requires d !in a
    ensures Split(a, d) == [a]
  {
    if a == "" {
    } else {
      assert d !in a[1..];
      SplitNone(a[1..], d);
      assert [a[0]] + a[1..] == a;
    }
  }

  lemma CleanCons(piece: string, rest: seq<string>)
    ensures Clean([piece] + rest) == (if Strip(piece) == "" then [] else [Strip(piece)]) + Clean(rest)
  {
    assert ([piece] + rest)[1..] == rest;
  }

  lemma CleanOne(piece: string)
    ensures Clean([piece]) == if Strip(piece) == "" then [] else [Strip(piece)]
  {
    CleanCons(piece, []);
    assert [piece] + [] == [piece];
  }

  /** A separator: the delimiter between blanks, such as ", " or " | " or ",". */
  predicate Separator(before: string, d: char, after: string) {
    Blank(before) && Blank(after) && !IsSpace(d)
  }

  predicate AllPlain(items: seq<string>, d: char) {
    forall i :: 0 <= i < |items| ==> Plain(items[i], d)
  }

  lemma NoDelimiterInBlank(s: string, d: char)
    requires Blank(s) && !IsSpace(d)
    ensures d !in s
  {
  }

  // ---- the round trip, with a cut ----

  /** What reading back the first characters of the encoding may give: a prefix of the items, and
      perhaps one right-trimmed non-empty prefix of the next item. */
  ghost predicate CutOf(items: seq<string>, read: seq<string>) {
    exists k: nat, m: nat :: IsCut(items, read, k, m)
  }

  predicate IsCut(items: seq<string>, read: seq<string>, k: nat, m: nat) {
    k <= |items| &&
    if m == 0 then read == items[..k]
    else
      && k < |items| && m <= |items[k]|
      && TrimRight(items[k][..m]) != "" && read == items[..k] + [TrimRight(items[k][..m])]
  }

  lemma LeadCut(lead: string, more: string, d: char, n: nat)
    requires Blank(lead) && !IsSpace(d) && n <= |lead|
    ensures Clean(Split((lead + more)[..n], d)) == []
  {
    assert (lead + more)[..n] == lead[..n];
    BlankSplits(lead[..n], d);
  }

  lemma ItemCut(lead: string, item: string, more: string, d: char, n: nat)
    requires Blank(lead) && Plain(item, d) && !IsSpace(d) && |lead| < n <= |lead + item|
    ensures Clean(Split((lead + item + more)[..n], d)) == [TrimRight(item[..n - |lead|])]
    ensures TrimRight(item[..n - |lead|]) != ""
  {
    var m := n - |lead|;
    assert (lead + item + more)[..n] == lead + item[..m] + "";
    OnePiece(lead, item, m, "", d);
  }

  lemma PadCut(lead: string, item: string, before: string, more: string, d: char, n: nat)
    requires Blank(lead) && Blank(before) && Plain(item, d) && !IsSpace(d)
    requires |lead + item| < n <= |lead + item + before|
    ensures Clean(Split((lead + item + before + more)[..n], d)) == [item]
  {
    var pad := before[..n - |lead + item|];
    assert (lead + item + before + more)[..n] == lead + item[..|item|] + pad;
    OnePiece(lead, item, |item|, pad, d);
    WholeItem(item, d);
  }

  lemma PastCut(lead: string, item: string, before: string, d: char, rest: string)
    requires Blank(lead) && Blank(before) && Plain(item, d) && !IsSpace(d)
    ensures Clean(Split(lead + item + before + [d] + rest, d)) == [item] + Clean(Split(rest, d))
  {
    var piece := lead + item + before;
    NoDelimiterInBlank(lead, d);
    NoDelimiterInBlank(before, d);
    SplitAt(piece, rest, d);
    CleanCons(piece, Split(rest, d));
    assert piece == lead + item[..|item|] + before;
    StripPadded(lead, item, |item|, before, d);
    WholeItem(item, d);
  }

  lemma {:induction false} CutReads(lead: string, items: seq<string>, before: string, d: char, after: string, n: nat)
    returns (k: nat, m: nat)
    requires Separator(before, d, after) && AllPlain(items, d) && Blank(lead)
    requires n <= |lead + Join(items, before + [d] + after)|
    ensures IsCut(items, Clean(Split((lead + Join(items, before + [d] + after))[..n], d)), k, m)
    ensures n == |lead + Join(items, before + [d] + after)| ==> k == |items| && m == 0
    decreases |items|
  {
    hide Clean, Split, Plain, TrimRight, Blank;
    var text := Join(items, before + [d] + after);
    if n <= |lead| {
      LeadCut(lead, text, d, n);
      k, m := 0, 0;
      if n == |lead + text| {
        JoinIsNotEmpty(items, before, d, after);
      }
    } else {
      var item := items[0];
      var more := if |items| == 1 then "" else before + [d] + after + Join(items[1..], before + [d] + after);
      WholeItem(item, d);
      assert lead + text == lead + item + more;
      if n <= |lead + item| {
        ItemCut(lead, item, more, d, n);
        k, m := if n == |lead + item| then 1 else 0, if n == |lead + item| then 0 else n - |lead|;
        if n == |lead + text| {
          assert more == "";
        }
      } else {
        var tail := after + Join(items[1..], before + [d] + after);
        assert lead + text == lead + item + before + ([d] + tail);
        if n <= |lead + item + before| {
          PadCut(lead, item, before, [d] + tail, d, n);
          k, m := 1, 0;
        } else {
          var rest := n - |lead + item + before| - 1;
          assert (lead + text)[..n] == lead + item + before + [d] + tail[..rest];
          PastCut(lead, item, before, d, tail[..rest]);
          k, m := CutReads(after, items[1..], before, d, after, rest);
          assert items[..k + 1] == [item] + items[1..][..k];
          k := k + 1;
        }
      }
    }
  }

  lemma JoinIsNotEmpty(items: seq<string>, before: string, d: char, after: string)
    requires AllPlain(items, d)
    ensures Join(items, before + [d] + after) == "" ==> items == []
  {
    if items != [] {
      assert Plain(items[0], d);
    }
  }

  lemma WholeItem(item: string, d: char)
    requires Plain(item, d)
    ensures item[..|item|] == item && TrimRight(item) == item
  {
    PlainEdges(item, d);
  }

  lemma OnePiece(lead: string, item: string, m: nat, trail: string, d: char)
    requires Blank(lead) && Blank(trail) && Plain(item, d) && 1 <= m <= |item| && !IsSpace(d)
    ensures Clean(Split(lead + item[..m] + trail, d)) == [TrimRight(item[..m])]
    ensures TrimRight(item[..m]) != ""
  {
    var piece := lead + item[..m] + trail;
    NoDelimiterInBlank(lead, d);
    NoDelimiterInBlank(trail, d);
    assert d !in item[..m];
    SplitNone(piece, d);
    StripPadded(lead, item, m, trail, d);
    CleanOne(piece);
  }

  lemma BlankSplits(s: string, d: char)
    requires Blank(s) && !IsSpace(d)
    ensures Clean(Split(s, d)) == []
  {
    NoDelimiterInBlank(s, d);
    SplitNone(s, d);
    BlankTrims(s);
    CleanOne(s);
  }

  lemma SplitIsClean(s: string, d: char)
    requires !IsSpace(d)
    ensures SplitDelimited(s, d) == Clean(Split(s, d))
  {
    BlankTrims(s);
    if Blank(s) {
      BlankSplits(s, d);
    }
  }

  /** After a cut to n characters (250 for the fields of an execute plan), reading back gives a prefix
      of the items plus at most one right-trimmed non-empty prefix of the next one. */
  lemma CutRoundTrip(items: seq<string>, before: string, d: char, after: string, n: nat)
    requires Separator(before, d, after) && AllPlain(items, d)
    requires n <= |Join(items, before + [d] + after)|
    ensures CutOf(items, SplitDelimited(Join(items, before + [d] + after)[..n], d))
  {
    var text := Join(items, before + [d] + after);
    assert "" + text == text;
    var k, m := CutReads("", items, before, d, after, n);
    SplitIsClean(text[..n], d);
  }

  lemma {:induction false} CleanIsPlain(pieces: seq<string>, d: char, i: nat)
    requires forall j :: 0 <= j < |pieces| ==> d !in pieces[j]
    requires i < |Clean(pieces)|
    ensures Plain(Clean(pieces)[i], d)
  {
    var first := if Strip(pieces[0]) == "" then [] else [Strip(pieces[0])];
    if i < |first| {
      StripTwice(pieces[0]);
      StripWithin(pieces[0], d);
    } else {
      CleanIsPlain(pieces[1..], d, i - |first|);
    }
  }

  lemma {:induction false} StripTwice(s: string)
    ensures Strip(Strip(s)) == Strip(s)
  {
    var left := TrimLeft(s);
    RightPrefix(left);
    if Strip(s) != "" {
      LeftEdge(s);
      assert Strip(s)[0] == left[0];
    }
  }

  lemma {:induction false} StripWithin(s: string, d: char)
    requires d !in s
    ensures d !in Strip(s)
  {
    LeftWithin(s, d);
    RightPrefix(TrimLeft(s));
  }

  lemma {:induction false} LeftWithin(s: string, d: char)
    requires d !in s
    ensures d !in TrimLeft(s)
  {
    if s != "" && IsSpace(s[0]) {
      LeftWithin(s[1..], d);
    }
  }

  lemma {:induction false} PiecesAreFree(s: string, d: char)
    ensures forall j :: 0 <= j < |Split(s, d)| ==> d !in Split(s, d)[j]
  {
    if s == "" {
    } else {
      PiecesAreFree(s[1..], d);
    }
  }

  /** Uncut, the items come back exactly when every one of them is trimmed, not empty and free of the
      delimiter.  Child ids are written with "," and never cut. */
  lemma RoundTrip(items: seq<string>, before: string, d: char, after: string)
    requires Separator(before, d, after)
    ensures SplitDelimited(Join(items, before + [d] + after), d) == items <==> AllPlain(items, d)
  {
    var text := Join(items, before + [d] + after);
    SplitIsClean(text, d);
    if AllPlain(items, d) {
      assert "" + text == text && text[..|text|] == text;
      var k, m := CutReads("", items, before, d, after, |text|);
      assert items[..|items|] == items;
    }
    if Clean(Split(text, d)) == items {
      PiecesAreFree(text, d);
      forall i | 0 <= i < |items| ensures Plain(items[i], d) {
        CleanIsPlain(Split(text, d), d, i);
      }
    }
  }

  // ---- child ids ----

  predicate IsHexDigit(c: char) {
    '0' <= c <= '9' || 'a' <= c <= 'f'
  }

  /** The text of a UUID: 36 characters, hexadecimal digits and hyphens. */
  predicate IsUuidText(s: string) {
    |s| == 36 && forall i :: 0 <= i < |s| ==> IsHexDigit(s[i]) || s[i] == '-'
  }

  lemma {:induction false} NoSpaceNoTrim(s: string)
    requires forall i :: 0 <= i < |s| ==> !IsSpace(s[i])
    ensures Strip(s) == s
  {
    assert TrimLeft(s) == s;
    assert TrimRight(s) == s;
  }

  lemma UuidIsPlain(id: string)
    requires IsUuidText(id)
    ensures Plain(id, ',')
  {
    NoSpaceNoTrim(id);
  }

  /** Child ids, joined by "," and never cut, come back exactly. */
  lemma ChildIdsRoundTrip(ids: seq<string>)
    requires forall i :: 0 <= i < |ids| ==> IsUuidText(ids[i])
    ensures SplitDelimited(Join(ids, ","), ',') == ids
  {
    hide Plain, IsUuidText, SplitDelimited, Join;
    forall i | 0 <= i < |ids| ensures Plain(ids[i], ',') {
      UuidIsPlain(ids[i]);
    }
    assert "" + [','] + "" == ",";
    RoundTrip(ids, "", ',', "");
  }

  // ---- execute plans ----

  const FIELD_LIMIT := 250

  /** A list field of an execute plan as it is stored: joined, then cut to 250 characters. */
  function StoreField(items: seq<string>, separator: string): string {
    var text := Join(items, separator);
    text[..Min(|text|, FIELD_LIMIT)]
  }

  /** The execute gate's test on a stored plan. */
  predicate Concrete(objective: string, actions: string, targets: string, commands: string) {
    && Strip(objective) != ""
    && (SplitDelimited(commands, ',') != [] || SplitDelimited(targets, ',') != [] || SplitDelimited(actions, '|') != [])
  }

  /** Some character is neither white space nor the delimiter. */
  predicate Ink(s: string, d: char) {
    exists i :: 0 <= i < |s| && !IsSpace(s[i]) && s[i] != d
  }

  lemma InkTail(s: string, d: char)
    requires s != ""
    ensures Ink(s, d) <==> (!IsSpace(s[0]) && s[0] != d) || Ink(s[1..], d)
  {
    if Ink(s[1..], d) {
      var i :| 0 <= i < |s[1..]| && !IsSpace(s[1..][i]) && s[1..][i] != d;
      assert s[i + 1] == s[1..][i];
    }
    if Ink(s, d) {
      var i :| 0 <= i < |s| && !IsSpace(s[i]) && s[i] != d;
      assert i > 0 ==> s[1..][i - 1] == s[i];
    }
  }

  lemma CleanPieces(pieces: seq<string>)
    requires pieces != []
    ensures Clean(pieces) == [] <==> Blank(pieces[0]) && Clean(pieces[1..]) == []
  {
    BlankTrims(pieces[0]);
  }

  /** Reading back gives some item exactly when the text has ink. */
  lemma {:induction false} InkReads(s: string, d: char)
    requires !IsSpace(d)
    ensures Clean(Split(s, d)) == [] <==> !Ink(s, d)
  {
    hide Clean;
    CleanPieces(Split(s, d));
    if s == "" {
      assert Split(s, d) == [""] && [""][1..] == [];
      CleanNothing();
      NoInk(s, d);
    } else {
      var rest := Split(s[1..], d);
      InkReads(s[1..], d);
      InkTail(s, d);
      CleanPieces(rest);
      if s[0] == d {
        assert Split(s, d)[1..] == rest;
      } else {
        assert Split(s, d) == [[s[0]] + rest[0]] + rest[1..];
        assert Split(s, d)[1..] == rest[1..];
        assert Blank([s[0]] + rest[0]) <==> IsSpace(s[0]) && Blank(rest[0]) by { BlankFront(s[0], rest[0]); }
      }
    }
  }

  lemma CleanNothing()
    ensures Clean([]) == []
  {
  }

  lemma BlankFront(c: char, s: string)
    ensures Blank([c] + s) <==> IsSpace(c) && Blank(s)
  {
    assert ([c] + s)[0] == c;
    assert forall i :: 0 <= i < |s| ==> ([c] + s)[i + 1] == s[i];
  }

  /** Uncut, the joined items have ink exactly when one of them has: an item of delimiters and white space
      alone reads back as missing. */
  lemma {:induction false} JoinedInk(items: seq<string>, before: string, d: char, after: string)
    requires Separator(before, d, after)
    ensures Ink(Join(items, before + [d] + after), d) <==> exists i :: 0 <= i < |items| && Ink(items[i], d)
  {
    hide Ink;
    var separator := before + [d] + after;
    if items == [] {
      assert !Ink("", d) by { NoInk("", d); }
    } else if |items| == 1 {
      assert Join(items, separator) == items[0];
    } else {
      var rest := Join(items[1..], separator);
      assert Join(items, separator) == items[0] + separator + rest;
      InkConcat(items[0] + separator, rest, d);
      InkConcat(items[0], separator, d);
      NoInk(separator, d);
      JoinedInk(items[1..], before, d, after);
      assert forall i :: 1 <= i < |items| ==> items[i] == items[1..][i - 1];
      assert forall i :: 0 <= i < |items| - 1 ==> items[1..][i] == items[i + 1];
    }
  }

  lemma NoInk(s: string, d: char)
    requires forall i :: 0 <= i < |s| ==> IsSpace(s[i]) || s[i] == d
    ensures !Ink(s, d)
  {
  }

  lemma InkConcat(s: string, t: string, d: char)
    ensures Ink(s + t, d) <==> Ink(s, d) || Ink(t, d)
  {
    if Ink(s, d) {
      var i :| 0 <= i < |s| && !IsSpace(s[i]) && s[i] != d;
      assert (s + t)[i] == s[i];
    }
    if Ink(t, d) {
      var i :| 0 <= i < |t| && !IsSpace(t[i]) && t[i] != d;
      assert (s + t)[|s| + i] == t[i];
    }
  }

  /** A stored field, cut or not, reads back empty exactly when it has no ink; with plain items, exactly
      when there was no item. */
  lemma FieldKeepsItems(items: seq<string>, before: string, d: char, after: string)
    requires Separator(before, d, after)
    ensures var field := StoreField(items, before + [d] + after);
            && (SplitDelimited(field, d) == [] <==> !Ink(field, d))
            && (AllPlain(items, d) ==> (SplitDelimited(field, d) == [] <==> items == []))
  {
    var field := StoreField(items, before + [d] + after);
    SplitIsClean(field, d);
    InkReads(field, d);
    if items == [] {
      assert field == "";
    } else if AllPlain(items, d) {
      assert Plain(items[0], d);
      PlainEdges(items[0], d);
      assert field[0] == items[0][0];
    }
  }

  /** An execute plan reads back as concrete exactly when its stored objective is not blank and one of its
      stored lists has a character that is neither white space nor its delimiter, whatever the items are. */
  lemma PlanReadsBackExactly(objective: string, actions: seq<string>, targets: seq<string>, commands: seq<string>)
    ensures var a, t, c := StoreField(actions, " | "), StoreField(targets, ", "), StoreField(commands, ", ");
            Concrete(objective, a, t, c) <==> Strip(objective) != "" && (Ink(a, '|') || Ink(t, ',') || Ink(c, ','))
  {
    hide Ink, StoreField, AllPlain, SplitDelimited;
    assert " " + ['|'] + " " == " | " && "" + [','] + " " == ", ";
    FieldKeepsItems(actions, " ", '|', " ");
    FieldKeepsItems(targets, "", ',', " ");
    FieldKeepsItems(commands, "", ',', " ");
  }

  /** In particular, with plain items the plan is concrete exactly when its stored objective is not blank
      and one of its lists has an item. */
  lemma PlanReadsBackConcrete(objective: string, actions: seq<string>, targets: seq<string>, commands: seq<string>)
    requires AllPlain(actions, '|') && AllPlain(targets, ',') && AllPlain(commands, ',')
    ensures Concrete(objective, StoreField(actions, " | "), StoreField(targets, ", "), StoreField(commands, ", "))
            <==> Strip(objective) != "" && (actions != [] || targets != [] || commands != [])
  {
    hide Ink, StoreField, AllPlain, SplitDelimited;
    assert " " + ['|'] + " " == " | " && "" + [','] + " " == ", ";
    FieldKeepsItems(actions, " ", '|', " ");
    FieldKeepsItems(targets, "", ',', " ");
    FieldKeepsItems(commands, "", ',', " ");
  }
}
