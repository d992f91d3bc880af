/** The older source view: each reference of an idea checked against the week-log index, and
    the per-reference dossier that repeats a week's markdown for every reference into it. */
module SourceLinking {
  import opened Wrappers
  import opened PyStr
  import opened Ideas
  import opened WeekLogs
  import opened Lines
  import CleanOutput

  // ---------------------------------------------------------------------------------------
  // The idea both dossier scripts pick

  /** The first idea whose `related_items` is a non-empty list. */
  function FirstWithReferences(repo: seq<Idea>): (r: Option<Idea>)
    ensures r.Some? ==> r.value in repo && r.value.relatedItems.Some? && |r.value.relatedItems.value| > 0
    ensures r.None? <==> forall i :: 0 <= i < |repo| ==> CleanOutput.RefsOf(repo[i]) == []
  {
    if |repo| == 0 then None
    else if CleanOutput.RefsOf(repo[0]) != [] then Some(repo[0])
    else
      var r := FirstWithReferences(repo[1..]);
      assert forall i :: 1 <= i < |repo| ==> repo[i] == repo[1..][i - 1];
      r
  }

  /** Every idea before the one picked has no references. */
  lemma {:induction false} FirstWithReferencesIsFirst(repo: seq<Idea>, k: nat)
    requires k < |repo| && CleanOutput.RefsOf(repo[k]) != []
    requires forall i :: 0 <= i < k ==> CleanOutput.RefsOf(repo[i]) == []
    ensures FirstWithReferences(repo) == Some(repo[k])
  {
    if k > 0 {
      FirstWithReferencesIsFirst(repo[1..], k - 1);
    }
  }

  /** The scan for the test idea: stops at the first idea with references; `None` stands for
      the "no ideas with related items" failure. */
  method PickTestIdea(repo: seq<Idea>) returns (picked: Option<Idea>)
    ensures picked == FirstWithReferences(repo)
  {
    for i := 0 to |repo|
      invariant forall j :: 0 <= j < i ==> CleanOutput.RefsOf(repo[j]) == []
    {
      if repo[i].relatedItems.Some? && repo[i].relatedItems.value != [] {
        FirstWithReferencesIsFirst(repo, i);
        return Some(repo[i]);
      }
    }
    return None;
  }

  // ---------------------------------------------------------------------------------------
  // Classifying a reference

  /** The outcome of looking a reference's record up in a week that has data. */
  datatype Lookup = SectionMissing | ItemMissing | Found(item: Item)

  /** What the linking check reports for one reference. */
  datatype Link = NoWeekData | WeekReport(lookup: Lookup, hasMarkdown: bool)

  /** The lookup outcome in a week's entry: the first record of the section with the item id. */
  function LookupIn(wd: WeekData, ref: Reference): (l: Lookup)
    ensures l.SectionMissing? <==> !CleanOutput.HasSection(wd, ref)
    ensures l.Found? ==>
      && CleanOutput.HasSection(wd, ref)
      && FirstWithId(wd.items.value[ref.SectionName()], ref.ItemName()) == Some(l.item)
    ensures l.ItemMissing? ==>
      && CleanOutput.HasSection(wd, ref)
      && forall j :: 0 <= j < |wd.items.value[ref.SectionName()]| ==>
           wd.items.value[ref.SectionName()][j].id != Some(ref.ItemName())
  {
    if !CleanOutput.HasSection(wd, ref) then SectionMissing
    else
      match FirstWithId(wd.items.value[ref.SectionName()], ref.ItemName())
      case Some(item) => Found(item)
      case None => ItemMissing
  }

  /** The classification of a reference: its week is missing, or the week reports the
      lookup outcome and, separately, whether it has markdown. */
  function Classify(ref: Reference, index: WeekIndex): (l: Link)
    ensures l.NoWeekData? <==> ref.WeekName() !in index
    ensures l.WeekReport? ==> l.lookup == LookupIn(index[ref.WeekName()], ref)
    ensures l.WeekReport? ==> (l.hasMarkdown <==> index[ref.WeekName()].markdown.Some?)
  {
    var w := ref.WeekName();
    if w !in index then NoWeekData
    else WeekReport(LookupIn(index[w], ref), index[w].markdown.Some?)
  }

  /** The lookup outcome does not depend on the markdown, and the markdown report does not
      depend on the structured data. */
  lemma ClassifyIndependence(ref: Reference, index1: WeekIndex, index2: WeekIndex)
    requires index1.Keys == index2.Keys
    ensures CleanOutput.SameStructuredData(index1, index2) && Classify(ref, index1).WeekReport? ==>
      Classify(ref, index1).lookup == Classify(ref, index2).lookup
    ensures (forall w :: w in index1 ==> index1[w].markdown == index2[w].markdown) && Classify(ref, index1).WeekReport? ==>
      Classify(ref, index1).hasMarkdown == Classify(ref, index2).hasMarkdown
  {
    var w := ref.WeekName();
    if w in index1 && CleanOutput.SameStructuredData(index1, index2) {
      assert index1[w].items == index2[w].items;
    }
  }

  /** The grouped dossier shows a reference exactly as the linking check classifies it: the
      not-found line for a missing section, nothing for a missing record, and the record
      found otherwise. */
  lemma CleanItemBlockAgreesWithClassify(ref: Reference, index: WeekIndex, dumps: Item -> string)
    requires ref.WeekName() in index
    ensures CleanOutput.ItemBlock(ref, index[ref.WeekName()], dumps) ==
      [CleanOutput.ItemHeading(ref)] +
      match Classify(ref, index).lookup
      case SectionMissing => [CleanOutput.NotFoundLine(ref), ""]
      case ItemMissing => []
      case Found(item) => ["```json", dumps(item), "```", ""]
  {
  }

  /** The linking scan for one reference, with the `found` flag of the record loop. */
  method LinkReference(ref: Reference, index: WeekIndex) returns (link: Link)
    ensures link == Classify(ref, index)
  {
    var week := ref.WeekName();
    if week !in index {
      return NoWeekData;
    }
    var wd := index[week];
    var lookup: Lookup;
    if wd.items.Some? && ref.SectionName() in wd.items.value {
      var items := wd.items.value[ref.SectionName()];
      var found := false;
      var i := 0;
      while i < |items| && !found
        invariant i <= |items|
        invariant !found ==> forall j :: 0 <= j < i ==> items[j].id != Some(ref.ItemName())
        invariant found ==> i < |items| && FirstWithId(items, ref.ItemName()) == Some(items[i])
        decreases |items| - i, if found then 0 else 1
      {
        if items[i].id == Some(ref.ItemName()) {
          FirstWithIdAt(items, ref.ItemName(), i);
          found := true;
        } else {
          i := i + 1;
        }
      }
      lookup := if found then Found(items[i]) else ItemMissing;
    } else {
      lookup := SectionMissing;
    }
    link := WeekReport(lookup, wd.markdown.Some?);
  }

  /** The linking check over the whole repository: one report per reference of each idea. */
  method LinkRepository(repo: seq<Idea>, index: WeekIndex) returns (reports: seq<seq<Link>>)
    ensures |reports| == |repo|
    ensures forall i :: 0 <= i < |repo| ==> |reports[i]| == |CleanOutput.RefsOf(repo[i])|
    ensures forall i, k :: 0 <= i < |repo| && 0 <= k < |CleanOutput.RefsOf(repo[i])| ==>
      reports[i][k] == Classify(CleanOutput.RefsOf(repo[i])[k], index)
  {
    reports := [];
    for i := 0 to |repo|
      invariant |reports| == i
      invariant forall n :: 0 <= n < i ==> |reports[n]| == |CleanOutput.RefsOf(repo[n])|
      invariant forall n, k :: 0 <= n < i && 0 <= k < |CleanOutput.RefsOf(repo[n])| ==>
        reports[n][k] == Classify(CleanOutput.RefsOf(repo[n])[k], index)
    {
      var refs := CleanOutput.RefsOf(repo[i]);
      var links: seq<Link> := [];
      for k := 0 to |refs|
        invariant |links| == k
        invariant forall m :: 0 <= m < k ==> links[m] == Classify(refs[m], index)
      {
        var link := LinkReference(refs[k], index);
        links := links + [link];
      }
      reports := reports + [links];
    }
  }

  // ---------------------------------------------------------------------------------------
  // The per-reference dossier

  const WeekPrefix := "## Week: "

  function RefHeading(ref: Reference): string {
    WeekPrefix + ref.WeekName() + " | Item: " + ref.ItemName() + " | Section: " + ref.SectionName()
  }

  /** The record part of a reference block: the first matching record, or nothing. */
  function RecordLines(wd: WeekData, ref: Reference, dumps: Item -> string): seq<string> {
    match LookupIn(wd, ref)
    case Found(item) => ["### JSON Source:", "```json", dumps(item), "```", ""]
    case _ => []
  }

  function MarkdownLines(wd: WeekData): seq<string> {
    if wd.markdown.Some? then ["### Markdown Context:", "```markdown", wd.markdown.value, "```", ""] else []
  }

  /** One reference: its heading; then, when its week has data, the record found and the
      week's whole markdown text. */
  function RefBlock(ref: Reference, index: WeekIndex, dumps: Item -> string): (r: seq<string>)
    ensures |r| >= 2 && r[0] == RefHeading(ref)
    ensures ref.WeekName() !in index ==> r == [RefHeading(ref), ""]
  {
    [RefHeading(ref), ""] +
    if ref.WeekName() in index then
      RecordLines(index[ref.WeekName()], ref, dumps) + MarkdownLines(index[ref.WeekName()])
    else []
  }

  function RefBlocks(refs: seq<Reference>, index: WeekIndex, dumps: Item -> string): seq<string> {
    if |refs| == 0 then []
    else RefBlocks(refs[..|refs| - 1], index, dumps) + RefBlock(refs[|refs| - 1], index, dumps)
  }

  function OldDossier(idea: Idea, index: WeekIndex, dumps: Item -> string): (d: seq<string>)
    ensures |d| >= |CleanOutput.Header(idea)| && d[..|CleanOutput.Header(idea)|] == CleanOutput.Header(idea)
  {
    CleanOutput.Header(idea) + RefBlocks(CleanOutput.RefsOf(idea), index, dumps)
  }

  /** The headings expected, one per reference in reference order. */
  function RefHeadings(refs: seq<Reference>): (r: seq<string>)
    ensures |r| == |refs| && forall i :: 0 <= i < |refs| ==> r[i] == RefHeading(refs[i])
  {
    if |refs| == 0 then [] else RefHeadings(refs[..|refs| - 1]) + [RefHeading(refs[|refs| - 1])]
  }

  /** No markdown text of the index starts like a reference heading (each markdown text is a
      single entry of the line list, whatever newlines it holds). */
  predicate MarkdownUnlikeHeadings(index: WeekIndex) {
    forall w :: w in index && index[w].markdown.Some? ==> !StartsWith(index[w].markdown.value, WeekPrefix)
  }

  /** A line that differs from the heading prefix in its first or third character. */
  lemma NotHeading(x: string)
    requires (|x| > 0 && x[0] != '#') || (|x| > 2 && x[2] != ' ')
    ensures !StartsWith(x, WeekPrefix)
  {
    if |x| >= |WeekPrefix| {
      assert x[..|WeekPrefix|][0] == x[0] && x[..|WeekPrefix|][2] == x[2];
    }
  }

  lemma RecordLinesUnlikeHeadings(wd: WeekData, ref: Reference, dumps: Item -> string)
    requires CleanOutput.RendersObjects(dumps)
    ensures LinesStarting(RecordLines(wd, ref, dumps), WeekPrefix) == []
  {
    var lines := RecordLines(wd, ref, dumps);
    forall i | 0 <= i < |lines|
      ensures !StartsWith(lines[i], WeekPrefix)
    {
      if lines[i] != "" {
        NotHeading(lines[i]);
      }
    }
  }

  lemma MarkdownLinesUnlikeHeadings(wd: WeekData)
    requires wd.markdown.Some? ==> !StartsWith(wd.markdown.value, WeekPrefix)
    ensures LinesStarting(MarkdownLines(wd), WeekPrefix) == []
  {
    var lines := MarkdownLines(wd);
    forall i | 0 <= i < |lines|
      ensures !StartsWith(lines[i], WeekPrefix)
    {
      if lines[i] != "" && wd.markdown != Some(lines[i]) {
        NotHeading(lines[i]);
      }
    }
  }

  lemma BlockHeadings(ref: Reference, index: WeekIndex, dumps: Item -> string)
    requires CleanOutput.RendersObjects(dumps) && MarkdownUnlikeHeadings(index)
    ensures LinesStarting(RefBlock(ref, index, dumps), WeekPrefix) == [RefHeading(ref)]
  {
    var head := [RefHeading(ref), ""];
    assert RefHeading(ref)[..|WeekPrefix|] == WeekPrefix;
    assert LinesStarting(head, WeekPrefix) == [RefHeading(ref)];
    var w := ref.WeekName();
    if w in index {
      var wd := index[w];
      RecordLinesUnlikeHeadings(wd, ref, dumps);
      MarkdownLinesUnlikeHeadings(wd);
      LinesStartingConcat(RecordLines(wd, ref, dumps), MarkdownLines(wd), WeekPrefix);
      LinesStartingConcat(head, RecordLines(wd, ref, dumps) + MarkdownLines(wd), WeekPrefix);
    }
  }

  lemma {:induction false} BlocksHeadings(refs: seq<Reference>, index: WeekIndex, dumps: Item -> string)
    requires CleanOutput.RendersObjects(dumps) && MarkdownUnlikeHeadings(index)
    ensures LinesStarting(RefBlocks(refs, index, dumps), WeekPrefix) == RefHeadings(refs)
  {
    if |refs| > 0 {
      var init := refs[..|refs| - 1];
      var ref := refs[|refs| - 1];
      BlocksHeadings(init, index, dumps);
      LinesStartingConcat(RefBlocks(init, index, dumps), RefBlock(ref, index, dumps), WeekPrefix);
      BlockHeadings(ref, index, dumps);
    }
  }

  /** The per-reference dossier has one heading per reference, in reference order. */
  lemma OldDossierHeadings(idea: Idea, index: WeekIndex, dumps: Item -> string)
    requires CleanOutput.RendersObjects(dumps) && MarkdownUnlikeHeadings(index)
    ensures LinesStarting(OldDossier(idea, index, dumps), WeekPrefix) == RefHeadings(CleanOutput.RefsOf(idea))
  {
    var refs := CleanOutput.RefsOf(idea);
    var h := CleanOutput.Header(idea);
    BlocksHeadings(refs, index, dumps);
    HeaderHasNoRefHeadings(idea);
    LinesStartingConcat(h, RefBlocks(refs, index, dumps), WeekPrefix);
  }

  lemma HeaderHasNoRefHeadings(idea: Idea)
    ensures LinesStarting(CleanOutput.Header(idea), WeekPrefix) == []
  {
    var h := CleanOutput.Header(idea);
    assert h[0][2] == 'S' && h[1][0] == 'I' && h[3] == "";
    assert h[2] == CleanOutput.Rule && CleanOutput.Rule[0] == '=';
    NotHeading(h[0]);
    NotHeading(h[1]);
    NotHeading(h[2]);
    assert CountStarting(h, WeekPrefix) == 0;
  }

  /** A week's markdown is repeated for every reference into that week. */
  lemma {:induction false} MarkdownRepeated(refs: seq<Reference>, index: WeekIndex, dumps: Item -> string, w: string)
    requires w in index && index[w].markdown.Some?
    ensures Occurrences(RefBlocks(refs, index, dumps), index[w].markdown.value) >= |CleanOutput.GroupOf(refs, w)|
  {
    if |refs| > 0 {
      var init := refs[..|refs| - 1];
      var ref := refs[|refs| - 1];
      MarkdownRepeated(init, index, dumps, w);
      OccurrencesConcat(RefBlocks(init, index, dumps), RefBlock(ref, index, dumps), index[w].markdown.value);
      if ref.WeekName() == w {
        assert index[w].markdown.value in RefBlock(ref, index, dumps);
      }
    }
  }

  /** In the per-reference dossier the week's markdown appears at least once per reference
      into the week. */
  lemma OldDossierRepeatsMarkdown(idea: Idea, index: WeekIndex, dumps: Item -> string, w: string)
    requires w in index && index[w].markdown.Some?
    ensures Occurrences(OldDossier(idea, index, dumps), index[w].markdown.value) >=
      |CleanOutput.GroupOf(CleanOutput.RefsOf(idea), w)|
  {
    var refs := CleanOutput.RefsOf(idea);
    MarkdownRepeated(refs, index, dumps, w);
    OccurrencesConcat(CleanOutput.Header(idea), RefBlocks(refs, index, dumps), index[w].markdown.value);
  }

  /** The per-reference dossier generator. */
  method BuildOldDossier(idea: Idea, index: WeekIndex, dumps: Item -> string) returns (lines: seq<string>)
    ensures lines == OldDossier(idea, index, dumps)
  {
    var refs := CleanOutput.RefsOf(idea);
    lines := CleanOutput.Header(idea);
    for k := 0 to |refs|
      invariant lines == CleanOutput.Header(idea) + RefBlocks(refs[..k], index, dumps)
    {
      ghost var done := RefBlocks(refs[..k], index, dumps);
      lines := AppendRef(lines, refs[k], index, dumps);
      assert refs[..k + 1][..k] == refs[..k];
      AppendAssoc(CleanOutput.Header(idea), done, RefBlock(refs[k], index, dumps));
    }
    assert refs[..|refs|] == refs;
  }

  /** The body of the reference loop. */
  method AppendRef(lines: seq<string>, ref: Reference, index: WeekIndex, dumps: Item -> string) returns (out: seq<string>)
    ensures out == lines + RefBlock(ref, index, dumps)
  {
    var week := ref.WeekName();
    out := lines + [RefHeading(ref), ""];
    if week in index {
      var wd := index[week];
      ghost var start := out;
      if wd.items.Some? && ref.SectionName() in wd.items.value {
        var found := FindItem(wd.items.value[ref.SectionName()], ref.ItemName());
        if found.Some? {
          out := out + ["### JSON Source:", "```json", dumps(found.value), "```", ""];
        }
      }
      assert out == start + RecordLines(wd, ref, dumps);
      if wd.markdown.Some? {
        out := out + ["### Markdown Context:", "```markdown", wd.markdown.value, "```", ""];
      }
      assert out == start + (RecordLines(wd, ref, dumps) + MarkdownLines(wd));
    }
  }
}
