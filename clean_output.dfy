/** The grouped ("clean") source dossier of an idea: its references grouped by week, each week
    shown once with its metadata, followed by the JSON records the references point to. */
module CleanOutput {
  import opened Wrappers
  import opened PyStr
  import opened Ideas
  import opened WeekLogs
  import opened Lines
  import Seqs

  // ---------------------------------------------------------------------------------------
  // Grouping the references by week

  /** The references of `refs` into week `w`, in their order. */
  function GroupOf(refs: seq<Reference>, w: string): (g: seq<Reference>)
    ensures |g| <= |refs|
    ensures forall i :: 0 <= i < |g| ==> g[i] in refs && g[i].WeekName() == w
    ensures forall i :: 0 <= i < |refs| && refs[i].WeekName() == w ==> refs[i] in g
  {
    if |refs| == 0 then []
    else
      var prefix := refs[..|refs| - 1];
      var last := refs[|refs| - 1];
      GroupOf(prefix, w) + (if last.WeekName() == w then [last] else [])
  }

  /** The test of the grouping loop: does a reference point into week `w`? */
  function InWeek(w: string): Reference -> bool {
    (r: Reference) => r.WeekName() == w
  }

  /** A week's group is `[r for r in refs if r.week == w]`: the references into that week, in
      their order and as often as they occur. */
  lemma {:induction false} GroupOfIsFilter(refs: seq<Reference>, w: string)
    ensures GroupOf(refs, w) == Seqs.Filter(InWeek(w), refs)
  {
    if |refs| > 0 {
      var prefix, last := refs[..|refs| - 1], refs[|refs| - 1];
      GroupOfIsFilter(prefix, w);
      assert prefix + [last] == refs;
      Seqs.FilterConcat(InWeek(w), prefix, [last]);
      assert [last][1..] == [];
    }
  }

  predicate NoDuplicates(ws: seq<string>) {
    forall i, j :: 0 <= i < j < |ws| ==> ws[i] != ws[j]
  }

  /** The weeks the references point into, each once, in order of first mention (the key
      order of the grouping dict). */
  function DistinctWeeks(refs: seq<Reference>): (ws: seq<string>)
    ensures NoDuplicates(ws)
    ensures forall w :: w in ws <==> GroupOf(refs, w) != []
  {
    if |refs| == 0 then []
    else
      var prev := DistinctWeeks(refs[..|refs| - 1]);
      var w := refs[|refs| - 1].WeekName();
      if w in prev then prev else prev + [w]
  }

  /** The first week listed is the week of the first reference. */
  lemma {:induction false} FirstWeekFirst(refs: seq<Reference>)
    requires |refs| > 0
    ensures |DistinctWeeks(refs)| > 0 && DistinctWeeks(refs)[0] == refs[0].WeekName()
  {
    if |refs| > 1 {
      var init := refs[..|refs| - 1];
      FirstWeekFirst(init);
      assert init[0] == refs[0];
    }
  }

  /** The position of the first reference into week `w`, or `|refs|` when none points into it. */
  function FirstMention(refs: seq<Reference>, w: string): (k: nat)
    ensures k <= |refs|
    ensures k < |refs| ==> refs[k].WeekName() == w
    ensures forall b :: 0 <= b < k ==> refs[b].WeekName() != w
  {
    if |refs| == 0 then 0
    else if refs[0].WeekName() == w then 0
    else 1 + FirstMention(refs[1..], w)
  }

  /** Every week of `ws` is mentioned in `refs`, and an earlier week of `ws` is mentioned
      first. */
  predicate InMentionOrder(refs: seq<Reference>, ws: seq<string>) {
    && (forall i :: 0 <= i < |ws| ==> FirstMention(refs, ws[i]) < |refs|)
    && (forall i, j :: 0 <= i < j < |ws| ==> FirstMention(refs, ws[i]) < FirstMention(refs, ws[j]))
  }

  /** The weeks are listed in the order of their first mention, which is the key order of the
      grouping dict. */
  lemma {:induction false} WeeksInFirstMentionOrder(refs: seq<Reference>)
    ensures InMentionOrder(refs, DistinctWeeks(refs))
  {
    if |refs| > 0 {
      var n := |refs| - 1;
      var init := refs[..n];
      WeeksInFirstMentionOrder(init);
      var prev := DistinctWeeks(init);
      PrefixMentionsKept(refs, prev);
      if refs[n].WeekName() !in prev {
        NewWeekMention(refs);
        MentionOrderSnoc(refs, prev, refs[n].WeekName());
      }
    }
  }

  /** Adding a reference keeps the order of the weeks mentioned before it. */
  lemma PrefixMentionsKept(refs: seq<Reference>, prev: seq<string>)
    requires |refs| > 0 && InMentionOrder(refs[..|refs| - 1], prev)
    ensures InMentionOrder(refs, prev)
    ensures forall i :: 0 <= i < |prev| ==> FirstMention(refs, prev[i]) < |refs| - 1
  {
    forall i | 0 <= i < |prev|
      ensures FirstMention(refs, prev[i]) == FirstMention(refs[..|refs| - 1], prev[i])
    {
      MentionInPrefix(refs, prev[i]);
    }
  }

  /** A week first mentioned after all listed ones may be listed last. */
  lemma MentionOrderSnoc(refs: seq<Reference>, prev: seq<string>, w: string)
    requires InMentionOrder(refs, prev) && FirstMention(refs, w) < |refs|
    requires forall i :: 0 <= i < |prev| ==> FirstMention(refs, prev[i]) < FirstMention(refs, w)
    ensures InMentionOrder(refs, prev + [w])
  {
    var ws := prev + [w];
    forall i | 0 <= i < |ws|
      ensures FirstMention(refs, ws[i]) < |refs|
    {
      if i < |prev| {
        assert ws[i] == prev[i];
      }
    }
    forall i, j | 0 <= i < j < |ws|
      ensures FirstMention(refs, ws[i]) < FirstMention(refs, ws[j])
    {
      assert ws[i] == prev[i];
      if j < |prev| {
        assert ws[j] == prev[j];
      }
    }
  }

  /** A position naming `w` with none before it is the first mention of `w`. */
  lemma FirstMentionIs(refs: seq<Reference>, w: string, k: nat)
    requires k < |refs| && refs[k].WeekName() == w
    requires forall b :: 0 <= b < k ==> refs[b].WeekName() != w
    ensures FirstMention(refs, w) == k
  {
  }

  /** A week mentioned before the last reference keeps its first mention. */
  lemma MentionInPrefix(refs: seq<Reference>, u: string)
    requires |refs| > 0 && FirstMention(refs[..|refs| - 1], u) < |refs| - 1
    ensures FirstMention(refs, u) == FirstMention(refs[..|refs| - 1], u)
  {
    var init := refs[..|refs| - 1];
    var k := FirstMention(init, u);
    assert refs[k].WeekName() == u && forall b :: 0 <= b < k ==> refs[b].WeekName() != u by {
      assert forall b :: 0 <= b <= k ==> refs[b] == init[b];
    }
    FirstMentionIs(refs, u, k);
  }

  /** A week first named by the last reference is first mentioned there. */
  lemma NewWeekMention(refs: seq<Reference>)
    requires |refs| > 0
    requires refs[|refs| - 1].WeekName() !in DistinctWeeks(refs[..|refs| - 1])
    ensures FirstMention(refs, refs[|refs| - 1].WeekName()) == |refs| - 1
  {
    var n := |refs| - 1;
    var w := refs[n].WeekName();
    assert forall b :: 0 <= b < n ==> refs[b].WeekName() != w by {
      var init := refs[..n];
      NotListedNotMentioned(init, w);
      assert forall b :: 0 <= b < n ==> refs[b] == init[b];
    }
    FirstMentionIs(refs, w, n);
  }

  /** A week `DistinctWeeks` does not list is named by no reference. */
  lemma {:induction false} NotListedNotMentioned(refs: seq<Reference>, w: string)
    requires w !in DistinctWeeks(refs)
    ensures forall b :: 0 <= b < |refs| ==> refs[b].WeekName() != w
  {
    if |refs| > 0 {
      var n := |refs| - 1;
      var init := refs[..n];
      NotListedNotMentioned(init, w);
      assert forall b :: 0 <= b < n ==> refs[b] == init[b];
    }
  }

  /** The grouping loop: a dict from week to its references, filled in reference order. The
      key order is returned as `weeks`. */
  method GroupByWeek(refs: seq<Reference>) returns (weeks: seq<string>, groups: map<string, seq<Reference>>)
    ensures weeks == DistinctWeeks(refs)
    ensures forall w :: w in groups <==> w in weeks
    ensures forall w :: w in groups ==> groups[w] == GroupOf(refs, w)
  {
    weeks, groups := [], map[];
    for i := 0 to |refs|
      invariant weeks == DistinctWeeks(refs[..i])
      invariant forall w :: w in groups <==> w in weeks
      invariant forall w :: w in groups ==> groups[w] == GroupOf(refs[..i], w)
    {
      assert refs[..i + 1][..i] == refs[..i];
      var week := refs[i].WeekName();
      if week !in groups {
        weeks := weeks + [week];
        groups := groups[week := []];
      }
      groups := groups[week := groups[week] + [refs[i]]];
    }
    assert refs[..|refs|] == refs;
  }

  /** The number of references whose week is in `weeks`. */
  function CountIn(refs: seq<Reference>, weeks: set<string>): nat {
    if |refs| == 0 then 0
    else CountIn(refs[..|refs| - 1], weeks) + (if refs[|refs| - 1].WeekName() in weeks then 1 else 0)
  }

  /** The total size of the groups of the listed weeks that lie in `present`. */
  function GroupSizes(refs: seq<Reference>, ws: seq<string>, present: set<string>): nat {
    if |ws| == 0 then 0
    else
      var w := ws[|ws| - 1];
      GroupSizes(refs, ws[..|ws| - 1], present) + (if w in present then |GroupOf(refs, w)| else 0)
  }

  lemma {:induction false} GroupSizesStep(refs: seq<Reference>, r: Reference, ws: seq<string>, present: set<string>)
    requires NoDuplicates(ws)
    ensures GroupSizes(refs + [r], ws, present) ==
      GroupSizes(refs, ws, present) + (if r.WeekName() in ws && r.WeekName() in present then 1 else 0)
  {
    if |ws| > 0 {
      var init := ws[..|ws| - 1];
      var w := ws[|ws| - 1];
      assert (refs + [r])[..|refs|] == refs;
      assert NoDuplicates(init);
      GroupSizesStep(refs, r, init, present);
      assert r.WeekName() == w ==> r.WeekName() !in init;
      assert r.WeekName() in ws <==> r.WeekName() in init || r.WeekName() == w;
    }
  }

  lemma {:induction false} GroupSizesTotal(refs: seq<Reference>, present: set<string>)
    ensures GroupSizes(refs, DistinctWeeks(refs), present) == CountIn(refs, present)
  {
    if |refs| > 0 {
      var init := refs[..|refs| - 1];
      var r := refs[|refs| - 1];
      assert init + [r] == refs;
      var d := DistinctWeeks(init);
      GroupSizesTotal(init, present);
      GroupSizesStep(init, r, d, present);
      if r.WeekName() !in d {
        assert GroupOf(init, r.WeekName()) == [];
        assert (d + [r.WeekName()])[..|d|] == d;
      }
    }
  }

  lemma {:induction false} CountInAll(refs: seq<Reference>, weeks: set<string>)
    requires forall i :: 0 <= i < |refs| ==> refs[i].WeekName() in weeks
    ensures CountIn(refs, weeks) == |refs|
  {
    if |refs| > 0 {
      CountInAll(refs[..|refs| - 1], weeks);
    }
  }

  /** The groups partition the references: their sizes add up to the number of references. */
  lemma GroupsPartitionReferences(refs: seq<Reference>)
    ensures GroupSizes(refs, DistinctWeeks(refs), set r | r in refs :: r.WeekName()) == |refs|
  {
    var all := set r | r in refs :: r.WeekName();
    GroupSizesTotal(refs, all);
    CountInAll(refs, all);
  }

  // ---------------------------------------------------------------------------------------
  // The dossier lines

  /** `"=" * 60` */
  const Rule: string := "==========" + "==========" + "==========" + "==========" + "==========" + "=========="
  /** `"-" * 40` */
  const Separator: string := "----------" + "----------" + "----------" + "----------"
  const MetadataTitle := "### Week Metadata:"
  const JsonSourcesTitle := "### JSON Sources:"
  const ItemPrefix := "**Item: "

  function Header(idea: Idea): seq<string> {
    ["# Source Information for: " + idea.title.GetOr("Unknown Idea"),
     "Idea ID: " + idea.ideaId.GetOr("Unknown"),
     Rule,
     ""]
  }

  function MetadataLines(md: Metadata): seq<string> {
    [MetadataTitle,
     "- Tools Used: " + Join(", ", md.toolsUsed.GetOr([])),
     "- Tags: " + Join(", ", md.tags.GetOr([])),
     "- Generated: " + md.generatedAt.GetOr("Unknown"),
     ""]
  }

  /** After its title, the metadata block holds "- " bullet lines and one empty line. */
  lemma MetadataBullets(md: Metadata)
    ensures var lines := MetadataLines(md);
      forall i :: 1 <= i < |lines| ==> lines[i] == "" || (|lines[i]| > 1 && lines[i][0] == '-' && lines[i][1] == ' ')
  {
    var lines := MetadataLines(md);
    assert lines[1][..2] == "- " by { assert lines[1] == "- Tools Used: " + Join(", ", md.toolsUsed.GetOr([])); }
    assert lines[2][..2] == "- " by { assert lines[2] == "- Tags: " + Join(", ", md.tags.GetOr([])); }
    assert lines[3][..2] == "- " by { assert lines[3] == "- Generated: " + md.generatedAt.GetOr("Unknown"); }
  }

  function ItemHeading(ref: Reference): string {
    ItemPrefix + ref.ItemName() + " | Section: " + ref.SectionName() + "**"
  }

  function NotFoundLine(ref: Reference): string {
    "\U{26A0}\U{FE0F} Item " + ref.ItemName() + " not found in section " + ref.SectionName()
  }

  function NoDataLine(w: string): string {
    "\U{26A0}\U{FE0F} No source data found for week: " + w
  }

  /** The week's entry lists the reference's section. */
  predicate HasSection(wd: WeekData, ref: Reference) {
    wd.items.Some? && ref.SectionName() in wd.items.value
  }

  /** One reference of a week that has data: its heading, then the first record of its
      section with its item id as indented JSON; the not-found line only when the section
      (or the whole `items` object) is missing, and nothing at all when the section is there
      but no record matches. */
  function ItemBlock(ref: Reference, wd: WeekData, dumps: Item -> string): (b: seq<string>)
    ensures |b| > 0 && b[0] == ItemHeading(ref)
    ensures |b| == 1 <==> HasSection(wd, ref) && FirstWithId(wd.items.value[ref.SectionName()], ref.ItemName()).None?
  {
    [ItemHeading(ref)] +
    if HasSection(wd, ref) then
      match FirstWithId(wd.items.value[ref.SectionName()], ref.ItemName())
      case Some(item) => ["```json", dumps(item), "```", ""]
      case None => []
    else [NotFoundLine(ref), ""]
  }

  function ItemBlocks(group: seq<Reference>, wd: WeekData, dumps: Item -> string): seq<string> {
    if |group| == 0 then []
    else ItemBlocks(group[..|group| - 1], wd, dumps) + ItemBlock(group[|group| - 1], wd, dumps)
  }

  function MetadataPart(wd: WeekData): seq<string> {
    if wd.metadata.Some? then MetadataLines(wd.metadata.value) else []
  }

  function WeekBody(w: string, group: seq<Reference>, index: WeekIndex, dumps: Item -> string): seq<string> {
    if w in index then MetadataPart(index[w]) + [JsonSourcesTitle, ""] + ItemBlocks(group, index[w], dumps)
    else [NoDataLine(w), ""]
  }

  /** One week: its heading, the body, and the closing separator. */
  function WeekBlock(w: string, group: seq<Reference>, index: WeekIndex, dumps: Item -> string): (b: seq<string>)
    ensures |b| >= 6 && b[0] == "## Week: " + w && b[|b| - 2] == Separator && b[|b| - 1] == ""
  {
    ["## Week: " + w, ""] + WeekBody(w, group, index, dumps) + [Separator, ""]
  }

  function WeekBlocks(ws: seq<string>, refs: seq<Reference>, index: WeekIndex, dumps: Item -> string): seq<string> {
    if |ws| == 0 then []
    else
      var w := ws[|ws| - 1];
      WeekBlocks(ws[..|ws| - 1], refs, index, dumps) + WeekBlock(w, GroupOf(refs, w), index, dumps)
  }

  /** The references of the idea (`related_items`, an empty list when absent). */
  function RefsOf(idea: Idea): seq<Reference> {
    idea.relatedItems.GetOr([])
  }

  /** The dossier's lines, before they are joined with newlines. */
  function CleanDossier(idea: Idea, index: WeekIndex, dumps: Item -> string): (d: seq<string>)
    ensures |d| >= |Header(idea)| && d[..|Header(idea)|] == Header(idea)
    ensures |d| == |Header(idea)| <==> RefsOf(idea) == []
  {
    Header(idea) + WeekBlocks(DistinctWeeks(RefsOf(idea)), RefsOf(idea), index, dumps)
  }

  // ---------------------------------------------------------------------------------------
  // What the dossier holds

  /** `json.dumps` of a record renders a JSON object, which starts with `{`. */
  ghost predicate RendersObjects(dumps: Item -> string) {
    forall it :: |dumps(it)| > 0 && dumps(it)[0] == '{'
  }

  /** A line no reference block can hold: reference blocks consist of headings (`*`), code
      fences (`` ` ``), rendered records (`{`), empty lines and not-found lines (`I` at
      offset 3, after the warning sign and a space). */
  predicate OutsideItemBlocks(x: string) {
    |x| > 3 && x[0] != '*' && x[0] != '`' && x[0] != '{' && x[3] != 'I'
  }

  lemma {:induction false} ItemBlocksAvoid(group: seq<Reference>, wd: WeekData, dumps: Item -> string, x: string)
    requires RendersObjects(dumps) && OutsideItemBlocks(x)
    ensures x !in ItemBlocks(group, wd, dumps)
  {
    if |group| > 0 {
      ItemBlocksAvoid(group[..|group| - 1], wd, dumps, x);
      var ref := group[|group| - 1];
      assert ItemHeading(ref)[0] == '*';
      assert NotFoundLine(ref)[3] == 'I';
    }
  }

  /** No line starts with `*`, so none is a reference heading. */
  lemma NoHeadings(lines: seq<string>)
    requires forall i :: 0 <= i < |lines| ==> lines[i] == "" || lines[i][0] != '*'
    ensures CountStarting(lines, ItemPrefix) == 0
  {
    forall i | 0 <= i < |lines|
      ensures !StartsWith(lines[i], ItemPrefix)
    {
      if lines[i] != "" && |lines[i]| >= |ItemPrefix| {
        assert lines[i][..|ItemPrefix|][0] == lines[i][0];
      }
    }
  }

  /** One reference's block holds exactly one `**Item: ` heading, whatever the lookup finds. */
  lemma HeadingOnce(ref: Reference, wd: WeekData, dumps: Item -> string)
    requires RendersObjects(dumps)
    ensures CountStarting(ItemBlock(ref, wd, dumps), ItemPrefix) == 1
  {
    var block := ItemBlock(ref, wd, dumps);
    assert block == [ItemHeading(ref)] + block[1..];
    assert CountStarting([ItemHeading(ref)], ItemPrefix) == 1 by {
      assert ItemHeading(ref)[..|ItemPrefix|] == ItemPrefix;
    }
    assert CountStarting(block[1..], ItemPrefix) == 0 by {
      NoHeadings(block[1..]);
    }
    CountStartingConcat([ItemHeading(ref)], block[1..], ItemPrefix);
  }

  /** Every reference block opens with exactly one heading. */
  lemma {:induction false} ItemHeadingsCounted(group: seq<Reference>, wd: WeekData, dumps: Item -> string)
    requires RendersObjects(dumps)
    ensures CountStarting(ItemBlocks(group, wd, dumps), ItemPrefix) == |group|
  {
    if |group| > 0 {
      var init := group[..|group| - 1];
      var ref := group[|group| - 1];
      ItemHeadingsCounted(init, wd, dumps);
      HeadingOnce(ref, wd, dumps);
      CountStartingConcat(ItemBlocks(init, wd, dumps), ItemBlock(ref, wd, dumps), ItemPrefix);
    }
  }

  /** One week's block holds "### JSON Sources:" once when the week has data, else never. */
  lemma JsonSourcesInWeek(w: string, group: seq<Reference>, index: WeekIndex, dumps: Item -> string)
    requires RendersObjects(dumps)
    ensures Occurrences(WeekBlock(w, group, index, dumps), JsonSourcesTitle) == if w in index then 1 else 0
  {
    var x := JsonSourcesTitle;
    var head := ["## Week: " + w, ""];
    var tail := [Separator, ""];
    if w in index {
      var wd := index[w];
      var a := head + MetadataPart(wd);
      var b := ([""] + ItemBlocks(group, wd, dumps)) + tail;
      RegroupPair(head, MetadataPart(wd), x, "", ItemBlocks(group, wd, dumps), tail);
      JsonSourcesTitleAlone(w, group, wd, dumps);
      OccursOnce(a, x, b);
    } else {
      assert x !in WeekBlock(w, group, index, dumps) by {
        assert x[2] != ("## Week: " + w)[2] && x[2] != NoDataLine(w)[2] && x[2] != Separator[2];
      }
    }
  }

  /** Around the "### JSON Sources:" line of a week with data, no other line equals it. */
  lemma JsonSourcesTitleAlone(w: string, group: seq<Reference>, wd: WeekData, dumps: Item -> string)
    requires RendersObjects(dumps)
    ensures JsonSourcesTitle !in ["## Week: " + w, ""] + MetadataPart(wd)
    ensures JsonSourcesTitle !in ([""] + ItemBlocks(group, wd, dumps)) + [Separator, ""]
  {
    var x := JsonSourcesTitle;
    assert x[2] != ("## Week: " + w)[2] && x[0] != Separator[0];
    ItemBlocksAvoid(group, wd, dumps, x);
    if wd.metadata.Some? {
      MetadataBullets(wd.metadata.value);
      assert x[4] != MetadataTitle[4];
    }
  }

  /** One week's block holds "### Week Metadata:" once when the week has metadata, else never. */
  lemma MetadataInWeek(w: string, group: seq<Reference>, index: WeekIndex, dumps: Item -> string)
    requires RendersObjects(dumps)
    ensures Occurrences(WeekBlock(w, group, index, dumps), MetadataTitle) ==
      if w in index && index[w].metadata.Some? then 1 else 0
  {
    var x := MetadataTitle;
    assert ("## Week: " + w)[2] != x[2];
    if w in index {
      ItemBlocksAvoid(group, index[w], dumps, x);
      if index[w].metadata.Some? {
        MetadataOnce(w, group, index, dumps);
      } else {
        assert x !in WeekBlock(w, group, index, dumps);
      }
    } else {
      assert x !in WeekBlock(w, group, index, dumps);
    }
  }

  lemma MetadataOnce(w: string, group: seq<Reference>, index: WeekIndex, dumps: Item -> string)
    requires w in index && index[w].metadata.Some?
    requires MetadataTitle !in ItemBlocks(group, index[w], dumps)
    ensures Occurrences(WeekBlock(w, group, index, dumps), MetadataTitle) == 1
  {
    var head := ["## Week: " + w, ""];
    var rest := AfterMetadataTitle(index[w].metadata.value, ItemBlocks(group, index[w], dumps));
    assert WeekBlock(w, group, index, dumps) == head + [MetadataTitle] + rest by {
      WeekBlockAtMetadata(w, group, index, dumps);
    }
    assert MetadataTitle !in rest by {
      AfterMetadataTitleAvoids(index[w].metadata.value, ItemBlocks(group, index[w], dumps));
    }
    assert MetadataTitle !in head by {
      assert head[0][2] != MetadataTitle[2];
    }
    OccursOnceIn(WeekBlock(w, group, index, dumps), head, MetadataTitle, rest);
  }

  /** What follows the metadata title in a week's block, given its reference blocks. */
  function AfterMetadataTitle(md: Metadata, blocks: seq<string>): seq<string> {
    MetadataLines(md)[1..] + ([JsonSourcesTitle, ""] + blocks + [Separator, ""])
  }

  lemma WeekBlockAtMetadata(w: string, group: seq<Reference>, index: WeekIndex, dumps: Item -> string)
    requires w in index && index[w].metadata.Some?
    ensures WeekBlock(w, group, index, dumps) ==
      ["## Week: " + w, ""] + [MetadataTitle] + AfterMetadataTitle(index[w].metadata.value, ItemBlocks(group, index[w], dumps))
  {
    var lines := MetadataLines(index[w].metadata.value);
    assert lines == [MetadataTitle] + lines[1..];
    Regroup(["## Week: " + w, ""], MetadataTitle, lines[1..], [JsonSourcesTitle, ""],
            ItemBlocks(group, index[w], dumps), [Separator, ""]);
  }

  lemma AfterMetadataTitleAvoids(md: Metadata, blocks: seq<string>)
    requires MetadataTitle !in blocks
    ensures MetadataTitle !in AfterMetadataTitle(md, blocks)
  {
    MetadataBullets(md);
    assert MetadataTitle[0] == '#' && MetadataTitle != JsonSourcesTitle;
  }

  /** Every week's block ends with exactly one separator. */
  lemma SeparatorInWeek(w: string, group: seq<Reference>, index: WeekIndex, dumps: Item -> string)
    requires RendersObjects(dumps)
    ensures Occurrences(WeekBlock(w, group, index, dumps), Separator) == 1
  {
    var a := ["## Week: " + w, ""] + WeekBody(w, group, index, dumps);
    SeparatorNotBefore(w, group, index, dumps);
    assert WeekBlock(w, group, index, dumps) == a + [Separator] + [""];
    OccursOnce(a, Separator, [""]);
  }

  lemma SeparatorNotBefore(w: string, group: seq<Reference>, index: WeekIndex, dumps: Item -> string)
    requires RendersObjects(dumps)
    ensures Separator !in ["## Week: " + w, ""] + WeekBody(w, group, index, dumps)
  {
    assert ("## Week: " + w)[0] != Separator[0];
    if w in index {
      ItemBlocksAvoid(group, index[w], dumps, Separator);
      if index[w].metadata.Some? {
        MetadataBullets(index[w].metadata.value);
        assert Separator[1] == '-';
      }
    } else {
      assert NoDataLine(w)[0] != Separator[0];
    }
  }

  /** One week's block holds one reference heading per reference when the week has data. */
  lemma HeadingsInWeek(w: string, group: seq<Reference>, index: WeekIndex, dumps: Item -> string)
    requires RendersObjects(dumps)
    ensures CountStarting(WeekBlock(w, group, index, dumps), ItemPrefix) == if w in index then |group| else 0
  {
    var head := ["## Week: " + w, ""];
    var body := WeekBody(w, group, index, dumps);
    var tail := [Separator, ""];
    assert CountStarting(head, ItemPrefix) == 0 && CountStarting(tail, ItemPrefix) == 0 by {
      NoHeadings(head);
      NoHeadings(tail);
    }
    assert CountStarting(body, ItemPrefix) == if w in index then |group| else 0 by {
      HeadingsInBody(w, group, index, dumps);
    }
    CountStartingConcat(head, body, ItemPrefix);
    CountStartingConcat(head + body, tail, ItemPrefix);
  }

  lemma HeadingsInBody(w: string, group: seq<Reference>, index: WeekIndex, dumps: Item -> string)
    requires RendersObjects(dumps)
    ensures CountStarting(WeekBody(w, group, index, dumps), ItemPrefix) == if w in index then |group| else 0
  {
    if w in index {
      var wd := index[w];
      var meta := MetadataPart(wd);
      assert CountStarting(meta + [JsonSourcesTitle, ""], ItemPrefix) == 0 by {
        NoHeadings(meta);
        NoHeadings([JsonSourcesTitle, ""]);
        CountStartingConcat(meta, [JsonSourcesTitle, ""], ItemPrefix);
      }
      ItemHeadingsCounted(group, wd, dumps);
      CountStartingConcat(meta + [JsonSourcesTitle, ""], ItemBlocks(group, wd, dumps), ItemPrefix);
    } else {
      NoHeadings(WeekBody(w, group, index, dumps));
    }
  }

  /** The no-data line of week `v` appears in the block of week `w` exactly when `v` is `w`
      and the week has no data. */
  lemma NoDataInWeek(w: string, group: seq<Reference>, index: WeekIndex, dumps: Item -> string, v: string)
    requires RendersObjects(dumps)
    ensures Occurrences(WeekBlock(w, group, index, dumps), NoDataLine(v)) == if v == w && w !in index then 1 else 0
  {
    var x := NoDataLine(v);
    var head := ["## Week: " + w, ""];
    var tail := [Separator, ""];
    if w in index {
      NoDataNotInPresentWeek(w, group, index, dumps, v);
    } else if v == w {
      assert x !in head + tail by {
        assert x[0] != head[0][0] && x[0] != Separator[0];
      }
      assert WeekBlock(w, group, index, dumps) == head + [x] + ([""] + tail);
      OccursOnce(head, x, [""] + tail);
    } else {
      NoDataNotInOtherWeek(w, group, index, dumps, v);
    }
  }

  lemma NoDataNotInPresentWeek(w: string, group: seq<Reference>, index: WeekIndex, dumps: Item -> string, v: string)
    requires RendersObjects(dumps) && w in index
    ensures NoDataLine(v) !in WeekBlock(w, group, index, dumps)
  {
    var x := NoDataLine(v);
    var wd := index[w];
    assert x !in ["## Week: " + w, ""] && x !in [Separator, ""] && x !in [JsonSourcesTitle, ""] by {
      assert x[0] != ("## Week: " + w)[0] && x[0] != Separator[0] && x[0] != JsonSourcesTitle[0];
    }
    assert x !in MetadataPart(wd) by {
      if wd.metadata.Some? {
        MetadataBullets(wd.metadata.value);
        assert x[0] != MetadataTitle[0];
      }
    }
    assert x !in ItemBlocks(group, wd, dumps) by {
      ItemBlocksAvoid(group, wd, dumps, x);
    }
  }

  lemma NoDataNotInOtherWeek(w: string, group: seq<Reference>, index: WeekIndex, dumps: Item -> string, v: string)
    requires w !in index && v != w
    ensures NoDataLine(v) !in WeekBlock(w, group, index, dumps)
  {
    var x := NoDataLine(v);
    assert x[0] != ("## Week: " + w)[0] && x[0] != Separator[0];
    assert NoDataLine(w) != x by {
      var p := NoDataLine("");
      assert NoDataLine(w) == p + w && x == p + v;
      assert (p + w)[|p|..] == w && (p + v)[|p|..] == v;
    }
  }

  /** The number of listed weeks that have data. */
  function PresentWeeks(ws: seq<string>, index: WeekIndex): (n: nat)
    ensures n <= |ws|
  {
    if |ws| == 0 then 0
    else PresentWeeks(ws[..|ws| - 1], index) + (if ws[|ws| - 1] in index then 1 else 0)
  }

  /** The number of listed weeks that have data with metadata. */
  function WeeksWithMetadata(ws: seq<string>, index: WeekIndex): (n: nat)
    ensures n <= PresentWeeks(ws, index)
  {
    if |ws| == 0 then 0
    else
      var w := ws[|ws| - 1];
      WeeksWithMetadata(ws[..|ws| - 1], index) + (if w in index && index[w].metadata.Some? then 1 else 0)
  }

  lemma {:induction false} CountsInWeeks(ws: seq<string>, refs: seq<Reference>, index: WeekIndex, dumps: Item -> string)
    requires RendersObjects(dumps)
    ensures var lines := WeekBlocks(ws, refs, index, dumps);
      && Occurrences(lines, JsonSourcesTitle) == PresentWeeks(ws, index)
      && Occurrences(lines, MetadataTitle) == WeeksWithMetadata(ws, index)
      && Occurrences(lines, Separator) == |ws|
      && CountStarting(lines, ItemPrefix) == GroupSizes(refs, ws, index.Keys)
  {
    if |ws| > 0 {
      var init := ws[..|ws| - 1];
      var w := ws[|ws| - 1];
      var a := WeekBlocks(init, refs, index, dumps);
      var b := WeekBlock(w, GroupOf(refs, w), index, dumps);
      CountsInWeeks(init, refs, index, dumps);
      OccurrencesConcat(a, b, JsonSourcesTitle);
      OccurrencesConcat(a, b, MetadataTitle);
      OccurrencesConcat(a, b, Separator);
      CountStartingConcat(a, b, ItemPrefix);
      JsonSourcesInWeek(w, GroupOf(refs, w), index, dumps);
      MetadataInWeek(w, GroupOf(refs, w), index, dumps);
      SeparatorInWeek(w, GroupOf(refs, w), index, dumps);
      HeadingsInWeek(w, GroupOf(refs, w), index, dumps);
    }
  }

  lemma {:induction false} NoDataInWeeks(ws: seq<string>, refs: seq<Reference>, index: WeekIndex, dumps: Item -> string, v: string)
    requires RendersObjects(dumps) && NoDuplicates(ws)
    ensures Occurrences(WeekBlocks(ws, refs, index, dumps), NoDataLine(v)) == if v in ws && v !in index then 1 else 0
  {
    if |ws| > 0 {
      var init := ws[..|ws| - 1];
      var w := ws[|ws| - 1];
      assert NoDuplicates(init);
      assert v == w ==> v !in init;
      NoDataInWeeks(init, refs, index, dumps, v);
      OccurrencesConcat(WeekBlocks(init, refs, index, dumps), WeekBlock(w, GroupOf(refs, w), index, dumps), NoDataLine(v));
      NoDataInWeek(w, GroupOf(refs, w), index, dumps, v);
    }
  }

  /** The header holds none of the lines counted below. */
  lemma HeaderHoldsNoMarkers(idea: Idea)
    ensures JsonSourcesTitle !in Header(idea) && MetadataTitle !in Header(idea) && Separator !in Header(idea)
    ensures forall v :: NoDataLine(v) !in Header(idea)
    ensures CountStarting(Header(idea), ItemPrefix) == 0
  {
    var h := Header(idea);
    assert h[2] == Rule && Rule[0] == '=';
    assert h[0][1] == ' ' && h[1][0] == 'I' && h[3] == "";
    assert JsonSourcesTitle[1] == '#' && MetadataTitle[1] == '#' && Separator[0] == '-';
    forall v ensures NoDataLine(v) !in h {
      assert NoDataLine(v)[0] == '\U{26A0}';
    }
    NoHeadings(h);
  }

  /** The dossier's shape: "### JSON Sources:" once per referenced week that has data, the
      week's metadata at most once per week (exactly for the weeks that have it), a separator
      closing each referenced week, and one heading per reference into a week with data. */
  lemma CleanDossierCounts(idea: Idea, index: WeekIndex, dumps: Item -> string)
    requires RendersObjects(dumps)
    ensures var lines := CleanDossier(idea, index, dumps);
      var ws := DistinctWeeks(RefsOf(idea));
      && Occurrences(lines, JsonSourcesTitle) == PresentWeeks(ws, index)
      && Occurrences(lines, MetadataTitle) == WeeksWithMetadata(ws, index)
      && Occurrences(lines, MetadataTitle) <= |ws|
      && Occurrences(lines, Separator) == |ws|
      && CountStarting(lines, ItemPrefix) == CountIn(RefsOf(idea), index.Keys)
  {
    var refs := RefsOf(idea);
    var ws := DistinctWeeks(refs);
    var h, body := Header(idea), WeekBlocks(ws, refs, index, dumps);
    var lines := CleanDossier(idea, index, dumps);
    assert lines == h + body;
    CountsInWeeks(ws, refs, index, dumps);
    HeaderHoldsNoMarkers(idea);
    assert Occurrences(lines, JsonSourcesTitle) == PresentWeeks(ws, index) by {
      OccurrencesConcat(h, body, JsonSourcesTitle);
    }
    assert Occurrences(lines, MetadataTitle) == WeeksWithMetadata(ws, index) by {
      OccurrencesConcat(h, body, MetadataTitle);
    }
    assert Occurrences(lines, Separator) == |ws| by {
      OccurrencesConcat(h, body, Separator);
    }
    assert CountStarting(lines, ItemPrefix) == CountIn(refs, index.Keys) by {
      GroupSizesTotal(refs, index.Keys);
      CountStartingConcat(h, body, ItemPrefix);
    }
  }

  /** A referenced week without data gets the no-data line exactly once, however many
      references point into it; no other week gets it. */
  lemma NoDataOncePerMissingWeek(idea: Idea, index: WeekIndex, dumps: Item -> string, v: string)
    requires RendersObjects(dumps)
    ensures Occurrences(CleanDossier(idea, index, dumps), NoDataLine(v)) ==
      if v in DistinctWeeks(RefsOf(idea)) && v !in index then 1 else 0
  {
    var refs := RefsOf(idea);
    var ws := DistinctWeeks(refs);
    assert CleanDossier(idea, index, dumps) == Header(idea) + WeekBlocks(ws, refs, index, dumps);
    NoDataInWeeks(ws, refs, index, dumps, v);
    HeaderHoldsNoMarkers(idea);
    OccurrencesConcat(Header(idea), WeekBlocks(ws, refs, index, dumps), NoDataLine(v));
  }

  /** Two indexes that agree on every week's structured data. */
  predicate SameStructuredData(index1: WeekIndex, index2: WeekIndex) {
    && index1.Keys == index2.Keys
    && forall w :: w in index1 ==> index1[w].metadata == index2[w].metadata && index1[w].items == index2[w].items
  }

  lemma {:induction false} ItemBlocksIgnoreMarkdown(group: seq<Reference>, wd1: WeekData, wd2: WeekData, dumps: Item -> string)
    requires wd1.items == wd2.items
    ensures ItemBlocks(group, wd1, dumps) == ItemBlocks(group, wd2, dumps)
  {
    if |group| > 0 {
      ItemBlocksIgnoreMarkdown(group[..|group| - 1], wd1, wd2, dumps);
    }
  }

  lemma {:induction false} WeekBlocksIgnoreMarkdown(ws: seq<string>, refs: seq<Reference>, index1: WeekIndex, index2: WeekIndex, dumps: Item -> string)
    requires SameStructuredData(index1, index2)
    ensures WeekBlocks(ws, refs, index1, dumps) == WeekBlocks(ws, refs, index2, dumps)
  {
    if |ws| > 0 {
      var w := ws[|ws| - 1];
      WeekBlocksIgnoreMarkdown(ws[..|ws| - 1], refs, index1, index2, dumps);
      if w in index1 {
        ItemBlocksIgnoreMarkdown(GroupOf(refs, w), index1[w], index2[w], dumps);
      }
    }
  }

  /** The dossier never shows the markdown logs: changing only the markdown of the weeks
      leaves it as it is. */
  lemma CleanDossierIgnoresMarkdown(idea: Idea, index1: WeekIndex, index2: WeekIndex, dumps: Item -> string)
    requires SameStructuredData(index1, index2)
    ensures CleanDossier(idea, index1, dumps) == CleanDossier(idea, index2, dumps)
  {
    WeekBlocksIgnoreMarkdown(DistinctWeeks(RefsOf(idea)), RefsOf(idea), index1, index2, dumps);
  }

  /** The dossier generator: groups the references, then writes each week once. */
  method BuildCleanDossier(idea: Idea, index: WeekIndex, dumps: Item -> string) returns (lines: seq<string>)
    ensures lines == CleanDossier(idea, index, dumps)
  {
    var refs := RefsOf(idea);
    var weeks, groups := GroupByWeek(refs);
    lines := AppendWeeks(Header(idea), weeks, groups, refs, index, dumps);
  }

  /** The week loop over the grouping dict, in its key order. */
  method AppendWeeks(lines: seq<string>, weeks: seq<string>, groups: map<string, seq<Reference>>,
                     ghost refs: seq<Reference>, index: WeekIndex, dumps: Item -> string)
    returns (out: seq<string>)
    requires forall w :: w in weeks ==> w in groups && groups[w] == GroupOf(refs, w)
    ensures out == lines + WeekBlocks(weeks, refs, index, dumps)
  {
    out := lines;
    for k := 0 to |weeks|
      invariant out == lines + WeekBlocks(weeks[..k], refs, index, dumps)
    {
      var w := weeks[k];
      assert w in weeks;
      ghost var done := WeekBlocks(weeks[..k], refs, index, dumps);
      ghost var block := WeekBlock(w, GroupOf(refs, w), index, dumps);
      out := AppendWeek(out, w, groups[w], index, dumps);
      WeekBlocksSnoc(weeks[..k], w, refs, index, dumps);
      assert weeks[..k + 1] == weeks[..k] + [w];
      AppendAssoc(lines, done, block);
    }
    assert weeks[..|weeks|] == weeks;
  }

  lemma WeekBlocksSnoc(ws: seq<string>, w: string, refs: seq<Reference>, index: WeekIndex, dumps: Item -> string)
    ensures WeekBlocks(ws + [w], refs, index, dumps) == WeekBlocks(ws, refs, index, dumps) + WeekBlock(w, GroupOf(refs, w), index, dumps)
  {
    assert (ws + [w])[..|ws|] == ws;
  }

  lemma ItemBlocksSnoc(group: seq<Reference>, ref: Reference, wd: WeekData, dumps: Item -> string)
    ensures ItemBlocks(group + [ref], wd, dumps) == ItemBlocks(group, wd, dumps) + ItemBlock(ref, wd, dumps)
  {
    assert (group + [ref])[..|group|] == group;
  }

  /** The body of the week loop. */
  method AppendWeek(lines: seq<string>, w: string, items: seq<Reference>, index: WeekIndex, dumps: Item -> string)
    returns (out: seq<string>)
    ensures out == lines + WeekBlock(w, items, index, dumps)
  {
    var head := ["## Week: " + w, ""];
    out := lines + head;
    out := AppendWeekBody(out, w, items, index, dumps);
    ghost var body := WeekBody(w, items, index, dumps);
    assert (lines + head) + body == lines + (head + body);
    out := out + [Separator, ""];
    assert (lines + head + body) + [Separator, ""] == lines + (head + body + [Separator, ""]);
  }

  /** What the week loop writes between the week heading and the separator. */
  method AppendWeekBody(lines: seq<string>, w: string, items: seq<Reference>, index: WeekIndex, dumps: Item -> string)
    returns (out: seq<string>)
    ensures out == lines + WeekBody(w, items, index, dumps)
  {
    if w in index {
      var wd := index[w];
      out := lines;
      if wd.metadata.Some? {
        out := out + MetadataLines(wd.metadata.value);
      }
      assert out == lines + MetadataPart(wd);
      out := out + [JsonSourcesTitle, ""];
      assert (lines + MetadataPart(wd)) + [JsonSourcesTitle, ""] == lines + (MetadataPart(wd) + [JsonSourcesTitle, ""]);
      out := AppendItems(out, items, wd, dumps);
      assert (lines + MetadataPart(wd) + [JsonSourcesTitle, ""]) + ItemBlocks(items, wd, dumps) == lines + (MetadataPart(wd) + [JsonSourcesTitle, ""] + ItemBlocks(items, wd, dumps));
    } else {
      out := lines + [NoDataLine(w), ""];
    }
  }

  /** The reference loop of one present week. */
  method AppendItems(lines: seq<string>, items: seq<Reference>, wd: WeekData, dumps: Item -> string)
    returns (out: seq<string>)
    ensures out == lines + ItemBlocks(items, wd, dumps)
  {
    out := lines;
    for m := 0 to |items|
      invariant out == lines + ItemBlocks(items[..m], wd, dumps)
    {
      ghost var done := ItemBlocks(items[..m], wd, dumps);
      out := AppendItem(out, items[m], wd, dumps);
      ItemBlocksSnoc(items[..m], items[m], wd, dumps);
      assert items[..m + 1] == items[..m] + [items[m]];
      assert (lines + done) + ItemBlock(items[m], wd, dumps) == lines + (done + ItemBlock(items[m], wd, dumps));
    }
    assert items[..|items|] == items;
  }

  /** The body of the reference loop: the heading, then the record found by the scan of its
      section, or the not-found line. */
  method AppendItem(lines: seq<string>, ref: Reference, wd: WeekData, dumps: Item -> string) returns (out: seq<string>)
    ensures out == lines + ItemBlock(ref, wd, dumps)
  {
    out := lines + [ItemHeading(ref)];
    if wd.items.Some? && ref.SectionName() in wd.items.value {
      var found := FindItem(wd.items.value[ref.SectionName()], ref.ItemName());
      if found.Some? {
        out := out + ["```json", dumps(found.value), "```", ""];
      }
    } else {
      out := out + [NotFoundLine(ref), ""];
    }
  }
}
