/** The week-log index: one entry per week, built from the structured (`.json`) log files and
    the narrative (`.md`) log files, keyed by a week name derived from each file name. */
module WeekLogs {
  import opened Wrappers
  import opened PyStr
  import opened Documents

  /** A record of one `items` section; `fields` holds its keys other than `id`, which matter
      only through the record's JSON rendering. */
  datatype Item = Item(id: Option<string>, fields: Document)

  /** A week's `metadata` object. */
  datatype Metadata = Metadata(toolsUsed: Option<seq<string>>, tags: Option<seq<string>>, generatedAt: Option<string>)

  /** One week's entry: what its JSON file holds (`metadata`, `items` by section) and the
      markdown text attached afterwards. Every key may be absent. */
  datatype WeekData = WeekData(
    metadata: Option<Metadata>,
    items: Option<map<string, seq<Item>>>,
    markdown: Option<string>)

  /** The `{}` entry created for a week that has markdown but no JSON. */
  const EmptyWeek := WeekData(None, None, None)

  type WeekIndex = map<string, WeekData>

  /** The week name of a log file: the file name with every occurrence of the extension removed
      (`name.replace(ext, '')`), not only a trailing one. */
  function WeekKey(fileName: string, ext: string): (key: string)
    requires |ext| > 0
    ensures !HasInfix(fileName, ext) ==> key == fileName
  {
    if HasInfix(fileName, ext) then RemoveAll(fileName, ext)
    else RemoveAllAbsent(fileName, ext); RemoveAll(fileName, ext)
  }

  /** For a file named after its week in the usual way, the week name is the stem. */
  lemma WeekKeyOfStem(stem: string)
    requires !HasInfix(stem, ".json")
    ensures WeekKey(stem + ".json", ".json") == stem
  {
    RemoveAllSuffix(stem, ".json");
  }

  /** Removal is a single left-to-right pass, so the week name may still hold the extension:
      the file `a.js.jsonon.json` is filed under the week `a.json`. */
  lemma WeekKeyMayKeepExtension()
    ensures WeekKey("a.js.jsonon.json", ".json") == "a.json"
    ensures HasInfix(WeekKey("a.js.jsonon.json", ".json"), ".json")
  {
    var p := ".json";
    var t := p[..3] + p + p[3..] + p;
    assert t == ".js.jsonon.json";
    assert "a.js.jsonon.json" == ['a'] + t;
    RemovalRejoins(p);
    RemoveAllCons('a', t, p, 0);
    assert "a.json" == ['a'] + p;
  }

  /** Removing `p` from `p[..3] + p + p[3..] + p` removes the two whole occurrences, and what
      is left joins up into `p` again. */
  lemma RemovalRejoins(p: string)
    requires |p| == 5
    requires p[1] != p[0] && p[2] != p[0] && p[3] != p[0] && p[4] != p[0]
    ensures RemoveAll(p[..3] + p + p[3..] + p, p) == p
  {
    var x := p[3..] + p;
    RemovalTail(p);
    RemoveAllLeading(p, x);
    RemovalHead(p, p + x);
    assert p[..3] + p + p[3..] + p == p[..3] + (p + x);
    assert p[..3] + p[3..] == p;
  }

  lemma RemovalTail(p: string)
    requires |p| == 5 && p[3] != p[0] && p[4] != p[0]
    ensures RemoveAll(p[3..] + p, p) == p[3..]
  {
    assert RemoveAll(p, p) == [] by {
      assert p[..5] == p && p[5..] == [];
    }
    RemoveAllPair(p[3], p[4], p, p, 0, 0);
    assert [p[3], p[4]] == p[3..];
    assert [p[3], p[4]] + p == p[3..] + p;
  }

  /** An occurrence at the front is removed whole. */
  lemma RemoveAllLeading(p: string, x: string)
    requires |p| > 0
    ensures RemoveAll(p + x, p) == RemoveAll(x, p)
  {
    var y := p + x;
    assert y[..|p|] == p && y[|p|..] == x;
  }

  lemma RemovalHead(p: string, y: string)
    requires |p| == 5 && p[1] != p[0] && p[2] != p[0] && p[3] != p[0]
    requires |y| >= 5 && y[0] == p[0]
    ensures RemoveAll(p[..3] + y, p) == p[..3] + RemoveAll(y, p)
  {
    var z := [p[1], p[2]] + y;
    RemoveAllPair(p[1], p[2], y, p, 0, 0);
    assert z[2] == p[0];
    RemoveAllCons(p[0], z, p, 3);
    assert [p[0]] + ([p[1], p[2]] + y) == [p[0], p[1], p[2]] + y;
    assert [p[0]] + ([p[1], p[2]] + RemoveAll(y, p)) == [p[0], p[1], p[2]] + RemoveAll(y, p);
    assert [p[0], p[1], p[2]] == p[..3];
  }

  /** Two steps of the removal pass, each at a position where the pattern does not start. */
  lemma RemoveAllPair(c1: char, c2: char, u: string, pat: string, k1: nat, k2: nat)
    requires |u| + 1 >= |pat| && k1 < |pat| && k2 < |pat|
    requires if k1 == 0 then c1 != pat[0] else ([c2] + u)[k1 - 1] != pat[k1]
    requires if k2 == 0 then c2 != pat[0] else u[k2 - 1] != pat[k2]
    ensures RemoveAll([c1, c2] + u, pat) == [c1, c2] + RemoveAll(u, pat)
  {
    var r := RemoveAll(u, pat);
    assert RemoveAll([c2] + u, pat) == [c2] + r by {
      RemoveAllCons(c2, u, pat, k2);
    }
    assert RemoveAll([c1] + ([c2] + u), pat) == [c1] + ([c2] + r) by {
      RemoveAllCons(c1, [c2] + u, pat, k1);
    }
    assert [c1] + ([c2] + u) == [c1, c2] + u;
    assert [c1] + ([c2] + r) == [c1, c2] + r;
  }

  /** One step of the removal pass at a position where the pattern does not start, because
      it differs at offset `k`. */
  lemma RemoveAllCons(c: char, t: string, pat: string, k: nat)
    requires |t| + 1 >= |pat| && k < |pat|
    requires if k == 0 then c != pat[0] else t[k - 1] != pat[k]
    ensures RemoveAll([c] + t, pat) == [c] + RemoveAll(t, pat)
  {
    assert ([c] + t)[..|pat|][k] != pat[k];
    assert ([c] + t)[1..] == t;
  }

  /** Attaching a markdown text to `week`: the week's entry is created empty if it is missing,
      only its `markdown` field is set, and every other week is left alone. */
  function AttachMarkdown(index: WeekIndex, week: string, text: string): (r: WeekIndex)
    ensures r.Keys == index.Keys + {week}
    ensures r[week].markdown == Some(text)
    ensures r[week].metadata == (if week in index then index[week].metadata else None)
    ensures r[week].items == (if week in index then index[week].items else None)
    ensures forall w :: w in index && w != week ==> r[w] == index[w]
  {
    var entry := if week in index then index[week] else EmptyWeek;
    index[week := entry.(markdown := Some(text))]
  }

  /** The index built from the JSON files, in listing order (a later file for the same week
      replaces an earlier one, see `JsonOfWeek`); `None` as soon as one file could not be read. */
  function JsonIndex(files: seq<(string, Option<WeekData>)>): (r: Option<WeekIndex>)
    ensures r.Some? <==> forall i :: 0 <= i < |files| ==> files[i].1.Some?
    ensures r.Some? ==> r.value.Keys == set i | 0 <= i < |files| :: WeekKey(files[i].0, ".json")
  {
    if |files| == 0 then Some(map[])
    else
      var last := files[|files| - 1];
      match JsonIndex(files[..|files| - 1])
      case None => None
      case Some(m) =>
        if last.1.None? then None else Some(m[WeekKey(last.0, ".json") := last.1.value])
  }

  /** A week's data is that of the last JSON file naming it. */
  lemma {:induction false} JsonOfWeek(files: seq<(string, Option<WeekData>)>, w: string, k: nat)
    requires JsonIndex(files).Some?
    requires k < |files| && WeekKey(files[k].0, ".json") == w
    requires forall i :: k < i < |files| ==> WeekKey(files[i].0, ".json") != w
    ensures var r := JsonIndex(files).value; w in r && r[w] == files[k].1.value
  {
    var prefix := files[..|files| - 1];
    if k < |files| - 1 {
      JsonOfWeek(prefix, w, k);
    }
  }

  /** The JSON index with each markdown file attached in listing order; `None` as soon as one
      file could not be read. */
  function MarkdownIndex(index: WeekIndex, files: seq<(string, Option<string>)>): (r: Option<WeekIndex>)
    ensures r.Some? <==> forall i :: 0 <= i < |files| ==> files[i].1.Some?
  {
    if |files| == 0 then Some(index)
    else
      var n := |files| - 1;
      var last := files[n];
      assert forall i :: 0 <= i < n ==> files[..n][i] == files[i];
      match MarkdownIndex(index, files[..n])
      case None => None
      case Some(m) =>
        if last.1.None? then None
        else Some(AttachMarkdown(m, WeekKey(last.0, ".md"), last.1.value))
  }

  /** The weeks of the merged index: those of the JSON index plus the week of every markdown
      file. */
  lemma {:induction false} MarkdownIndexKeys(index: WeekIndex, files: seq<(string, Option<string>)>)
    requires MarkdownIndex(index, files).Some?
    ensures MarkdownIndex(index, files).value.Keys == index.Keys + set i | 0 <= i < |files| :: WeekKey(files[i].0, ".md")
  {
    if |files| > 0 {
      var n := |files| - 1;
      MarkdownIndexKeys(index, files[..n]);
      KeysOfLast(files, ".md");
    }
  }

  /** The week keys of a file list are those of all but its last file, plus the last one's. */
  lemma KeysOfLast(files: seq<(string, Option<string>)>, ext: string)
    requires |files| > 0 && |ext| > 0
    ensures var n := |files| - 1;
      (set i | 0 <= i < |files| :: WeekKey(files[i].0, ext))
      == (set i | 0 <= i < n :: WeekKey(files[..n][i].0, ext)) + {WeekKey(files[n].0, ext)}
  {
    var n := |files| - 1;
    var all := set i | 0 <= i < |files| :: WeekKey(files[i].0, ext);
    var init := set i | 0 <= i < n :: WeekKey(files[..n][i].0, ext);
    forall k | k in all
      ensures k in init + {WeekKey(files[n].0, ext)}
    {
      var i :| 0 <= i < |files| && k == WeekKey(files[i].0, ext);
      if i < n {
        assert files[..n][i] == files[i];
      }
    }
    forall k | k in init
      ensures k in all
    {
      var i :| 0 <= i < n && k == WeekKey(files[..n][i].0, ext);
      assert files[..n][i] == files[i];
    }
  }

  /** The whole load: every file or nothing. */
  function LoadedIndex(jsonFiles: seq<(string, Option<WeekData>)>, mdFiles: seq<(string, Option<string>)>): Option<WeekIndex>
  {
    match JsonIndex(jsonFiles)
    case None => None
    case Some(m) => MarkdownIndex(m, mdFiles)
  }

  /** Markdown never disturbs the structured data: every week keeps the `metadata` and `items`
      of its JSON file, and a week known only from markdown has neither. */
  lemma {:induction false} MarkdownKeepsStructuredData(index: WeekIndex, files: seq<(string, Option<string>)>, w: string)
    requires MarkdownIndex(index, files).Some?
    requires w in MarkdownIndex(index, files).value
    ensures var r := MarkdownIndex(index, files).value;
      && r[w].metadata == (if w in index then index[w].metadata else None)
      && r[w].items == (if w in index then index[w].items else None)
  {
    if |files| > 0 {
      var prefix := files[..|files| - 1];
      var last := files[|files| - 1];
      var m := MarkdownIndex(index, prefix).value;
      if w in m {
        MarkdownKeepsStructuredData(index, prefix, w);
      } else {
        assert w == WeekKey(last.0, ".md");
        MarkdownIndexKeys(index, prefix);
      }
    }
  }

  /** A week's markdown is the text of the last markdown file naming it. */
  lemma {:induction false} MarkdownOfWeek(index: WeekIndex, files: seq<(string, Option<string>)>, w: string, k: nat)
    requires MarkdownIndex(index, files).Some?
    requires k < |files| && WeekKey(files[k].0, ".md") == w
    requires forall i :: k < i < |files| ==> WeekKey(files[i].0, ".md") != w
    ensures var r := MarkdownIndex(index, files).value; w in r && r[w].markdown == files[k].1
  {
    var prefix := files[..|files| - 1];
    if k < |files| - 1 {
      MarkdownOfWeek(index, prefix, w, k);
    }
  }

  /** A week no markdown file names keeps its JSON entry as it was, markdown included. */
  lemma {:induction false} UnnamedWeekUnchanged(index: WeekIndex, files: seq<(string, Option<string>)>, w: string)
    requires MarkdownIndex(index, files).Some?
    requires w in index
    requires forall i :: 0 <= i < |files| ==> WeekKey(files[i].0, ".md") != w
    ensures var r := MarkdownIndex(index, files).value; w in r && r[w] == index[w]
  {
    if |files| > 0 {
      var prefix := files[..|files| - 1];
      assert forall i :: 0 <= i < |prefix| ==> prefix[i] == files[i];
      UnnamedWeekUnchanged(index, prefix, w);
    }
  }

  /** The loader as both scripts run it: the JSON files, then the markdown files, each read in
      listing order; the first file that cannot be read or parsed abandons the load, which
      then yields an empty index and `false`. */
  method LoadSourceData(jsonFiles: seq<(string, Option<WeekData>)>, mdFiles: seq<(string, Option<string>)>)
    returns (index: WeekIndex, ok: bool)
    ensures ok <==> LoadedIndex(jsonFiles, mdFiles).Some?
    ensures ok ==> index == LoadedIndex(jsonFiles, mdFiles).value
    ensures !ok ==> index == map[]
  {
    var structured;
    structured, ok := LoadJsonFiles(jsonFiles);
    if !ok {
      return map[], false;
    }
    index, ok := AttachMarkdownFiles(structured, mdFiles);
  }

  /** The first file loop: each JSON file's data stored under its week. */
  method LoadJsonFiles(jsonFiles: seq<(string, Option<WeekData>)>) returns (index: WeekIndex, ok: bool)
    ensures ok <==> JsonIndex(jsonFiles).Some?
    ensures ok ==> index == JsonIndex(jsonFiles).value
  {
    index := map[];
    for i := 0 to |jsonFiles|
      invariant JsonIndex(jsonFiles[..i]) == Some(index)
    {
      assert jsonFiles[..i + 1][..i] == jsonFiles[..i];
      var (name, data) := jsonFiles[i];
      if data.None? {
        JsonPrefixFails(jsonFiles, i + 1);
        return map[], false;
      }
      index := index[WeekKey(name, ".json") := data.value];
    }
    assert jsonFiles[..|jsonFiles|] == jsonFiles;
    return index, true;
  }

  /** The second file loop: each markdown text attached to its week. */
  method AttachMarkdownFiles(structured: WeekIndex, mdFiles: seq<(string, Option<string>)>)
    returns (index: WeekIndex, ok: bool)
    ensures ok <==> MarkdownIndex(structured, mdFiles).Some?
    ensures ok ==> index == MarkdownIndex(structured, mdFiles).value
    ensures !ok ==> index == map[]
  {
    index := structured;
    for i := 0 to |mdFiles|
      invariant MarkdownIndex(structured, mdFiles[..i]) == Some(index)
    {
      assert mdFiles[..i + 1][..i] == mdFiles[..i];
      var (name, text) := mdFiles[i];
      if text.None? {
        MarkdownPrefixFails(structured, mdFiles, i + 1);
        return map[], false;
      }
      var week := WeekKey(name, ".md");
      ghost var before := index;
      if week !in index {
        index := index[week := EmptyWeek];
      }
      assert index == if week in before then before else before[week := EmptyWeek];
      index := index[week := index[week].(markdown := Some(text.value))];
      AttachInTwoSteps(before, week, text.value);
    }
    assert mdFiles[..|mdFiles|] == mdFiles;
    return index, true;
  }

  /** Attaching markdown as the loop does it: create the empty entry when it is missing, then
      set its `markdown` field. */
  lemma AttachInTwoSteps(index: WeekIndex, week: string, text: string)
    ensures var created := if week in index then index else index[week := EmptyWeek];
      created[week := created[week].(markdown := Some(text))] == AttachMarkdown(index, week, text)
  {
  }

  lemma JsonPrefixFails(files: seq<(string, Option<WeekData>)>, n: nat)
    requires n <= |files| && JsonIndex(files[..n]).None?
    ensures JsonIndex(files).None?
  {
    assert files[..n][n - 1] == files[n - 1];
  }

  lemma MarkdownPrefixFails(index: WeekIndex, files: seq<(string, Option<string>)>, n: nat)
    requires n <= |files| && MarkdownIndex(index, files[..n]).None?
    ensures MarkdownIndex(index, files).None?
  {
    assert files[..n][n - 1] == files[n - 1];
  }

  /** The record at `k` is the first of the section whose `id` equals `id`. */
  predicate FirstMatchAt(items: seq<Item>, id: string, k: int) {
    0 <= k < |items| && items[k].id == Some(id) && forall j :: 0 <= j < k ==> items[j].id != Some(id)
  }

  /** The first record of a section whose `id` equals `id`. */
  function FirstWithId(items: seq<Item>, id: string): (r: Option<Item>)
    ensures r.Some? ==> exists k :: FirstMatchAt(items, id, k) && items[k] == r.value
    ensures r.None? ==> forall j :: 0 <= j < |items| ==> items[j].id != Some(id)
  {
    if |items| == 0 then None
    else if items[0].id == Some(id) then Some(items[0])
    else
      var r := FirstWithId(items[1..], id);
      assert r.Some? ==> exists k :: FirstMatchAt(items[1..], id, k) && items[1..][k] == r.value;
      r
  }

  /** The scan for a record: walks the section until the first record with a matching `id`. */
  method FindItem(items: seq<Item>, id: string) returns (found: Option<Item>)
    ensures found == FirstWithId(items, id)
  {
    found := None;
    for i := 0 to |items|
      invariant forall j :: 0 <= j < i ==> items[j].id != Some(id)
    {
      if items[i].id == Some(id) {
        FirstWithIdAt(items, id, i);
        return Some(items[i]);
      }
    }
  }

  lemma {:induction false} FirstWithIdAt(items: seq<Item>, id: string, k: nat)
    requires k < |items| && items[k].id == Some(id)
    requires forall j :: 0 <= j < k ==> items[j].id != Some(id)
    ensures FirstWithId(items, id) == Some(items[k])
  {
    if k > 0 {
      FirstWithIdAt(items[1..], id, k - 1);
    }
  }
}
