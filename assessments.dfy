/** Assessment documents: the file name that keys an idea's assessment of a given type, its
    inverse parse, the per-type required fields, and the listing filter. */
module Assessments {
  import opened Wrappers
  import opened PyStr
  import opened Seqs
  import opened Documents
  import opened Ideas

  datatype AssessmentType = Trend | Maturity
  {
    /** The type's name as it appears in file names. */
    function Name(): string {
      match this
      case Trend => "trend"
      case Maturity => "maturity"
    }

    /** The keys a document of this type must carry. */
    function RequiredFields(): seq<string> {
      match this
      case Trend => ["trend_score", "justification", "suggested_tags"]
      case Maturity => ["maturity_score", "justification", "suggested_next_steps"]
    }
  }

  /** `f"{idea_id}_{assessment_type}.json"` */
  function AssessmentKey(ideaId: string, typeName: string): (key: string)
    ensures |key| == |ideaId| + 1 + |typeName| + 5
    ensures key[..|ideaId|] == ideaId && key[|ideaId|] == '_'
    ensures key[|ideaId| + 1..|key| - 5] == typeName && key[|key| - 5..] == ".json"
  {
    ideaId + "_" + typeName + ".json"
  }

  /** The file-name parse: drop every `.json`, split on `_`; with at least two parts, the last
      is the type and the others, re-joined with `_`, the idea id. */
  function ParseAssessmentFileName(fileName: string): (r: Option<(string, string)>)
    ensures r.Some? <==> '_' in RemoveAll(fileName, ".json")
    ensures r.Some? ==> '_' !in r.value.1
  {
    var parts := Split(RemoveAll(fileName, ".json"), '_');
    SplitPieces(RemoveAll(fileName, ".json"), '_');
    if |parts| >= 2 then Some((Join("_", parts[..|parts| - 1]), parts[|parts| - 1])) else None
  }

  /** Parsing inverts composition whenever the type holds no `_` and neither part holds
      `.json`; the idea id may hold `_`. */
  lemma ParseComposeRoundTrip(ideaId: string, typeName: string)
    requires '_' !in typeName
    requires !HasInfix(ideaId, ".json") && !HasInfix(typeName, ".json")
    ensures ParseAssessmentFileName(AssessmentKey(ideaId, typeName)) == Some((ideaId, typeName))
  {
    var stem := ideaId + ['_'] + typeName;
    assert AssessmentKey(ideaId, typeName) == stem + ".json";
    assert ".json"[0] !in ".json"[1..];
    NoInfixAcross(ideaId, '_', typeName, ".json");
    RemoveAllSuffix(stem, ".json");
    SplitConcat(ideaId, '_', typeName);
    SplitWithoutSeparator(typeName, '_');
    var parts := Split(stem, '_');
    assert parts == Split(ideaId, '_') + [typeName];
    assert parts[..|parts| - 1] == Split(ideaId, '_');
    JoinSplit(ideaId, '_');
  }

  /** Keys of well-formed parts never collide: equal keys mean equal idea ids and types. */
  lemma AssessmentKeyInjective(id1: string, t1: string, id2: string, t2: string)
    requires '_' !in t1 && '_' !in t2
    requires !HasInfix(id1, ".json") && !HasInfix(t1, ".json")
    requires !HasInfix(id2, ".json") && !HasInfix(t2, ".json")
    requires AssessmentKey(id1, t1) == AssessmentKey(id2, t2)
    ensures id1 == id2 && t1 == t2
  {
    ParseComposeRoundTrip(id1, t1);
    ParseComposeRoundTrip(id2, t2);
  }

  /** An idea's trend and maturity assessments live under different keys, whatever the id. */
  lemma TrendAndMaturityKeysDiffer(ideaId: string)
    ensures AssessmentKey(ideaId, Trend.Name()) != AssessmentKey(ideaId, Maturity.Name())
  {
    assert |AssessmentKey(ideaId, Trend.Name())| + 3 == |AssessmentKey(ideaId, Maturity.Name())|;
  }

  /** A name without `.` holds no `.json`. */
  lemma {:induction false} NoDot(s: string)
    requires '.' !in s
    ensures !HasInfix(s, ".json")
  {
    if |s| > 0 {
      assert s[0] in s;
      assert forall c :: c in s[1..] ==> c in s;
      NoDot(s[1..]);
    }
  }

  /** The key of a trend or maturity assessment parses back into its idea id and type. */
  lemma TypedKeyRoundTrip(ideaId: string, t: AssessmentType)
    requires !HasInfix(ideaId, ".json")
    ensures ParseAssessmentFileName(AssessmentKey(ideaId, t.Name())) == Some((ideaId, t.Name()))
  {
    NoDot(t.Name());
    ParseComposeRoundTrip(ideaId, t.Name());
  }

  /** The document check of the format tests: the document was read and parsed (`None` when
      that failed) and lacks none of the type's required fields. */
  function FormatValid(t: AssessmentType, parsed: Option<Document>): (ok: bool)
    ensures ok <==> parsed.Some? && forall f :: f in t.RequiredFields() ==> f in parsed.value
  {
    parsed.Some? && MissingFields(t.RequiredFields(), parsed.value.Keys) == []
  }

  /** `file.endswith('.json')` */
  predicate IsJsonName(name: string) {
    EndsWith(name, ".json")
  }

  /** The listing scan: keeps the `.json` names in listing order; the check passes when the
      directory exists and at least one name is kept. */
  method FilterJsonFiles(listing: Option<seq<string>>) returns (files: seq<string>, ok: bool)
    ensures listing.None? ==> files == [] && !ok
    ensures listing.Some? ==> files == Filter(IsJsonName, listing.value)
    ensures ok <==> listing.Some? && exists i :: 0 <= i < |listing.value| && IsJsonName(listing.value[i])
  {
    if listing.None? {
      return [], false;
    }
    files := JsonNames(listing.value);
    ok := |files| > 0;
    FilterNonEmpty(IsJsonName, listing.value);
  }

  /** The loop of the scan over the listing. */
  method JsonNames(names: seq<string>) returns (files: seq<string>)
    ensures files == Filter(IsJsonName, names)
  {
    files := [];
    for i := 0 to |names|
      invariant files == Filter(IsJsonName, names[..i])
    {
      assert Filter(IsJsonName, names[..i + 1]) ==
        Filter(IsJsonName, names[..i]) + if IsJsonName(names[i]) then [names[i]] else [] by {
        FilterConcat(IsJsonName, names[..i], [names[i]]);
        assert names[..i + 1] == names[..i] + [names[i]];
      }
      if EndsWith(names[i], ".json") {
        files := files + [names[i]];
      }
    }
    assert names[..|names|] == names;
  }

  /** The lookup of the test idea: the first record whose `idea_id` is `id`. */
  function FirstIdeaWithId(repo: seq<Idea>, id: string): (r: Option<Idea>)
    ensures r.Some? ==> r.value in repo && r.value.ideaId == Some(id)
    ensures r.None? <==> forall i :: 0 <= i < |repo| ==> repo[i].ideaId != Some(id)
  {
    if |repo| == 0 then None
    else if repo[0].ideaId == Some(id) then Some(repo[0])
    else
      var r := FirstIdeaWithId(repo[1..], id);
      assert forall i :: 1 <= i < |repo| ==> repo[i] == repo[1..][i - 1];
      r
  }

  lemma {:induction false} FirstIdeaWithIdAt(repo: seq<Idea>, id: string, k: nat)
    requires k < |repo| && repo[k].ideaId == Some(id)
    requires forall j :: 0 <= j < k ==> repo[j].ideaId != Some(id)
    ensures FirstIdeaWithId(repo, id) == Some(repo[k])
  {
    if k > 0 {
      FirstIdeaWithIdAt(repo[1..], id, k - 1);
    }
  }

  /** The integration check's scan for its test idea, stopping at the first match. */
  method FindIdea(repo: seq<Idea>, id: string) returns (found: Option<Idea>)
    ensures found == FirstIdeaWithId(repo, id)
  {
    for i := 0 to |repo|
      invariant forall j :: 0 <= j < i ==> repo[j].ideaId != Some(id)
    {
      if repo[i].ideaId == Some(id) {
        FirstIdeaWithIdAt(repo, id, i);
        return Some(repo[i]);
      }
    }
    return None;
  }
}
