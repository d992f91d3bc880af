/** The keyed store behind pasted assessments: one document per `{idea_id}_{type}.json` name,
    written whole, read back whole and removed by name. */
module AssessmentStore {
  import opened Wrappers
  import opened Documents
  import opened Assessments

  /** The paste check: the text parsed (`None` when the parser rejected it) and the resulting
      object carries `trend_score`. */
  function AcceptTrendDocument(parsed: Option<Document>): (ok: bool)
    ensures ok <==> parsed.Some? && MissingFields(["trend_score"], parsed.value.Keys) == []
  {
    parsed.Some? && "trend_score" in parsed.value
  }

  /** Every document that passes the full trend format check passes the paste check. */
  lemma FormatValidTrendAccepted(parsed: Option<Document>)
    ensures FormatValid(Trend, parsed) ==> AcceptTrendDocument(parsed)
  {
    if FormatValid(Trend, parsed) {
      assert "trend_score" in Trend.RequiredFields();
    }
  }

  /** The paste check is weaker than the format check: a document holding only the score is
      accepted although it lacks the justification and the suggested tags. */
  lemma ScoreOnlyDocumentAccepted()
    ensures var doc := map["trend_score" := Number(7)];
      AcceptTrendDocument(Some(doc)) && !FormatValid(Trend, Some(doc))
      && MissingFields(Trend.RequiredFields(), doc.Keys) == ["justification", "suggested_tags"]
  {
    var doc := map["trend_score" := Number(7)];
    assert "justification" in Trend.RequiredFields() && "justification" !in doc;
    assert MissingFields(["suggested_tags"], doc.Keys) == ["suggested_tags"];
    assert MissingFields(["justification", "suggested_tags"], doc.Keys) == ["justification", "suggested_tags"];
  }

  /** The evaluations directory, as a map from file name to the document it holds. */
  class Store {
    var files: map<string, Document>

    constructor (initial: map<string, Document>)
      ensures files == initial
    {
      files := initial;
    }

    /** `json.dump` into a file opened with `'w'`: the name now holds exactly `doc`, whatever
        it held before; every other name is untouched. */
    method Write(name: string, doc: Document)
      modifies this
      ensures files == old(files)[name := doc]
    {
      files := files[name := doc];
    }

    /** `os.path.exists` */
    method Exists(name: string) returns (present: bool)
      ensures present <==> name in files
    {
      present := name in files;
    }

    /** `json.load` of the named file; `None` when there is no such file. */
    method Read(name: string) returns (doc: Option<Document>)
      ensures doc.Some? <==> name in files
      ensures doc.Some? ==> doc.value == files[name]
    {
      if name in files {
        doc := Some(files[name]);
      } else {
        doc := None;
      }
    }

    /** `os.remove`: fails, changing nothing, when the name is absent. */
    method Remove(name: string) returns (removed: bool)
      modifies this
      ensures removed <==> name in old(files)
      ensures files == old(files) - {name}
    {
      removed := name in files;
      files := files - {name};
    }

    /** The creation scenario: write a document under the assessment key, check the file is
        there, read it back, compare it with what was written, then remove it. It always
        succeeds, and the store ends without that name. */
    method CreateReadRemove(ideaId: string, typeName: string, doc: Document) returns (ok: bool)
      modifies this
      ensures ok
      ensures files == old(files) - {AssessmentKey(ideaId, typeName)}
    {
      var name := AssessmentKey(ideaId, typeName);
      Write(name, doc);
      var present := Exists(name);
      if !present {
        return false;
      }
      var loaded := Read(name);
      if loaded != Some(doc) {
        return false;
      }
      var _ := Remove(name);
      ok := true;
    }

    /** The overwrite scenario: two writes to the same key, then a read that returns exactly
        the second document, with no field of the first merged in, then removal. */
    method OverwriteReadRemove(ideaId: string, typeName: string, first: Document, second: Document)
      returns (ok: bool)
      modifies this
      ensures ok
      ensures files == old(files) - {AssessmentKey(ideaId, typeName)}
    {
      var name := AssessmentKey(ideaId, typeName);
      Write(name, first);
      Write(name, second);
      var loaded := Read(name);
      if loaded != Some(second) {
        return false;
      }
      var _ := Remove(name);
      ok := true;
    }
  }
}
