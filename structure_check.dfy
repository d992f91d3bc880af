/** The repository structure check: every stored idea carries all eight required fields. */
module StructureCheck {
  import opened Wrappers
  import opened Ideas
  import opened Repository

  /** The scan's early exit: the position of the first idea that is not complete, which by
      `Ideas.NoMissingIffComplete` is the first with a non-empty list of missing fields. */
  function FirstIncomplete(ideas: seq<Idea>): (r: Option<nat>)
    ensures r.Some? ==> r.value < |ideas| && !Complete(ideas[r.value])
    ensures r.Some? ==> forall j :: 0 <= j < r.value ==> Complete(ideas[j])
    ensures r.None? <==> forall i :: 0 <= i < |ideas| ==> Complete(ideas[i])
  {
    if |ideas| == 0 then None
    else if !Complete(ideas[0]) then Some(0)
    else
      var rest := FirstIncomplete(ideas[1..]);
      if rest.None? then
        assert forall j :: 1 <= j < |ideas| ==> ideas[j] == ideas[1..][j - 1];
        None
      else
        assert ideas[rest.value + 1] == ideas[1..][rest.value];
        assert forall j :: 1 <= j < rest.value + 1 ==> ideas[j] == ideas[1..][j - 1];
        Some(rest.value + 1)
  }

  /** The position the scan stops at is the first idea whose list of missing fields is
      non-empty. */
  lemma FirstIncompleteReportsMissing(ideas: seq<Idea>)
    ensures var r := FirstIncomplete(ideas);
      r.Some? ==> MissingIdeaFields(ideas[r.value]) != []
    ensures var r := FirstIncomplete(ideas);
      r.Some? ==> forall j :: 0 <= j < r.value ==> MissingIdeaFields(ideas[j]) == []
  {
    var r := FirstIncomplete(ideas);
    if r.Some? {
      NoMissingIffComplete(ideas[r.value]);
      forall j | 0 <= j < r.value
        ensures MissingIdeaFields(ideas[j]) == []
      {
        NoMissingIffComplete(ideas[j]);
      }
    }
  }

  /** The check's verdict: `None` stands for a repository file that is absent or unreadable,
      which fails; otherwise it passes exactly when no idea lacks a field, so an empty list
      passes. */
  function StructureValid(repo: Option<seq<Idea>>): (ok: bool)
    ensures ok <==> repo.Some? && forall i :: 0 <= i < |repo.value| ==> MissingIdeaFields(repo.value[i]) == []
  {
    if repo.None? then false
    else
      assert forall i :: 0 <= i < |repo.value| ==>
        (MissingIdeaFields(repo.value[i]) == [] <==> Complete(repo.value[i])) by {
        forall i | 0 <= i < |repo.value| {
          NoMissingIffComplete(repo.value[i]);
        }
      }
      FirstIncomplete(repo.value).None?
  }

  /** Validity in terms of the record: every idea is complete. */
  lemma StructureValidIffComplete(repo: seq<Idea>)
    ensures StructureValid(Some(repo)) <==> forall i :: 0 <= i < |repo| ==> Complete(repo[i])
  {
    forall i | 0 <= i < |repo| {
      NoMissingIffComplete(repo[i]);
    }
  }

  /** Storing a complete record, by replacement or by appending, keeps a valid list valid. */
  lemma UpsertKeepsValid(ideas: seq<Idea>, selected: Option<Idea>, idea: Idea)
    requires StructureValid(Some(ideas)) && Complete(idea)
    ensures StructureValid(Some(Upsert(ideas, selected, idea)))
  {
    StructureValidIffComplete(ideas);
    UpsertKeepsComplete(ideas, selected, idea);
    StructureValidIffComplete(Upsert(ideas, selected, idea));
  }

  lemma UpsertKeepsComplete(ideas: seq<Idea>, selected: Option<Idea>, idea: Idea)
    requires forall i :: 0 <= i < |ideas| ==> Complete(ideas[i])
    requires Complete(idea)
    ensures var r := Upsert(ideas, selected, idea);
      forall j :: 0 <= j < |r| ==> Complete(r[j])
  {
    var r := Upsert(ideas, selected, idea);
    if IsTruthy(selected) {
      assert forall j :: 0 <= j < |r| ==> r[j] == ideas[j] || r[j] == idea;
    } else {
      assert forall j :: 0 <= j < |r| ==> r[j] == idea || r[j] == ideas[j];
    }
  }

  /** Deleting by id keeps a valid list valid. */
  lemma RemoveIdKeepsValid(ideas: seq<Idea>, id: Option<string>)
    requires StructureValid(Some(ideas))
    ensures StructureValid(Some(RemoveId(ideas, id)))
  {
    var r := RemoveId(ideas, id);
    StructureValidIffComplete(ideas);
    StructureValidIffComplete(r);
    forall j | 0 <= j < |r|
      ensures Complete(r[j])
    {
      var k :| 0 <= k < |ideas| && ideas[k] == r[j];
    }
  }
}
