/** The idea records stored in the repository file, as `json.load` hands them over: every key
    of the stored dict may be missing. */
module Ideas {
  import opened Wrappers
  import opened Documents

  /** An entry of an idea's `related_items`: a link into one week's log. */
  datatype Reference = Reference(week: Option<string>, itemId: Option<string>, section: Option<string>)
  {
    /** `item.get('week', 'Unknown')` */
    function WeekName(): string { week.GetOr("Unknown") }
    /** `item.get('item_id', 'Unknown')` */
    function ItemName(): string { itemId.GetOr("Unknown") }
    /** `item.get('section', 'Unknown')` */
    function SectionName(): string { section.GetOr("Unknown") }
  }

  datatype Idea = Idea(
    ideaId: Option<string>,
    title: Option<string>,
    description: Option<string>,
    maturityScore: Option<int>,
    personalInterestScore: Option<int>,
    trendScore: Option<int>,
    tags: Option<seq<string>>,
    relatedItems: Option<seq<Reference>>)

  /** The keys every stored idea is expected to carry. */
  const IdeaFields: seq<string> :=
    ["idea_id", "title", "description", "maturity_score",
     "personal_interest_score", "trend_score", "tags", "related_items"]

  /** Every field of the record is present. */
  predicate Complete(idea: Idea) {
    && idea.ideaId.Some? && idea.title.Some? && idea.description.Some?
    && idea.maturityScore.Some? && idea.personalInterestScore.Some? && idea.trendScore.Some?
    && idea.tags.Some? && idea.relatedItems.Some?
  }

  /** `name in idea` for the record's own keys. */
  predicate Has(idea: Idea, name: string) {
    if name == "idea_id" then idea.ideaId.Some?
    else if name == "title" then idea.title.Some?
    else if name == "description" then idea.description.Some?
    else if name == "maturity_score" then idea.maturityScore.Some?
    else if name == "personal_interest_score" then idea.personalInterestScore.Some?
    else if name == "trend_score" then idea.trendScore.Some?
    else if name == "tags" then idea.tags.Some?
    else if name == "related_items" then idea.relatedItems.Some?
    else false
  }

  /** The keys present in the stored dict. */
  function Keys(idea: Idea): set<string>
  {
    set name | name in IdeaFields && Has(idea, name)
  }

  /** Python truthiness of the dict: it holds at least one key (see `TruthyIffSomeKey`). */
  predicate IsTruthy(selected: Option<Idea>) {
    selected.Some? &&
    var idea := selected.value;
    || idea.ideaId.Some? || idea.title.Some? || idea.description.Some?
    || idea.maturityScore.Some? || idea.personalInterestScore.Some? || idea.trendScore.Some?
    || idea.tags.Some? || idea.relatedItems.Some?
  }

  /** The record is truthy exactly when some key is present. */
  lemma TruthyIffSomeKey(idea: Idea)
    ensures IsTruthy(Some(idea)) <==> Keys(idea) != {}
  {
    if IsTruthy(Some(idea)) {
      var i :=
        if idea.ideaId.Some? then 0 else if idea.title.Some? then 1
        else if idea.description.Some? then 2 else if idea.maturityScore.Some? then 3
        else if idea.personalInterestScore.Some? then 4 else if idea.trendScore.Some? then 5
        else if idea.tags.Some? then 6 else 7;
      assert Has(idea, IdeaFields[i]);
      assert IdeaFields[i] in Keys(idea);
    }
  }

  /** The required fields an idea lacks, in the order of `IdeaFields`. */
  function MissingIdeaFields(idea: Idea): seq<string>
  {
    MissingFields(IdeaFields, Keys(idea))
  }

  /** An idea lacks no required field exactly when every field of the record is present. */
  lemma NoMissingIffComplete(idea: Idea)
    ensures MissingIdeaFields(idea) == [] <==> Complete(idea)
  {
    KeysHoldEveryField(idea);
    EveryFieldIffComplete(idea);
  }

  lemma KeysHoldEveryField(idea: Idea)
    ensures (forall f :: f in IdeaFields ==> f in Keys(idea))
        <==> forall i :: 0 <= i < |IdeaFields| ==> Has(idea, IdeaFields[i])
  {
    if forall i :: 0 <= i < |IdeaFields| ==> Has(idea, IdeaFields[i]) {
      forall f | f in IdeaFields
        ensures f in Keys(idea)
      {
        var i :| 0 <= i < |IdeaFields| && IdeaFields[i] == f;
        assert Has(idea, IdeaFields[i]);
      }
    }
    if forall f :: f in IdeaFields ==> f in Keys(idea) {
      forall i | 0 <= i < |IdeaFields|
        ensures Has(idea, IdeaFields[i])
      {
        assert IdeaFields[i] in IdeaFields;
        assert IdeaFields[i] in Keys(idea);
      }
    }
  }

  lemma EveryFieldIffComplete(idea: Idea)
    ensures (forall i :: 0 <= i < |IdeaFields| ==> Has(idea, IdeaFields[i])) <==> Complete(idea)
  {
    assert Has(idea, IdeaFields[0]) == idea.ideaId.Some?;
    assert Has(idea, IdeaFields[1]) == idea.title.Some?;
    assert Has(idea, IdeaFields[2]) == idea.description.Some?;
    assert Has(idea, IdeaFields[3]) == idea.maturityScore.Some?;
    assert Has(idea, IdeaFields[4]) == idea.personalInterestScore.Some?;
    assert Has(idea, IdeaFields[5]) == idea.trendScore.Some?;
    assert Has(idea, IdeaFields[6]) == idea.tags.Some?;
    assert Has(idea, IdeaFields[7]) == idea.relatedItems.Some?;
  }
}
