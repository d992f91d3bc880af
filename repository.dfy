/** The editing logic of the repository manager window: the form that mirrors the selected
    idea, the validation and parsing done on save, and the in-place updates of the idea list. */
module Repository {
  import opened Wrappers
  import opened PyStr
  import opened Seqs
  import opened Ideas

  // ---------------------------------------------------------------------------------------
  // Tags

  /** A tag as parsing yields it: non-empty, no surrounding whitespace, no comma. */
  predicate IsTag(t: string) {
    t != "" && Trimmed(t) && ',' !in t
  }

  /** `[p.strip() for p in pieces if p.strip()]` */
  function StripPieces(pieces: seq<string>): (r: seq<string>)
    ensures forall i :: 0 <= i < |r| ==> r[i] != "" && Trimmed(r[i])
  {
    if |pieces| == 0 then []
    else
      var t := Strip(pieces[0]);
      var rest := StripPieces(pieces[1..]);
      if t != "" then [t] + rest else rest
  }

  /** Every piece stripped, in order, empty ones included. */
  function StripEach(pieces: seq<string>): (r: seq<string>)
    ensures |r| == |pieces| && forall i :: 0 <= i < |r| ==> r[i] == Strip(pieces[i])
  {
    seq(|pieces|, i requires 0 <= i < |pieces| => Strip(pieces[i]))
  }

  function NonEmpty(): string -> bool {
    (t: string) => t != ""
  }

  /** `StripPieces` is the comprehension `[p.strip() for p in pieces if p.strip()]` read as
      "strip every piece, then keep the non-empty results in order". */
  lemma {:induction false} StripPiecesIsFilter(pieces: seq<string>)
    ensures StripPieces(pieces) == Filter(NonEmpty(), StripEach(pieces))
    decreases |pieces|
  {
    if |pieces| > 0 {
      StripPiecesIsFilter(pieces[1..]);
      assert StripEach(pieces)[1..] == StripEach(pieces[1..]);
    }
  }

  /** Stripping keeps a comma-free piece comma-free, so comma-free pieces strip into tags. */
  lemma {:induction false} StripPiecesAreTags(pieces: seq<string>)
    requires forall i :: 0 <= i < |pieces| ==> ',' !in pieces[i]
    ensures forall i :: 0 <= i < |StripPieces(pieces)| ==> IsTag(StripPieces(pieces)[i])
    decreases |pieces|
  {
    if |pieces| > 0 {
      StripKeepsAbsent(pieces[0], ',');
      assert forall i :: 0 <= i < |pieces| - 1 ==> pieces[1..][i] == pieces[i + 1];
      StripPiecesAreTags(pieces[1..]);
    }
  }

  /** The tag field's text parsed into tags: comma-separated pieces, each stripped, empty ones
      dropped, order kept; blank text gives no tags. */
  function ParseTags(text: string): (tags: seq<string>)
    ensures forall i :: 0 <= i < |tags| ==> IsTag(tags[i])
    ensures Strip(text) == "" ==> tags == []
  {
    var t := Strip(text);
    if t == "" then [] else StripPiecesAreTags(Split(t, ',')); StripPieces(Split(t, ','))
  }

  /** `" " + t` for every tag after the first: the pieces `', '.join` leaves after a comma. */
  function SpacePrefixed(ts: seq<string>): (r: seq<string>)
  {
    seq(|ts|, i requires 0 <= i < |ts| => " " + ts[i])
  }

  lemma {:induction false} SplitJoinedTags(p: string, ts: seq<string>)
    requires |ts| > 0 && ',' !in p
    requires forall i :: 0 <= i < |ts| ==> ',' !in ts[i]
    ensures Split(p + Join(", ", ts), ',') == [p + ts[0]] + SpacePrefixed(ts[1..])
    decreases |ts|
  {
    if |ts| == 1 {
      assert ',' !in p + ts[0];
      SplitWithoutSeparator(p + ts[0], ',');
    } else {
      var rest := Join(", ", ts[1..]);
      assert p + Join(", ", ts) == (p + ts[0]) + [','] + (" " + rest);
      SplitConcat(p + ts[0], ',', " " + rest);
      assert ',' !in p + ts[0];
      SplitWithoutSeparator(p + ts[0], ',');
      SplitJoinedTags(" ", ts[1..]);
      assert SpacePrefixed(ts[1..]) == [" " + ts[1]] + SpacePrefixed(ts[2..]);
    }
  }

  lemma StripSpaced(t: string)
    requires Trimmed(t)
    ensures Strip(" " + t) == t
  {
    StripLeftAfterSpaces(" ", t);
    StripTrimmed(t);
  }

  lemma {:induction false} StripPiecesSpaced(ts: seq<string>)
    requires forall i :: 0 <= i < |ts| ==> IsTag(ts[i])
    ensures StripPieces(SpacePrefixed(ts)) == ts
    decreases |ts|
  {
    if |ts| > 0 {
      StripPiecesSpacedStep(ts);
      assert forall i :: 0 <= i < |ts| - 1 ==> ts[1..][i] == ts[i + 1];
      StripPiecesSpaced(ts[1..]);
      HeadTail(ts);
    }
  }

  lemma StripPiecesSpacedStep(ts: seq<string>)
    requires |ts| > 0 && IsTag(ts[0])
    ensures StripPieces(SpacePrefixed(ts)) == [ts[0]] + StripPieces(SpacePrefixed(ts[1..]))
  {
    SpacePrefixedTail(ts);
    StripSpaced(ts[0]);
  }

  lemma SpacePrefixedTail(ts: seq<string>)
    requires |ts| > 0
    ensures var sp := SpacePrefixed(ts); sp[0] == " " + ts[0] && sp[1..] == SpacePrefixed(ts[1..])
  {
  }

  lemma {:induction false} JoinEnds(sep: string, parts: seq<string>)
    requires |parts| > 0 && forall i :: 0 <= i < |parts| ==> parts[i] != ""
    ensures var j, last := Join(sep, parts), parts[|parts| - 1];
      |j| > 0 && j[0] == parts[0][0] && j[|j| - 1] == last[|last| - 1]
    decreases |parts|
  {
    if |parts| > 1 {
      JoinEnds(sep, parts[1..]);
    }
  }

  lemma {:induction false} JoinedTagsTrimmed(tags: seq<string>)
    requires |tags| > 0 && forall i :: 0 <= i < |tags| ==> IsTag(tags[i])
    ensures Join(", ", tags) != "" && Strip(Join(", ", tags)) == Join(", ", tags)
  {
    var j := Join(", ", tags);
    JoinEnds(", ", tags);
    assert IsTag(tags[0]) && IsTag(tags[|tags| - 1]);
    StripTrimmed(j);
  }

  lemma {:induction false} SplitJoinedTagList(tags: seq<string>)
    requires |tags| > 0 && forall i :: 0 <= i < |tags| ==> IsTag(tags[i])
    ensures Split(Join(", ", tags), ',') == [tags[0]] + SpacePrefixed(tags[1..])
  {
    SplitJoinedTags("", tags);
    assert "" + Join(", ", tags) == Join(", ", tags);
    assert "" + tags[0] == tags[0];
  }

  /** Showing tags in the form (`', '.join(tags)`) and parsing the text back on save gives the
      same tags, whenever every tag is one parsing could have produced. */
  lemma {:induction false} TagsRoundTrip(tags: seq<string>)
    requires forall i :: 0 <= i < |tags| ==> IsTag(tags[i])
    ensures ParseTags(Join(", ", tags)) == tags
  {
    if |tags| > 0 {
      var j := Join(", ", tags);
      var pieces := [tags[0]] + SpacePrefixed(tags[1..]);
      assert ParseTags(j) == StripPieces(pieces) by {
        JoinedTagsTrimmed(tags);
        SplitJoinedTagList(tags);
      }
      assert StripPieces(pieces) == [tags[0]] + tags[1..] by {
        assert Strip(pieces[0]) == tags[0] by {
          assert IsTag(tags[0]);
          StripTrimmed(tags[0]);
        }
        assert StripPieces(pieces[1..]) == tags[1..] by {
          assert pieces[1..] == SpacePrefixed(tags[1..]);
          assert forall i :: 0 <= i < |tags| - 1 ==> tags[1..][i] == tags[i + 1];
          StripPiecesSpaced(tags[1..]);
        }
      }
      HeadTail(tags);
    }
  }

  /** Reloading a saved idea and saving it again leaves its tags as they are. */
  lemma ParseTagsStable(text: string)
    ensures ParseTags(Join(", ", ParseTags(text))) == ParseTags(text)
  {
    TagsRoundTrip(ParseTags(text));
  }

  // ---------------------------------------------------------------------------------------
  // The form

  /** What the form's widgets hold: the entry and text widgets as strings, the score scales
      as the integers of their `IntVar`s. */
  datatype Form = Form(
    ideaIdText: string,
    titleText: string,
    descriptionText: string,
    maturity: int,
    interest: int,
    trend: int,
    tagsText: string,
    relatedText: string)

  /** The widgets as created: empty texts and `IntVar`s at their initial value 0. */
  const InitialForm := Form("", "", "", 0, 0, 0, "", "")

  /** The widgets after `clear_form`: empty texts and every score set to 1. */
  const ClearedForm := Form("", "", "", 1, 1, 1, "", "")

  /** The form showing `idea` (`load_idea_to_form`): a missing text field shows as empty, a
      missing score as 1, missing tags and related items as an empty list; tags are shown
      joined with `", "` and related items in their JSON rendering `encode`. */
  function FormOf(idea: Idea, encode: seq<Reference> -> string): (f: Form)
    ensures idea.ideaId.None? ==> f.ideaIdText == ""
    ensures idea.title.None? ==> f.titleText == ""
    ensures idea.description.None? ==> f.descriptionText == ""
    ensures idea.maturityScore.None? ==> f.maturity == 1
    ensures idea.personalInterestScore.None? ==> f.interest == 1
    ensures idea.trendScore.None? ==> f.trend == 1
    ensures idea.tags.None? ==> f.tagsText == ""
    ensures idea.relatedItems.None? ==> f.relatedText == encode([])
  {
    Form(
      idea.ideaId.GetOr(""),
      idea.title.GetOr(""),
      idea.description.GetOr(""),
      idea.maturityScore.GetOr(1),
      idea.personalInterestScore.GetOr(1),
      idea.trendScore.GetOr(1),
      Join(", ", idea.tags.GetOr([])),
      encode(idea.relatedItems.GetOr([])))
  }

  datatype SaveError = MissingIdOrTitle | InvalidRelatedItems

  /** The related-items text parsed with the JSON decoder `decode`: blank text is an empty
      list, otherwise the decoder decides (`None` for text it rejects). */
  function RelatedItemsFrom(text: string, decode: string -> Option<seq<Reference>>): (r: Option<seq<Reference>>)
    ensures Strip(text) == "" ==> r == Some([])
    ensures Strip(text) != "" ==> r == decode(Strip(text))
  {
    var t := Strip(text);
    if t == "" then Some([]) else decode(t)
  }

  /** The record `save_idea` builds from the form, or why it refuses to. */
  function IdeaFromForm(f: Form, decode: string -> Option<seq<Reference>>): (r: Result<Idea, SaveError>)
    ensures r == Err(MissingIdOrTitle) <==> Strip(f.ideaIdText) == "" || Strip(f.titleText) == ""
    ensures r == Err(InvalidRelatedItems) <==>
      Strip(f.ideaIdText) != "" && Strip(f.titleText) != "" && RelatedItemsFrom(f.relatedText, decode).None?
    ensures r.Ok? ==> Complete(r.value)
    ensures r.Ok? ==> r.value.ideaId == Some(Strip(f.ideaIdText)) && r.value.title == Some(Strip(f.titleText))
    ensures r.Ok? ==> r.value.ideaId.value != "" && r.value.title.value != ""
    ensures r.Ok? ==> r.value.description == Some(Strip(f.descriptionText))
    ensures r.Ok? ==> r.value.maturityScore == Some(f.maturity)
    ensures r.Ok? ==> r.value.personalInterestScore == Some(f.interest)
    ensures r.Ok? ==> r.value.trendScore == Some(f.trend)
    ensures r.Ok? ==> r.value.tags == Some(ParseTags(f.tagsText))
    ensures r.Ok? ==> r.value.relatedItems == RelatedItemsFrom(f.relatedText, decode)
    ensures r.Ok? ==> forall i :: 0 <= i < |r.value.tags.value| ==> IsTag(r.value.tags.value[i])
  {
    var id := Strip(f.ideaIdText);
    var title := Strip(f.titleText);
    if id == "" || title == "" then Err(MissingIdOrTitle)
    else match RelatedItemsFrom(f.relatedText, decode)
      case None => Err(InvalidRelatedItems)
      case Some(related) =>
        Ok(Idea(Some(id), Some(title), Some(Strip(f.descriptionText)),
                Some(f.maturity), Some(f.interest), Some(f.trend),
                Some(ParseTags(f.tagsText)), Some(related)))
  }

  /** Loading a complete, well-formed idea into the form and saving it rebuilds the same idea,
      provided the JSON decoder reads back what the encoder wrote. */
  lemma {:induction false} SaveAfterLoad(idea: Idea, encode: seq<Reference> -> string, decode: string -> Option<seq<Reference>>)
    requires Complete(idea)
    requires idea.ideaId.value != "" && Trimmed(idea.ideaId.value)
    requires idea.title.value != "" && Trimmed(idea.title.value)
    requires Trimmed(idea.description.value)
    requires forall i :: 0 <= i < |idea.tags.value| ==> IsTag(idea.tags.value[i])
    requires var text := Strip(encode(idea.relatedItems.value));
      text != "" && decode(text) == Some(idea.relatedItems.value)
    ensures IdeaFromForm(FormOf(idea, encode), decode) == Ok(idea)
  {
    StripTrimmed(idea.ideaId.value);
    StripTrimmed(idea.title.value);
    StripTrimmed(idea.description.value);
    TagsRoundTrip(idea.tags.value);
  }

  // ---------------------------------------------------------------------------------------
  // Updating the idea list

  /** The position of the first idea whose `idea_id` equals `id`. */
  function IndexOfId(ideas: seq<Idea>, id: Option<string>): (k: Option<nat>)
    ensures k.Some? ==> k.value < |ideas| && ideas[k.value].ideaId == id
    ensures k.Some? ==> forall j :: 0 <= j < k.value ==> ideas[j].ideaId != id
    ensures k.None? ==> forall j :: 0 <= j < |ideas| ==> ideas[j].ideaId != id
  {
    if |ideas| == 0 then None
    else if ideas[0].ideaId == id then Some(0)
    else match IndexOfId(ideas[1..], id)
      case None => None
      case Some(k) => Some(k + 1)
  }

  /** `IndexOfId` finds the first position carrying the id. */
  lemma FirstIndexOfId(ideas: seq<Idea>, id: Option<string>, k: nat)
    requires k < |ideas| && ideas[k].ideaId == id
    requires forall j :: 0 <= j < k ==> ideas[j].ideaId != id
    ensures IndexOfId(ideas, id) == Some(k)
  {
  }

  /** The idea list after saving `idea` while `selected` is the current idea. With a selection,
      the first record carrying the selection's id is replaced in place and nothing else moves;
      without one, the record is appended. */
  function Upsert(ideas: seq<Idea>, selected: Option<Idea>, idea: Idea): (r: seq<Idea>)
    ensures IsTruthy(selected) ==> |r| == |ideas|
    ensures IsTruthy(selected) ==> forall j :: 0 <= j < |ideas| ==>
      r[j] == (if IndexOfId(ideas, selected.value.ideaId) == Some(j) then idea else ideas[j])
    ensures !IsTruthy(selected) ==> r == ideas + [idea]
  {
    if IsTruthy(selected) then
      match IndexOfId(ideas, selected.value.ideaId)
      case Some(k) => ideas[k := idea]
      case None => ideas
    else ideas + [idea]
  }

  /** With a selection whose id no record carries, saving changes nothing. */
  lemma UpsertUnknownIdUnchanged(ideas: seq<Idea>, selected: Option<Idea>, idea: Idea)
    requires IsTruthy(selected)
    requires forall j :: 0 <= j < |ideas| ==> ideas[j].ideaId != selected.value.ideaId
    ensures Upsert(ideas, selected, idea) == ideas
  {
  }

  /** `[i for i in ideas if i.get('idea_id') != id]`: every record with that id is gone and the
      others stay in their order. */
  function RemoveId(ideas: seq<Idea>, id: Option<string>): (r: seq<Idea>)
    ensures forall j :: 0 <= j < |r| ==> r[j].ideaId != id && r[j] in ideas
    ensures forall j :: 0 <= j < |ideas| && ideas[j].ideaId != id ==> ideas[j] in r
    ensures IsSubseq(r, ideas)
    ensures |r| == |ideas| - Count((i: Idea) => i.ideaId == id, ideas)
  {
    CountComplement(ideas, id);
    Filter((i: Idea) => i.ideaId != id, ideas)
  }

  lemma {:induction false} CountComplement(ideas: seq<Idea>, id: Option<string>)
    ensures Count((i: Idea) => i.ideaId != id, ideas) + Count((i: Idea) => i.ideaId == id, ideas) == |ideas|
  {
    if |ideas| > 0 {
      CountComplement(ideas[1..], id);
    }
  }

  /** Saving the record just saved, with it as the selection, changes nothing more, unless
      its id also sits on a record the first save did not touch. */
  lemma {:induction false} SaveTwiceSameAsOnce(ideas: seq<Idea>, selected: Option<Idea>, x: Idea)
    requires x.ideaId.Some?
    requires forall j :: 0 <= j < |ideas| && ideas[j].ideaId == x.ideaId ==>
      IsTruthy(selected) && selected.value.ideaId == x.ideaId
    ensures Upsert(Upsert(ideas, selected, x), Some(x), x) == Upsert(ideas, selected, x)
  {
    var once := Upsert(ideas, selected, x);
    if !IsTruthy(selected) {
      assert once[|ideas|] == x;
      FirstIndexOfId(once, x.ideaId, |ideas|);
    } else {
      match IndexOfId(ideas, selected.value.ideaId) {
        case Some(k) =>
          assert once == ideas[k := x];
          FirstIndexOfId(once, x.ideaId, k);
        case None =>
          assert once == ideas;
      }
    }
  }

  /** The condition of `SaveTwiceSameAsOnce` is needed: when the id of a new record already
      sits on an older one, the first save appends and the second replaces the older record,
      so the list ends up holding the new record twice. */
  lemma SaveTwiceMayDuplicate(older: Idea, x: Idea)
    requires x.ideaId.Some? && older.ideaId == x.ideaId && older != x
    ensures Upsert([older], None, x) == [older, x]
    ensures Upsert(Upsert([older], None, x), Some(x), x) == [x, x]
  {
    assert IndexOfId([older, x], x.ideaId) == Some(0);
  }

  /** Without a selection a save appends even when the id is already taken: the number of
      records carrying the id grows by one, so an id already present ends up on two records. */
  lemma {:induction false} AppendAddsOneWithId(ideas: seq<Idea>, selected: Option<Idea>, x: Idea)
    requires !IsTruthy(selected)
    ensures Count((i: Idea) => i.ideaId == x.ideaId, Upsert(ideas, selected, x))
         == Count((i: Idea) => i.ideaId == x.ideaId, ideas) + 1
  {
    CountConcat((i: Idea) => i.ideaId == x.ideaId, ideas, [x]);
    assert [x][1..] == [];
  }

  /** Deleting a freshly appended idea gives back the list as it was before the save. */
  lemma {:induction false} DeleteUndoesAppend(ideas: seq<Idea>, x: Idea)
    requires forall j :: 0 <= j < |ideas| ==> ideas[j].ideaId != x.ideaId
    ensures RemoveId(Upsert(ideas, None, x), x.ideaId) == ideas
  {
    var keep := (i: Idea) => i.ideaId != x.ideaId;
    FilterConcat(keep, ideas, [x]);
    FilterAll(keep, ideas);
    assert Filter(keep, [x]) == [];
  }

  // ---------------------------------------------------------------------------------------
  // The list box

  /** The list box line for an idea: its id (or `N/A`), a colon and its title (or `No Title`). */
  function DisplayText(idea: Idea): (line: string)
    ensures StartsWith(line, idea.ideaId.GetOr("N/A") + ": ")
    ensures EndsWith(line, idea.title.GetOr("No Title"))
    ensures |line| == |idea.ideaId.GetOr("N/A")| + 2 + |idea.title.GetOr("No Title")|
  {
    var head := idea.ideaId.GetOr("N/A") + ": ";
    var line := head + idea.title.GetOr("No Title");
    assert line[..|head|] == head;
    line
  }

  // ---------------------------------------------------------------------------------------
  // The window's state

  /** The repository manager's state: the idea list, the current idea and the form. The JSON
      codec for the related-items text is fixed when the window is built. */
  class RepoManager {
    var repoData: seq<Idea>
    var currentIdea: Option<Idea>
    var form: Form
    const decodeRelated: string -> Option<seq<Reference>>
    const encodeRelated: seq<Reference> -> string

    /** `loaded` is the parsed repository file; `None` when the file is missing or unreadable,
        in which case the list starts empty. */
    constructor (loaded: Option<seq<Idea>>, decode: string -> Option<seq<Reference>>, encode: seq<Reference> -> string)
      ensures repoData == loaded.GetOr([])
      ensures currentIdea == None && form == InitialForm
      ensures decodeRelated == decode && encodeRelated == encode
    {
      repoData := loaded.GetOr([]);
      currentIdea := None;
      form := InitialForm;
      decodeRelated := decode;
      encodeRelated := encode;
    }

    /** The list box contents: one line per idea, in list order. */
    method RefreshIdeaList() returns (lines: seq<string>)
      ensures |lines| == |repoData|
      ensures forall i :: 0 <= i < |repoData| ==> lines[i] == DisplayText(repoData[i])
    {
      lines := [];
      for i := 0 to |repoData|
        invariant |lines| == i
        invariant forall j :: 0 <= j < i ==> lines[j] == DisplayText(repoData[j])
      {
        lines := lines + [DisplayText(repoData[i])];
      }
    }

    /** Shows `idea` in the form. */
    method LoadIdeaToForm(idea: Idea)
      modifies this
      ensures form == FormOf(idea, encodeRelated)
      ensures repoData == old(repoData) && currentIdea == old(currentIdea)
    {
      form := FormOf(idea, encodeRelated);
    }

    /** Selecting the `index`-th list box line makes that idea current and shows it. */
    method SelectIdea(index: nat)
      requires index < |repoData|
      modifies this
      ensures repoData == old(repoData)
      ensures currentIdea == Some(repoData[index])
      ensures form == FormOf(repoData[index], encodeRelated)
    {
      currentIdea := Some(repoData[index]);
      LoadIdeaToForm(repoData[index]);
    }

    /** Forgets the current idea and blanks the form, scores back to 1. */
    method ClearForm()
      modifies this
      ensures currentIdea == None && form == ClearedForm
      ensures repoData == old(repoData)
    {
      currentIdea := None;
      form := ClearedForm;
    }

    /** A blank form for a new idea whose id is `I-` followed by the time stamp. */
    method NewIdea(stamp: string)
      modifies this
      ensures currentIdea == None && form == ClearedForm.(ideaIdText := "I-" + stamp)
      ensures repoData == old(repoData)
    {
      ClearForm();
      form := form.(ideaIdText := "I-" + stamp);
    }

    /** Saves the form: refuses a blank id or title and unparsable related items, leaving
        everything as it was; otherwise stores the new record and makes it current
        (`StoreAndSelect`). */
    method SaveIdea() returns (r: Result<Idea, SaveError>)
      modifies this`repoData, this`currentIdea
      ensures r == IdeaFromForm(old(form), decodeRelated)
      ensures form == old(form)
      ensures r.Err? ==> repoData == old(repoData) && currentIdea == old(currentIdea)
      ensures r.Ok? ==> repoData == Upsert(old(repoData), old(currentIdea), r.value)
      ensures r.Ok? ==> currentIdea == Some(r.value)
    {
      r := IdeaFromForm(form, decodeRelated);
      if r.Ok? {
        StoreAndSelect(r.value);
      }
    }

    /** Stores the record as `StoreRecord` does, then makes it the current idea. */
    method StoreAndSelect(ideaData: Idea)
      modifies this`repoData, this`currentIdea
      ensures repoData == Upsert(old(repoData), old(currentIdea), ideaData)
      ensures currentIdea == Some(ideaData)
    {
      StoreRecord(ideaData);
      currentIdea := Some(ideaData);
    }

    /** Replaces the first record carrying the current idea's id, in place, or appends the
        record when there is no current idea. */
    method StoreRecord(ideaData: Idea)
      modifies this`repoData
      ensures repoData == Upsert(old(repoData), currentIdea, ideaData)
    {
      if IsTruthy(currentIdea) {
        var previousId := currentIdea.value.ideaId;
        for i := 0 to |repoData|
          invariant repoData == old(repoData)
          invariant forall j :: 0 <= j < i ==> repoData[j].ideaId != previousId
        {
          if repoData[i].ideaId == previousId {
            FirstIndexOfId(repoData, previousId, i);
            repoData := repoData[i := ideaData];
            return;
          }
        }
      } else {
        repoData := repoData + [ideaData];
      }
    }

    /** Deletes every record carrying the current idea's id once the user confirms, then
        clears the form; without a current idea, or unconfirmed, nothing changes. */
    method DeleteIdea(confirmed: bool) returns (deleted: bool)
      modifies this
      ensures deleted <==> IsTruthy(old(currentIdea)) && confirmed
      ensures deleted ==> repoData == RemoveId(old(repoData), old(currentIdea).value.ideaId)
      ensures deleted ==> currentIdea == None && form == ClearedForm
      ensures !deleted ==> repoData == old(repoData) && currentIdea == old(currentIdea) && form == old(form)
    {
      if !IsTruthy(currentIdea) {
        return false;
      }
      var id := currentIdea.value.ideaId;
      if confirmed {
        repoData := RemoveId(repoData, id);
        ClearForm();
        return true;
      }
      return false;
    }
  }
}
