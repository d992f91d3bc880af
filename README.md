# Repo manager: a verified model of its non-GUI logic

The repo manager is a Tkinter window over a list of "idea" records kept in a JSON file, plus
a set of scripts around it. This project models the logic of the window and the scripts, and
proves properties of that model:

- **Editing the idea list.** `Repository.RepoManager` is a class over the idea list, the
  current idea and the form. It covers:
  - filling the form, with its defaults;
  - clearing the form;
  - saving, which validates the id and title, parses the tags and the related items, then
    replaces the record in place or appends it;
  - deleting by id;
  - the list box lines.
- **Week logs.** `WeekLogs` covers:
  - the week key derived from a log file name;
  - the all-or-nothing loader, which merges the JSON logs and the markdown logs into one
    index;
  - the first-match lookup of a record inside a section.
- **The grouped dossier.** `CleanOutput` models the dossier built by `test_clean_output.py`:
  - the idea's references are grouped by week, in first-seen order;
  - each present week gets one metadata block and one "JSON Sources" header;
  - each reference gets one heading;
  - each missing week gets one "no source data" line;
  - each week group ends with a 40-dash separator.

  The rendering of a record as JSON is a parameter `dumps`.
- **Linking and the per-reference dossier.** `SourceLinking` covers:
  - picking the test idea;
  - classifying each reference, with the `found` flag;
  - the older dossier, which writes one block per reference and repeats a week's markdown in
    each of them.
- **Assessments.** `Assessments` covers:
  - the `{idea_id}_{type}.json` key and its inverse parse;
  - the required fields of each assessment type;
  - the `.json` listing filter;
  - the lookup of the test idea.

  `AssessmentStore.Store` is the keyed directory of assessment documents: it is written whole,
  read back, overwritten and removed.
- **The structure check.** `StructureCheck` models the check in `test_app.py`: every stored
  idea must carry all eight required fields.

The model follows the code where the code and its documentation differ:

- The week key removes every `.json` (or `.md`) from the file name, left to right. The
  result can still contain `.json`. `WeekLogs.WeekKeyMayKeepExtension` exhibits the name
  `a.js.jsonon.json`, whose key is `a.json`.
- Loading the logs is all-or-nothing. One unreadable file gives an empty index and failure,
  not a partial index.
- Saving without a current idea appends the record even when its id is already taken
  (`Repository.AppendAddsOneWithId`). Ids are therefore not unique. Saving a record whose
  id an older record already carries, and then saving it again while it is selected, leaves
  the new record in the list twice (`Repository.SaveTwiceMayDuplicate`).
- In the grouped dossier, the not-found line appears only when the section, or the whole
  `items` object, is missing. A present section without a matching record contributes only
  the reference's heading.

Absent dictionary keys are `None` fields of the `Idea`, `Reference`, `Metadata` and
`WeekData` datatypes. `Reference.WeekName()`, `ItemName()` and `SectionName()` supply the
`'Unknown'` default that the scripts use.

## Model

| member | source | states |
|---|---|---|
| Ideas.NoMissingIffComplete | repo-manager/test_app.py:49-53 | The list of missing required fields of an idea is empty exactly when all eight fields are present. |
| Ideas.TruthyIffSomeKey | repo-manager/src/repo_manager.py:301 | The current idea counts as a selection exactly when it holds at least one key. |
| Documents.MissingFields | repo-manager/tests/test_assessments.py:50-55 | The missing fields are exactly the required names absent from the document, kept in the order of the required list. The list is empty iff every required name is present. |
| Repository.ParseTags | repo-manager/src/repo_manager.py:277-278 | Every parsed tag is non-empty, trimmed and comma-free. Blank text gives no tags. |
| Repository.StripEach | repo-manager/src/repo_manager.py:278 | Strips every piece, in order, keeping the empty results. |
| Repository.StripPiecesIsFilter | repo-manager/src/repo_manager.py:278 | The tag comprehension is "strip every piece, then keep the non-empty results in their order", stated with the reference `Filter`. |
| Repository.StripPiecesAreTags | repo-manager/src/repo_manager.py:278 | Stripping comma-free pieces and dropping the empty ones leaves only tags: non-empty, trimmed and comma-free. |
| Repository.TagsRoundTrip | repo-manager/src/repo_manager.py:277-278 | Parsing the `", "`-joined display of tags that are non-empty, trimmed and comma-free returns those same tags. |
| Repository.ParseTagsStable | repo-manager/src/repo_manager.py:227-278 | Reloading saved tags into the form and parsing them again changes nothing. |
| Repository.FormOf | repo-manager/src/repo_manager.py:206-232 | When a field is missing, the form shows an empty text, a score of 1, no tags, or the rendering of an empty related-items list. |
| Repository.RelatedItemsFrom | repo-manager/src/repo_manager.py:281-286 | Blank related-items text is the empty list. Any other text is decided by the JSON decoder, and a rejection is `None`. |
| Repository.IdeaFromForm | repo-manager/src/repo_manager.py:263-298 | Save is refused exactly when the stripped id or title is blank. Otherwise it is refused exactly when the related items fail to parse. A built record is complete and carries the stripped id, title and description, the three scores as the form holds them, the tags `ParseTags` gives for the tag text, and the parsed related items. |
| Repository.SaveAfterLoad | repo-manager/src/repo_manager.py:206-298 | Loading a complete, well-formed idea into the form and saving it rebuilds the same idea, provided the decoder inverts the encoder. |
| Repository.IndexOfId | repo-manager/src/repo_manager.py:303-306 | Returns the first position carrying the id, or `None` when no record carries it. |
| Repository.FirstIndexOfId | repo-manager/src/repo_manager.py:303-306 | A position carrying the id with none before it is what `IndexOfId` returns. |
| Repository.Upsert | repo-manager/src/repo_manager.py:300-310 | With a selection, the length stays the same. Position `j` holds the new record iff `j` is the first position carrying the selected id (`IndexOfId`); every other position keeps its record. Without a selection, the record is appended at the end. |
| Repository.UpsertUnknownIdUnchanged | repo-manager/src/repo_manager.py:301-306 | With a selection whose id no record carries, saving changes nothing: the loop finds no match and nothing is appended. |
| Repository.RemoveId | repo-manager/src/repo_manager.py:330-332 | Every record with the id is gone, and the others stay in their original order. The length drops by the number of records that carried the id. |
| Repository.SaveTwiceSameAsOnce | repo-manager/src/repo_manager.py:300-315 | Saving the just-saved record again, with it as the selection, changes nothing, provided no record carried its id before the first save other than the selected one. |
| Repository.SaveTwiceMayDuplicate | repo-manager/src/repo_manager.py:300-315 | Without that proviso the claim fails: with an older record of the same id and no selection, the first save appends and the second replaces the older record, leaving `[x, x]`. |
| Repository.AppendAddsOneWithId | repo-manager/src/repo_manager.py:308-310 | Without a selection, saving adds one more record with the id, even when the id is already taken. |
| Repository.DeleteUndoesAppend | repo-manager/src/repo_manager.py:308-332 | Deleting a freshly appended record with a fresh id restores the list. |
| Repository.DisplayText | repo-manager/src/repo_manager.py:194 | A list box line starts with the id (or `N/A`) and `": "`, ends with the title (or `No Title`), and is exactly as long as those parts together, so nothing lies between them. |
| Repository.RepoManager.constructor | repo-manager/src/repo_manager.py:21-43 | A missing or unreadable repository file gives an empty list. Nothing is selected at start. |
| Repository.RepoManager.RefreshIdeaList | repo-manager/src/repo_manager.py:190-196 | Produces one display line per idea, in list order. |
| Repository.RepoManager.LoadIdeaToForm | repo-manager/src/repo_manager.py:206-232 | The form becomes `FormOf(idea)`. The list and the selection are unchanged. |
| Repository.RepoManager.SelectIdea | repo-manager/src/repo_manager.py:198-204 | The chosen record becomes current and is shown in the form. |
| Repository.RepoManager.ClearForm | repo-manager/src/repo_manager.py:234-252 | Deselects the idea, empties the texts and sets all three scores to 1. The list is unchanged. |
| Repository.RepoManager.NewIdea | repo-manager/src/repo_manager.py:254-258 | Clears the form and proposes the id `I-` followed by the time stamp. |
| Repository.RepoManager.SaveIdea | repo-manager/src/repo_manager.py:260-315 | A refused save leaves the list and the selection unchanged. A successful save stores the record as `Upsert` does and makes it current. |
| Repository.RepoManager.StoreRecord | repo-manager/src/repo_manager.py:300-311 | The in-place replacement loop, or the append, produces exactly `Upsert` of the old list. |
| Repository.RepoManager.StoreAndSelect | repo-manager/src/repo_manager.py:300-315 | After a successful save the list is `Upsert` of the old list and the saved record is the current idea. |
| Repository.RepoManager.DeleteIdea | repo-manager/src/repo_manager.py:324-335 | Nothing changes without a selection or without confirmation. Otherwise every record with the selected id is removed and the form is cleared. |
| WeekLogs.WeekKeyOfStem | repo-manager/test_clean_output.py:37 | The key of `stem + ".json"` is `stem`, when the stem holds no `.json`. |
| WeekLogs.WeekKey | repo-manager/test_clean_output.py:37 | A file name without the extension is its own week key. |
| WeekLogs.WeekKeyMayKeepExtension | repo-manager/test_clean_output.py:37 | `a.js.jsonon.json` has the key `a.json`, so the key can still contain `.json`. |
| WeekLogs.RemoveAllCons | repo-manager/test_clean_output.py:37 | A first character that cannot start a match is kept by the left-to-right removal. |
| WeekLogs.AttachMarkdown | repo-manager/test_clean_output.py:44-48 | Creates an empty entry for a new week, sets only its markdown, and keeps that week's metadata and items. Other weeks are untouched. |
| WeekLogs.JsonIndex | repo-manager/test_clean_output.py:35-39 | The index exists iff every JSON file parsed. Its weeks are the keys of the file names. |
| WeekLogs.JsonOfWeek | repo-manager/test_clean_output.py:35-39 | A week's data is that of the last JSON file with its key: a later file for the same week replaces an earlier one. |
| WeekLogs.MarkdownIndex | repo-manager/test_clean_output.py:42-48 | The merge succeeds iff every markdown file was read. |
| WeekLogs.MarkdownIndexKeys | repo-manager/test_clean_output.py:42-48 | The merged index's weeks are the JSON weeks plus the markdown keys. |
| WeekLogs.MarkdownKeepsStructuredData | repo-manager/test_clean_output.py:45-48 | After the merge, every week keeps the metadata and items it had from JSON, or has none when it came only from markdown. |
| WeekLogs.MarkdownOfWeek | repo-manager/test_clean_output.py:43-48 | A week's markdown is the text of the last markdown file with its key. |
| WeekLogs.UnnamedWeekUnchanged | repo-manager/test_clean_output.py:42-48 | A week that no markdown file names keeps its JSON entry unchanged, its markdown included. |
| WeekLogs.LoadSourceData | repo-manager/tests/test_sources.py:21-51 | Success iff every file was read; the result is then the merged index. Failure gives an empty index. |
| WeekLogs.LoadJsonFiles | repo-manager/tests/test_sources.py:29-32 | The JSON file loop succeeds iff every file parsed, and then builds `JsonIndex`. |
| WeekLogs.AttachMarkdownFiles | repo-manager/tests/test_sources.py:39-44 | The markdown file loop, creating missing entries and setting only `markdown`, succeeds iff every file was read, and then builds `MarkdownIndex`. |
| WeekLogs.AttachInTwoSteps | repo-manager/tests/test_sources.py:41-44 | Creating the empty entry when missing and then setting `markdown` is `AttachMarkdown`. |
| WeekLogs.JsonPrefixFails | repo-manager/tests/test_sources.py:29-51 | A failure among the files read so far fails the whole load. |
| WeekLogs.MarkdownPrefixFails | repo-manager/tests/test_sources.py:39-51 | A failure among the markdown files read so far fails the whole load. |
| WeekLogs.FirstWithId | repo-manager/test_clean_output.py:114-120 | Returns the first record in the section whose `id` is the item id, or `None` when no record has it. |
| WeekLogs.FirstWithIdAt | repo-manager/test_clean_output.py:114-120 | A matching record with no match before it is the one returned. |
| WeekLogs.FindItem | repo-manager/test_clean_output.py:114-120 | The scan that breaks at the first match returns `FirstWithId`. |
| CleanOutput.GroupOf | repo-manager/test_clean_output.py:73-78 | A week's group holds only references of that week, and every reference of that week is in it. |
| CleanOutput.GroupOfIsFilter | repo-manager/test_clean_output.py:73-78 | A week's group is `Filter` of the references by week, so it keeps their original order and multiplicity. |
| CleanOutput.DistinctWeeks | repo-manager/test_clean_output.py:73-78 | The weeks have no duplicates, and a week is listed iff it has a non-empty group. |
| CleanOutput.FirstWeekFirst | repo-manager/test_clean_output.py:73-78 | The first reference's week comes first, which is first-seen order. |
| CleanOutput.FirstMention | repo-manager/test_clean_output.py:73-78 | The position of the first reference into a week, or the number of references when none is. |
| CleanOutput.WeeksInFirstMentionOrder | repo-manager/test_clean_output.py:73-86 | Every listed week is mentioned, and of two listed weeks the earlier is mentioned first: the weeks come in the key order of the grouping dict. |
| CleanOutput.GroupByWeek | repo-manager/test_clean_output.py:73-78 | The per-week lists built by appending are exactly `GroupOf` for each week, under the keys `DistinctWeeks`. |
| CleanOutput.GroupSizesTotal | repo-manager/test_clean_output.py:73-78 | Summing the group sizes over the weeks of any set gives the number of references in those weeks. |
| CleanOutput.GroupsPartitionReferences | repo-manager/test_clean_output.py:73-78 | The group sizes add up to the number of related items. |
| CleanOutput.ItemBlock | repo-manager/test_clean_output.py:105-123 | A reference's block opens with its heading, and is that heading alone exactly when its section is present but holds no record with its id. |
| CleanOutput.WeekBlock | repo-manager/test_clean_output.py:86-129 | A week's block opens with its `## Week: ` heading and ends with the 40-dash separator and a blank line. |
| CleanOutput.CleanDossier | repo-manager/test_clean_output.py:80-129 | The dossier opens with the header, and is the header alone exactly when the idea has no references. |
| CleanOutput.HeadingOnce | repo-manager/test_clean_output.py:109-123 | One reference's block holds exactly one `**Item: ` heading, whether the record is found, not found, or its section is missing. |
| CleanOutput.ItemHeadingsCounted | repo-manager/test_clean_output.py:105-123 | A week's item blocks hold exactly one `**Item: ` heading per reference. |
| CleanOutput.JsonSourcesInWeek | repo-manager/test_clean_output.py:90-103 | A week block has one "### JSON Sources:" line if the week is present, and none otherwise. |
| CleanOutput.MetadataInWeek | repo-manager/test_clean_output.py:94-99 | The metadata title appears once if the present week has metadata, and never otherwise. |
| CleanOutput.SeparatorInWeek | repo-manager/test_clean_output.py:128-129 | Every week block holds exactly one 40-dash separator. |
| CleanOutput.HeadingsInWeek | repo-manager/test_clean_output.py:105-126 | A present week has one item heading per reference. A missing week has none. |
| CleanOutput.NoDataInWeek | repo-manager/test_clean_output.py:90-126 | A missing week has exactly one "no source data" line naming it. |
| CleanOutput.CleanDossierCounts | repo-manager/test_clean_output.py:80-129 | Over the whole dossier, it counts: one JSON Sources header per present week; one metadata title per present week with metadata, at most one per week; one separator per week group; one item heading per reference in a present week. |
| CleanOutput.NoDataOncePerMissingWeek | repo-manager/test_clean_output.py:86-126 | The dossier names a missing week in exactly one "no source data" line. No other week is named in one. |
| CleanOutput.CleanDossierIgnoresMarkdown | repo-manager/test_clean_output.py:80-129 | Two indexes that differ only in markdown give the same dossier, so markdown never appears in it. |
| CleanOutput.BuildCleanDossier | repo-manager/test_clean_output.py:73-129 | The grouping loop and the nested week and item loops produce exactly `CleanDossier`. |
| CleanOutput.AppendWeeks | repo-manager/test_clean_output.py:86-129 | The week loop appends every week block in order. |
| CleanOutput.AppendWeek | repo-manager/test_clean_output.py:87-129 | Appends one week's block, including the item loop. |
| CleanOutput.AppendWeekBody | repo-manager/test_clean_output.py:90-126 | Appends what lies between a week's heading and its separator: metadata, the JSON Sources header and the item blocks, or the no-data line. |
| CleanOutput.AppendItems | repo-manager/test_clean_output.py:105-123 | The item loop of a present week appends every item block in order. |
| CleanOutput.AppendItem | repo-manager/test_clean_output.py:106-123 | Appends one item's heading and lookup outcome. |
| SourceLinking.FirstWithReferences | repo-manager/tests/test_sources.py:133-141 | The chosen idea has a non-empty related-items list. The result is `None` iff no idea has one. |
| SourceLinking.FirstWithReferencesIsFirst | repo-manager/tests/test_sources.py:133-137 | The first idea with references is the one chosen. |
| SourceLinking.PickTestIdea | repo-manager/tests/test_sources.py:132-141 | The loop that breaks at the first idea with references returns `FirstWithReferences`. |
| SourceLinking.LookupIn | repo-manager/tests/test_sources.py:91-102 | The result is "section missing" iff the section or `items` is absent. "Found" gives the first record with the id. "Item missing" means that no record has the id. |
| SourceLinking.Classify | repo-manager/tests/test_sources.py:87-110 | A reference is either without week data, exactly when its week is absent, or reported with its lookup and whether the week has markdown. |
| SourceLinking.ClassifyIndependence | repo-manager/tests/test_sources.py:91-108 | The lookup depends only on the items, and markdown availability only on the markdown. |
| SourceLinking.CleanItemBlockAgreesWithClassify | repo-manager/test_clean_output.py:109-123 | The grouped dossier's item block is the heading followed by what the classification implies. A missing section gives the not-found line, a missing record gives nothing, and a found record gives its JSON. |
| SourceLinking.LinkReference | repo-manager/tests/test_sources.py:79-110 | The scan with the `found` flag yields `Classify`. |
| SourceLinking.LinkRepository | repo-manager/tests/test_sources.py:72-110 | One report per idea and per reference, each equal to `Classify`. |
| SourceLinking.RefBlock | repo-manager/tests/test_sources.py:153-182 | A block starts with the reference's heading. A missing week adds only a blank line. |
| SourceLinking.RefHeadings | repo-manager/tests/test_sources.py:153-159 | There is one heading per reference, in order. |
| SourceLinking.BlockHeadings | repo-manager/tests/test_sources.py:158-182 | A block holds exactly one `## Week: ` line: its heading. |
| SourceLinking.OldDossierHeadings | repo-manager/tests/test_sources.py:146-183 | The `## Week: ` lines of the dossier are exactly the reference headings, in reference order. |
| SourceLinking.OldDossierRepeatsMarkdown | repo-manager/tests/test_sources.py:161-182 | A week's markdown appears at least once per reference of that week. |
| SourceLinking.BuildOldDossier | repo-manager/tests/test_sources.py:146-183 | The reference loop produces exactly `OldDossier`. |
| SourceLinking.OldDossier | repo-manager/tests/test_sources.py:146-182 | The older dossier opens with the same header as the grouped one. |
| SourceLinking.AppendRef | repo-manager/tests/test_sources.py:154-182 | Appends one reference's block. |
| Assessments.ParseAssessmentFileName | repo-manager/tests/test_assessments.py:115-118 | A name parses iff, once every `.json` is removed, it holds a `_`. The parsed type never holds `_`. |
| Assessments.AssessmentKey | repo-manager/tests/test_copy_paste.py:90 | The key is the id, `_`, the type and `.json`, laid out in that order with nothing else. |
| Assessments.ParseComposeRoundTrip | repo-manager/tests/test_assessments.py:115-118 | Parsing `id_type.json` returns `(id, type)` when the type has no `_` and neither part holds `.json`. This holds even when the id contains `_`. |
| Assessments.TypedKeyRoundTrip | repo-manager/tests/test_assessments.py:115-118 | The key of a trend or maturity assessment parses back into its idea id and type, when the id holds no `.json`. |
| Assessments.AssessmentKeyInjective | repo-manager/tests/test_copy_paste.py:90 | Equal keys of well-formed parts mean equal ids and equal types. |
| Assessments.TrendAndMaturityKeysDiffer | repo-manager/tests/test_assessments.py:156-157 | An idea's trend and maturity keys differ, whatever the id. |
| Assessments.FormatValid | repo-manager/tests/test_assessments.py:45-84 | The check passes iff the file parsed and every required field of its type is present. |
| Assessments.FilterJsonFiles | repo-manager/tests/test_assessments.py:21-37 | Keeps exactly the `.json` names, in listing order. It succeeds iff the directory exists and one name ends in `.json`. |
| Assessments.JsonNames | repo-manager/tests/test_assessments.py:29-31 | The listing loop keeps exactly the names `Filter` selects, in listing order. |
| Assessments.FirstIdeaWithId | repo-manager/tests/test_assessments.py:139-148 | Returns a record with the id, or `None` iff no record carries it. |
| Assessments.FirstIdeaWithIdAt | repo-manager/tests/test_assessments.py:140-144 | The first record carrying the id is the one returned. |
| Assessments.FindIdea | repo-manager/tests/test_assessments.py:139-144 | The scan that breaks at the first match returns `FirstIdeaWithId`. |
| AssessmentStore.FormatValidTrendAccepted | repo-manager/tests/test_copy_paste.py:59-64 | Every document that passes the full trend check passes the paste check. |
| AssessmentStore.ScoreOnlyDocumentAccepted | repo-manager/tests/test_copy_paste.py:59-64 | A document holding only `trend_score` is accepted, yet lacks `justification` and `suggested_tags`. |
| AssessmentStore.AcceptTrendDocument | repo-manager/tests/test_copy_paste.py:56-64 | The paste check accepts exactly a parsed document for which the one-field list `["trend_score"]` has no missing field. |
| AssessmentStore.Store.Write | repo-manager/tests/test_copy_paste.py:106-176 | The name then holds exactly the new document, with nothing of the old one merged. No other name changes. |
| AssessmentStore.Store.Exists | repo-manager/tests/test_copy_paste.py:113 | Reports whether the name is present. |
| AssessmentStore.Store.Read | repo-manager/tests/test_copy_paste.py:116-117 | Returns the stored document, or `None` when the name is absent. |
| AssessmentStore.Store.Remove | repo-manager/tests/test_copy_paste.py:129 | The name is absent afterwards. |
| AssessmentStore.Store.CreateReadRemove | repo-manager/tests/test_copy_paste.py:89-137 | The write-then-read scenario always succeeds and leaves the key absent. |
| AssessmentStore.Store.OverwriteReadRemove | repo-manager/tests/test_copy_paste.py:141-193 | After two writes, the read returns exactly the second document. The scenario always succeeds and leaves the key absent. |
| StructureCheck.FirstIncomplete | repo-manager/test_app.py:52-56 | The scan stops at the first idea lacking a field, and every idea before it is complete. It runs to the end iff all ideas are complete. |
| StructureCheck.FirstIncompleteReportsMissing | repo-manager/test_app.py:52-56 | The idea the scan stops at has a non-empty missing-fields list, and every earlier idea has an empty one. |
| StructureCheck.StructureValid | repo-manager/test_app.py:43-66 | An absent file fails. Otherwise the check passes iff no idea misses a field, so an empty list passes. |
| StructureCheck.StructureValidIffComplete | repo-manager/test_app.py:52-59 | The check passes iff every idea is complete. |
| StructureCheck.UpsertKeepsValid | repo-manager/src/repo_manager.py:289-310 | Saving a complete record keeps a valid list valid. |
| StructureCheck.RemoveIdKeepsValid | repo-manager/src/repo_manager.py:332 | Deleting by id keeps a valid list valid. |

## Left out

- The Tkinter window is not modelled: widgets, layout, score-label callbacks, message boxes and the main loop. The float-to-int conversion in the label callbacks goes with them.
- The list box selection after a save (repo-manager/src/repo_manager.py:317-322) is left out. It only changes which line is highlighted.
- Persisting the list (`save_repo_data`, the "Save to File" button and the save on close) is left out because it is file I/O.
- File and directory I/O is left out: `open`, `glob`, `os.listdir`, `os.path.exists`, `os.makedirs` and `os.remove`. Files become in-memory values; a file that could not be read or parsed becomes `None`.
- Directory listings are inputs. The order that `glob` or `os.listdir` returns is taken as given.
- JSON parsing and serialisation are left out. Parsed values are inputs. Record rendering is the parameter `dumps`. The related-items codec is a pair of functions fixed when the window is built.
- The rejection of malformed JSON (repo-manager/tests/test_copy_paste.py:70-77) is a property of the parser, so it is left out.
- JSON numbers are integers only. The documents and records have no floats.
- The model cannot tell a key holding `null` from an absent key.
- Keys beyond the eight idea fields are not represented.
- Values of an unexpected JSON type are left out:
  - a related-items value that is not a list;
  - a week file that is not an object;
  - a repository file that is not a list.
- Errors raised while printing assessment fields are left out (slicing or joining a value that is not a string).
- The time-based id of a new idea is a parameter (repo-manager/src/repo_manager.py:257), because it depends on the clock.
- The printed summaries, previews and `main` functions of the scripts are left out because they only print.
- The week metadata lines are modelled as strings in the dossier. `', '.join` over metadata values that are not strings is not modelled.
- repo-manager/tests/test_basic.py and repo-manager/run.py are not part of this model. The first only asserts facts about constant fixture data; the second is a launcher.
- No file implements an overlay of assessment scores onto idea scores, so none is modelled.
- Repository.ParseTags: its contract states only the shape of the tags (non-empty, trimmed, comma-free) and that blank text gives none. That the tags are the stripped non-empty pieces in order is `Repository.StripPiecesIsFilter` about the comma pieces of the stripped text. `Repository.TagsRoundTrip` and `Repository.ParseTagsStable` cover only text that is already a `", "`-join of tags; for other typed text, such as `"a,,b"` or `" a ,b"`, the model gives no closed-form result beyond those two statements.
