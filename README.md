# Phabricator core logic, modelled in Dafny

This project models the decision logic at the core of several Phabricator
applications and proves what that logic promises. The centre is the audit
editor's reconciliation of a commit's audit requests when an actor submits a
batch of audit comments:

- which action of the batch counts;
- the close, resign, general and bootstrap paths;
- the enrolment of added auditors;
- the auditors published with the feed story;
- the authority set of a user.

Around it are smaller self-contained pieces:

- the password-hash storage format and the hasher registry;
- Harbormaster build-status predicates;
- the git pre-receive update parser;
- Differential's transaction ordering and value rules;
- Maniphest's status tables;
- Herald's field and condition tables and adapter lookup;
- the calendar event range filter, sort and recurring "ghost" events;
- the storage schema-adjustment finder;
- the date control's helpers and request handling;
- the test-plan field's state;
- Maniphest auxiliary field keys, handles and legacy writes;
- the file-transform and dashboard panel-type registries.

Each source file is one Dafny module. Code that changes state step by step
(loops filling lists or maps, objects whose setters update fields) is a
`method` or a `class`. Each method is proved against a specification
function, and lemmas state the source's promises about those functions.
Shared helpers live in `Wrappers` (Option, Result), `Seqs` (filter, dedup,
flat map), `Strings` (search, decimal rendering) and `UniqueKeys` (a map
keyed by each item's key that refuses a second item under a key already
present).

Everything outside the logic is an input or a function parameter:

- persistence;
- the owners and project queries;
- hash algorithms;
- date arithmetic;
- class discovery by the symbol loader.

## Model

| member | source | states |
|---|---|---|
| AuditCommentEditor.ChosenAction | src/applications/audit/editor/PhabricatorAuditCommentEditor.php:61-72 | the action is Comment exactly when no comment of the batch closes, resigns, accepts or concerns; otherwise it is the action of the last such comment |
| AuditCommentEditor.PickAction | src/applications/audit/editor/PhabricatorAuditCommentEditor.php:61-72 | the scanning loop picks ChosenAction of the batch |
| AuditCommentEditor.CloseConcernedRequests | src/applications/audit/editor/PhabricatorAuditCommentEditor.php:80-86 | the loop turns exactly the concerned requests into closed ones, position by position |
| AuditCommentEditor.FindRequest | src/applications/audit/editor/PhabricatorAuditCommentEditor.php:92-98 | the position found is the first request of the auditor; None only when no request has that auditor |
| AuditCommentEditor.ResignActorRequest | src/applications/audit/editor/PhabricatorAuditCommentEditor.php:92-110 | the loop sets the actor's first request to resigned (or creates one with reason "Resigned") and appends it to the list |
| AuditCommentEditor.ApplyGeneralPath | src/applications/audit/editor/PhabricatorAuditCommentEditor.php:112-182 | the general-path loop and the bootstrap request agree with the specification of the general path, including its two throws |
| AuditCommentEditor.GeneralStatus | src/applications/audit/editor/PhabricatorAuditCommentEditor.php:130-150 | a request changes status only when its auditor is in the authority set and the action is accept or concern; an author never changes a request that is not their own |
| AuditCommentEditor.ApplyGeneral | src/applications/audit/editor/PhabricatorAuditCommentEditor.php:112-182 | throws exactly for resign, close and inline; otherwise keeps one request per existing one, same auditor and reasons, and adds at most one |
| AuditCommentEditor.AuditorList | src/applications/audit/editor/PhabricatorAuditCommentEditor.php:199 | one auditor per request, position by position |
| AuditCommentEditor.CollectAddedAuditors | src/applications/audit/editor/PhabricatorAuditCommentEditor.php:185-197 | the loop gathers every added auditor of the batch in order, repetitions kept |
| AuditCommentEditor.DistinctAuditors | src/applications/audit/editor/PhabricatorAuditCommentEditor.php:199-200 | the auditors of the request list, each once, by first appearance |
| AuditCommentEditor.EnrollAuditors | src/applications/audit/editor/PhabricatorAuditCommentEditor.php:202-215 | the list is kept and one audit-requested request "Added by <username>" is appended per added auditor that had no request, repetitions kept |
| AuditCommentEditor.KeptOutOfFeedStep | src/applications/audit/editor/PhabricatorAuditCommentEditor.php:249-262 | after one more request, an auditor is kept out of the feed exactly when that request is theirs and quiet, or it is not theirs and they were kept out before |
| AuditCommentEditor.ComputeFeedPhids | src/applications/audit/editor/PhabricatorAuditCommentEditor.php:249-265 | the set/unset loop and the difference compute the known auditors whose last-listed request is not resigned, none or not-required |
| AuditCommentEditor.AddComments | src/applications/audit/editor/PhabricatorAuditCommentEditor.php:24-269 | the whole reconciliation: final requests and feed auditors, or the exception |
| AuditCommentEditor.ApplyAction | src/applications/audit/editor/PhabricatorAuditCommentEditor.php:74-182 | the close, resign or general path for the chosen action; on success the list only grows and every existing request keeps its auditor at its position |
| AuditCommentEditor.Reconcile | src/applications/audit/editor/PhabricatorAuditCommentEditor.php:24-269 | the only failure is the disabled close; on success the list keeps every existing request's auditor at its position and only grows |
| AuditCommentEditor.LoadAuditPhidsForUser | src/applications/audit/editor/PhabricatorAuditCommentEditor.php:277-306 | the user first, then every owned package and member project, each exactly once and nothing else |
| AuditCommentEditorLemmas.OnlyDisabledCloseFails | src/applications/audit/editor/PhabricatorAuditCommentEditor.php:74-78 | the reconciliation fails exactly when the chosen action is close and authors may not close; the unknown-action throws cannot be reached |
| AuditCommentEditorLemmas.CloseOutcome | src/applications/audit/editor/PhabricatorAuditCommentEditor.php:74-86 | close turns exactly the concerned requests into closed, leaves the others and adds only enrolled auditors |
| AuditCommentEditorLemmas.ResignOutcome | src/applications/audit/editor/PhabricatorAuditCommentEditor.php:87-110 | resign changes only the actor's first request, or adds one with reason "Resigned"; in both cases the actor's request is appended |
| AuditCommentEditorLemmas.ResignIgnoresAuthority | src/applications/audit/editor/PhabricatorAuditCommentEditor.php:87-110 | the result of resigning does not depend on the authority set |
| AuditCommentEditorLemmas.GeneralOutcome | src/applications/audit/editor/PhabricatorAuditCommentEditor.php:112-150 | a request changes only for accept or concern, only inside the authority set, and only when the actor is not the author or the request is the actor's own; then it becomes accepted or concerned |
| AuditCommentEditorLemmas.BootstrapOutcome | src/applications/audit/editor/PhabricatorAuditCommentEditor.php:152-182 | with no request in the authority set, accept or concern creates exactly one "Voluntary Participant" request; otherwise only enrolled auditors follow the existing requests |
| AuditCommentEditorLemmas.KeptOutOfFeedIgnoresOthers | src/applications/audit/editor/PhabricatorAuditCommentEditor.php:249-262 | requests of other auditors do not change whether an auditor is kept out of the feed |
| AuditCommentEditorLemmas.EnrollmentAndFeed | src/applications/audit/editor/PhabricatorAuditCommentEditor.php:185-215 | requests before enrolment are kept; each added request is for a new added auditor with reason "Added by <username>"; the feed is exactly the earlier auditors not kept out, each once, and never an enrolled auditor (with lines 249-265) |
| AuditCommentEditorLemmas.FeedIsDistinct | src/applications/audit/editor/PhabricatorAuditCommentEditor.php:263-265 | the feed lists each auditor at most once |
| AuditCommentEditorLemmas.PackageOwnerConcerns | src/applications/audit/editor/PhabricatorAuditCommentEditor.php:137-142 | a non-author concerning through an owned package marks that package's request concerned and publishes it |
| AuditCommentEditorLemmas.AuthorCannotConcernByProxy | src/applications/audit/editor/PhabricatorAuditCommentEditor.php:130-154 | the author's concern through a package changes nothing, and no voluntary request is created because an authority request exists |
| AuditCommentEditorLemmas.VoluntaryAccept | src/applications/audit/editor/PhabricatorAuditCommentEditor.php:152-182 | accepting a commit with no requests creates one accepted "Voluntary Participant" request |
| AuditCommentEditorLemmas.DuplicateAddedAuditorEnrolledTwice | src/applications/audit/editor/PhabricatorAuditCommentEditor.php:202-215 | an auditor added twice in one batch gets two requests and is not published |
| AuditCommentEditorLemmas.ResignListsOwnRequestTwice | src/applications/audit/editor/PhabricatorAuditCommentEditor.php:92-110 | resigning with an existing request lists it twice, and the resigned auditor is not published |
| AuxiliaryField.AuxiliaryKeyRoundTrip | src/applications/maniphest/auxiliaryfield/ManiphestAuxiliaryFieldSpecification.php:44-46 | the auxiliary key is "std:maniphest:" followed by the set key, which can be read back, so different set keys give different auxiliary keys |
| AuxiliaryField.SelectKeys | src/applications/maniphest/auxiliaryfield/ManiphestAuxiliaryFieldSpecification.php:146-148 | the selection holds exactly the entries whose key is among the given keys, with their values |
| AuxiliaryField.Field.constructor | src/applications/maniphest/auxiliaryfield/ManiphestAuxiliaryFieldSpecification.php:13-18 | a new field has no label, key, caption, value or handles |
| AuxiliaryField.Field.SetAuxiliaryKey | src/applications/maniphest/auxiliaryfield/ManiphestAuxiliaryFieldSpecification.php:39-46 | stores the set key, after which the field key is "std:maniphest:" + key; nothing else changes (with lines 212-214) |
| AuxiliaryField.Field.SetValue | src/applications/maniphest/auxiliaryfield/ManiphestAuxiliaryFieldSpecification.php:57-60 | stores the value, which is then the markup text; nothing else changes (with lines 188-190) |
| AuxiliaryField.Field.FieldKey | src/applications/maniphest/auxiliaryfield/ManiphestAuxiliaryFieldSpecification.php:212-214 | the field key is the auxiliary key and starts with "std:maniphest:" |
| AuxiliaryField.Field.SetHandles | src/applications/maniphest/auxiliaryfield/ManiphestAuxiliaryFieldSpecification.php:144-150 | keeps exactly the given handles whose PHIDs the field requires |
| AuxiliaryField.Field.GetHandle | src/applications/maniphest/auxiliaryfield/ManiphestAuxiliaryFieldSpecification.php:152-158 | fails exactly when the PHID is not among the kept handles, and otherwise returns the kept handle |
| AuxiliaryField.Field.Validate | src/applications/maniphest/auxiliaryfield/ManiphestAuxiliaryFieldSpecification.php:66-68 | an auxiliary field always validates |
| AuxiliaryField.Field.IsRequired | src/applications/maniphest/auxiliaryfield/ManiphestAuxiliaryFieldSpecification.php:70-72 | an auxiliary field is never required |
| AuxiliaryField.MarkupKeySeparatesFields | src/applications/maniphest/auxiliaryfield/ManiphestAuxiliaryFieldSpecification.php:177-180 | two fields whose set keys differ and hold no ':' never share a markup cache key, whatever the digest |
| AuxiliaryField.Field.MarkupFieldKey | src/applications/maniphest/auxiliaryfield/ManiphestAuxiliaryFieldSpecification.php:177-180 | the cache key is "maux:", the field key, ":" and then the digest of the value |
| AuxiliaryField.WriteLegacyAuxiliaryUpdates | src/applications/maniphest/auxiliaryfield/ManiphestAuxiliaryFieldSpecification.php:246-256 | the loop computes the removal list and the update map of the specification |
| AuxiliaryField.Removals | src/applications/maniphest/auxiliaryfield/ManiphestAuxiliaryFieldSpecification.php:249-253 | the storage indexes to delete, each listed once |
| AuxiliaryField.Updates | src/applications/maniphest/auxiliaryfield/ManiphestAuxiliaryFieldSpecification.php:249-256 | the storage indexes to write, each with the last non-null value given for it (stated by UpdatesAreLastValues) |
| AuxiliaryField.RemovalsAreNullKeys | src/applications/maniphest/auxiliaryfield/ManiphestAuxiliaryFieldSpecification.php:249-253 | an index is removed exactly when some key with that digest is set to null, and no index is removed twice |
| AuxiliaryField.UpdatesAreLastValues | src/applications/maniphest/auxiliaryfield/ManiphestAuxiliaryFieldSpecification.php:249-256 | an index is updated exactly when some key with that digest has a value, and it gets the value of the last such key |
| CalendarEventQuery.DefaultOrderVector | src/applications/calendar/query/PhabricatorCalendarEventQuery.php:52-54 | the default order is start, then id |
| CalendarEventQuery.OrderableColumns | src/applications/calendar/query/PhabricatorCalendarEventQuery.php:56-66 | the parent's columns plus "start", which orders by the event's dateFrom and wins over a parent "start"; other parent columns are kept |
| CalendarEventQuery.PagingValues | src/applications/calendar/query/PhabricatorCalendarEventQuery.php:68-74 | the cursor values are exactly the default order's columns: the event's start date and id |
| CalendarEventQuery.InRange | src/applications/calendar/query/PhabricatorCalendarEventQuery.php:251-261 | an event stays unless a set range start is after its end or a set range end is before its start; 0 means unset |
| CalendarEventQuery.InsertByStart | src/applications/calendar/query/PhabricatorCalendarEventQuery.php:284 | inserting an event adds exactly that event to the sequence |
| CalendarEventQuery.InsertKeepsSorted | src/applications/calendar/query/PhabricatorCalendarEventQuery.php:284 | inserting into a list sorted by start date keeps it sorted |
| CalendarEventQuery.SortByStart | src/applications/calendar/query/PhabricatorCalendarEventQuery.php:284 | the result is sorted by start date and is a permutation of the input |
| CalendarEventQuery.FilteredPageIsSortedSubset | src/applications/calendar/query/PhabricatorCalendarEventQuery.php:247-284 | the page is sorted by start date, holds each in-range event of the input exactly as often as the input does (so it is a sub-multiset of the input), and holds an event exactly when the event is in range (a zero bound counts as unset) |
| CalendarEventQuery.UnboundedKeepsAll | src/applications/calendar/query/PhabricatorCalendarEventQuery.php:255-260 | with neither bound set no event is dropped |
| CalendarEventQuery.DateAfterShift | src/applications/calendar/query/PhabricatorCalendarEventQuery.php:114-119 | stepping once and then n times is stepping n + 1 times |
| CalendarEventQuery.StepsBelowIsFirstIndex | src/applications/calendar/query/PhabricatorCalendarEventQuery.php:114-140 | the counting loops stop at the first instance date at or after the limit, and every earlier instance date is below it |
| CalendarEventQuery.GhostIndices | src/applications/calendar/query/PhabricatorCalendarEventQuery.php:101-151 | only recurring events have ghosts; their indices run consecutively from max(1, sequence start), one per instance counted; without a range end the count is the raw result limit |
| CalendarEventQuery.GhostsOf | src/applications/calendar/query/PhabricatorCalendarEventQuery.php:101-151 | an event that does not recur has no ghosts; a recurring one has as many as the counting loops find |
| CalendarEventQuery.Query.constructor | src/applications/calendar/query/PhabricatorCalendarEventQuery.php:8-14 | a new query has no range and does not generate ghosts |
| CalendarEventQuery.Query.SetGenerateGhosts | src/applications/calendar/query/PhabricatorCalendarEventQuery.php:16-19 | sets only the ghost flag |
| CalendarEventQuery.Query.WithDateRange | src/applications/calendar/query/PhabricatorCalendarEventQuery.php:31-35 | sets only the range |
| CalendarEventQuery.Query.WillFilterPage | src/applications/calendar/query/PhabricatorCalendarEventQuery.php:247-286 | the unset loop and the sort compute the filtered, sorted page |
| CalendarEventQuery.Query.LoadPage | src/applications/calendar/query/PhabricatorCalendarEventQuery.php:97-154 | without ghost generation the loaded events are returned unchanged; with it, the events followed by the ghosts of each event in order |
| CalendarEventQuery.Query.Ghosts | src/applications/calendar/query/PhabricatorCalendarEventQuery.php:102-150 | the two counting loops and the ghost loop produce the ghosts of the specification |
| CommitHookEngine.ParsedLineRebuilds | src/applications/diffusion/engine/DiffusionCommitHookEngine.php:62-70 | a parsed line is old + " " + new + " " + ref, and only the first two spaces split it, so the ref keeps any further spaces |
| CommitHookEngine.ParseLine | src/applications/diffusion/engine/DiffusionCommitHookEngine.php:62-70 | a line that cannot be split throws, naming the line; the old and new revisions of a parsed line hold no space |
| CommitHookEngine.ParseLineFails | src/applications/diffusion/engine/DiffusionCommitHookEngine.php:62-65 | a line fails to parse exactly when it has fewer than two spaces, and the error names the line |
| CommitHookEngine.LineRoundTrip | src/applications/diffusion/engine/DiffusionCommitHookEngine.php:62-70 | joining an update whose old and new values hold no space parses back to that update |
| CommitHookEngine.ParseUpdates | src/applications/diffusion/engine/DiffusionCommitHookEngine.php:57-74 | on success one update per line, in line order; on failure the error is that of the first malformed line |
| CommitHookEngine.EmptyInputRejected | src/applications/diffusion/engine/DiffusionCommitHookEngine.php:57-65 | unset or empty input, one empty line once split, is rejected as malformed |
| CommitHookEngine.Engine.constructor | src/applications/diffusion/engine/DiffusionCommitHookEngine.php:5-7 | a new engine holds no repository or viewer, and its unset input, once split into lines, is one empty line |
| CommitHookEngine.Engine.SetStdin | src/applications/diffusion/engine/DiffusionCommitHookEngine.php:9-12 | sets only the input |
| CommitHookEngine.Engine.SetRepository | src/applications/diffusion/engine/DiffusionCommitHookEngine.php:18-21 | sets only the repository |
| CommitHookEngine.Engine.SetViewer | src/applications/diffusion/engine/DiffusionCommitHookEngine.php:27-30 | sets only the viewer |
| CommitHookEngine.Engine.ParseGitUpdates | src/applications/diffusion/engine/DiffusionCommitHookEngine.php:57-74 | the parsing loop computes ParseUpdates of the lines |
| CommitHookEngine.Engine.ExecuteGitHook | src/applications/diffusion/engine/DiffusionCommitHookEngine.php:49-55 | returns 0 exactly when the input parses, and the parse error otherwise |
| CommitHookEngine.Engine.Execute | src/applications/diffusion/engine/DiffusionCommitHookEngine.php:36-47 | any repository type other than git fails naming the type; git succeeds with 0 exactly when the input parses |
| DashboardPanelType.PanelTypeMapSpec | src/applications/dashboard/paneltype/PhabricatorDashboardPanelType.php:17-34 | building fails exactly when two panel types share a key, and the failure names the key and both classes; otherwise every panel type is under its own key and the map has one entry per loaded object |
| DashboardPanelType.BuildPanelTypeMap | src/applications/dashboard/paneltype/PhabricatorDashboardPanelType.php:17-34 | the loop builds the panel type map of the specification and fails at the first taken key |
| DashboardPanelType.PanelTypeRegistry.constructor | src/applications/dashboard/paneltype/PhabricatorDashboardPanelType.php:10 | no map is kept yet |
| DashboardPanelType.PanelTypeRegistry.AllPanelTypes | src/applications/dashboard/paneltype/PhabricatorDashboardPanelType.php:9-40 | the first successful call builds and keeps the map; later calls return the kept map unchanged; a failing build keeps nothing |
| DateControl.LabelAt | src/view/form/control/AphrontFormDateControl.php:391-396 | the half hour `half` of hour `hour` in the morning or afternoon sits at position 24·ap + 2·hour + half of the list |
| DateControl.TimeTypeaheadValues | src/view/form/control/AphrontFormDateControl.php:387-403 | 48 entries, each its own position paired with the label at that position |
| DateControl.HalfHours | src/view/form/control/AphrontFormDateControl.php:388-397 | the nested loops produce the 48 labels in order: AM before PM, hour 0 shown as 12, ":00" before ":30" |
| DateControl.LabelOfInjective | src/view/form/control/AphrontFormDateControl.php:393-395 | a label determines its half of the day, hour and half hour |
| DateControl.LabelsDistinct | src/view/form/control/AphrontFormDateControl.php:387-397 | the 48 labels are pairwise different |
| DateControl.TypeaheadOrder | src/view/form/control/AphrontFormDateControl.php:389-396 | the list starts "12:00 AM", "12:30 AM", "1:00 AM", turns to "12:00 PM" at position 24 and ends "11:30 PM" |
| DateControl.InitialTimesOnTypeahead | src/view/form/control/AphrontFormDateControl.php:360-374 | start of day and unknown values give 12:00 AM, start of business 9:00 AM, end of business 5:00 PM, all suggested times; end of day is 11:59 PM, which is not one |
| DateControl.InitialTime | src/view/form/control/AphrontFormDateControl.php:355-385 | the time is "11:59 PM" exactly for end of day |
| DateControl.YearRange | src/view/form/control/AphrontFormDateControl.php:130-146 | the year range contains the current and the shown year and spans at least 7 years, exactly 7 when they are equal |
| DateControl.MinYear | src/view/form/control/AphrontFormDateControl.php:130-137 | three years before the earlier of the current year and the year shown |
| DateControl.MaxYear | src/view/form/control/AphrontFormDateControl.php:139-146 | three years after the later of the current year and the year shown |
| DateControl.InputNamesDistinct | src/view/form/control/AphrontFormDateControl.php:171-189 | the five input names are the control's name plus a two-character suffix, pairwise different, and no two controls with different names share one |
| DateControl.Control.constructor | src/view/form/control/AphrontFormDateControl.php:5-16 | a new control has no value, no error, no shown date and does not allow null |
| DateControl.Control.SetAllowNull | src/view/form/control/AphrontFormDateControl.php:18-21 | sets only whether null is allowed |
| DateControl.Control.SetInitialTime | src/view/form/control/AphrontFormDateControl.php:38-41 | sets only the initial time |
| DateControl.Control.SetValue | src/view/form/control/AphrontFormDateControl.php:100-128 | stores the epoch; null leaves the shown day, month, year and time untouched, an epoch sets them to its readable form |
| DateControl.Control.ReadValueFromRequest | src/view/form/control/AphrontFormDateControl.php:43-94 | allowing null with the box unticked clears value and error; given inputs are shown as typed and either parse (no error) or leave no value with error "Invalid"; otherwise the initial time of today is used and the error is kept (with lines 355-385) |
| DifferentialTransactionEditor.TransactionTypes | src/applications/differential/editor/DifferentialTransactionEditor.php:6-23 | the parent's types come first and are followed by six more: comment, edge, view policy, edit policy, action and inline |
| DifferentialTransactionEditor.Revision.ApplyCustomInternal | src/applications/differential/editor/DifferentialTransactionEditor.php:72-98 | view policy sets only the view policy, edit policy only the edit policy; subscribers, comment, inline, edge and action change nothing; other types go to the parent |
| DifferentialTransactionEditor.Revision.MailTo | src/applications/differential/editor/DifferentialTransactionEditor.php:165-172 | the author first, then every reviewer in order |
| DifferentialTransactionEditor.OldValue | src/applications/differential/editor/DifferentialTransactionEditor.php:25-41 | the current view or edit policy for the policy types, null for action and inline, the parent for the rest |
| DifferentialTransactionEditor.NewValue | src/applications/differential/editor/DifferentialTransactionEditor.php:43-57 | the requested value for the policy types and action, null for inline, the parent for the rest |
| DifferentialTransactionEditor.HasEffect | src/applications/differential/editor/DifferentialTransactionEditor.php:59-69 | an inline transaction has an effect exactly when it has a comment; every other type is decided by the parent |
| DifferentialTransactionEditor.ExternalHandled | src/applications/differential/editor/DifferentialTransactionEditor.php:100-117 | every revision type is handled here with nothing to do; only other types go to the parent |
| DifferentialTransactionEditor.SortTransactions | src/applications/differential/editor/DifferentialTransactionEditor.php:132-147 | the loop puts the non-inline transactions first and the inline ones after |
| DifferentialTransactionEditor.SortedIsPartition | src/applications/differential/editor/DifferentialTransactionEditor.php:132-147 | the sorted list is a permutation of the input of the same length, with every non-inline transaction before every inline one |
| DifferentialTransactionEditor.SortIsStable | src/applications/differential/editor/DifferentialTransactionEditor.php:137-146 | each group keeps its original relative order |
| DifferentialTransactionEditor.SortIsIdempotent | src/applications/differential/editor/DifferentialTransactionEditor.php:132-147 | sorting a sorted list changes nothing |
| DifferentialTransactionEditor.RevisionLineInjective | src/applications/differential/editor/DifferentialTransactionEditor.php:189-190 | "D{id}: {text}" determines both the id and the text |
| DifferentialTransactionEditor.SubjectMatchesTopicIffUntitled | src/applications/differential/editor/DifferentialTransactionEditor.php:183-195 | the subject equals the thread topic exactly when the title is the original title |
| DifferentialTransactionEditor.MailSubject | src/applications/differential/editor/DifferentialTransactionEditor.php:183-195 | "D{id}: {title}" (RevisionLineInjective: the id and the title can be read back; SubjectMatchesTopicIffUntitled relates it to the topic) |
| DifferentialTransactionEditor.ThreadTopic | src/applications/differential/editor/DifferentialTransactionEditor.php:183-195 | "D{id}: {original title}" (RevisionLineInjective and SubjectMatchesTopicIffUntitled) |
| FileTransform.GenerateTransforms | src/applications/files/transform/PhabricatorFileTransform.php:10-12 | a template that does not override the generator generates exactly itself |
| FileTransform.TransformMapSpec | src/applications/files/transform/PhabricatorFileTransform.php:22-36 | building fails exactly when two generated transforms share a key, naming that key and both transforms; otherwise every generated transform is under its own key and nothing else is in the map |
| FileTransform.DefaultTemplatesGenerateThemselves | src/applications/files/transform/PhabricatorFileTransform.php:10-24 | when no template overrides the generator, the transforms are the templates themselves, in order |
| FileTransform.AddGenerated | src/applications/files/transform/PhabricatorFileTransform.php:24-35 | the inner loop extends the map by one template's transforms, failing at the first taken key |
| FileTransform.BuildTransformMap | src/applications/files/transform/PhabricatorFileTransform.php:22-36 | the nested loops build the transform map of the specification |
| FileTransform.TransformRegistry.constructor | src/applications/files/transform/PhabricatorFileTransform.php:15 | no map is kept yet |
| FileTransform.TransformRegistry.AllTransforms | src/applications/files/transform/PhabricatorFileTransform.php:14-42 | the first successful call builds and keeps the map; later calls return the kept map unchanged; a failing build keeps nothing |
| HarbormasterBuild.InitializeNewBuild | src/applications/harbormaster/storage/build/HarbormasterBuild.php:54-57 | a new build is inactive: neither building nor complete, restartable and not resumable |
| HarbormasterBuild.FindWaitingCommand | src/applications/harbormaster/storage/build/HarbormasterBuild.php:224-231 | the search finds a command exactly when some unprocessed command has that name |
| HarbormasterBuild.IsBuilding | src/applications/harbormaster/storage/build/HarbormasterBuild.php:96-100 | a build is building exactly when its status is pending, waiting or building |
| HarbormasterBuild.IsComplete | src/applications/harbormaster/storage/build/HarbormasterBuild.php:195-205 | a build is complete exactly when its status is passed, failed, error or stopped |
| HarbormasterBuild.IsStopped | src/applications/harbormaster/storage/build/HarbormasterBuild.php:207-209 | the status is stopped (StoppedIsComplete: a stopped build is complete) |
| HarbormasterBuild.IsStopping | src/applications/harbormaster/storage/build/HarbormasterBuild.php:248-250 | a stop command is waiting (stated by StopOffered and QueuedCommandWithdrawsOffer) |
| HarbormasterBuild.IsResuming | src/applications/harbormaster/storage/build/HarbormasterBuild.php:252-254 | a resume command is waiting (stated by ResumeAndRestartOffered and QueuedCommandWithdrawsOffer) |
| HarbormasterBuild.IsRestarting | src/applications/harbormaster/storage/build/HarbormasterBuild.php:256-258 | a restart command is waiting (stated by ResumeAndRestartOffered and QueuedCommandWithdrawsOffer) |
| HarbormasterBuild.CanRestartBuild | src/applications/harbormaster/storage/build/HarbormasterBuild.php:233-235 | restart is offered unless a restart command is waiting |
| HarbormasterBuild.CanStopBuild | src/applications/harbormaster/storage/build/HarbormasterBuild.php:237-241 | stop is offered unless the build is complete, stopped or has a stop command waiting |
| HarbormasterBuild.CanResumeBuild | src/applications/harbormaster/storage/build/HarbormasterBuild.php:243-246 | resume is offered when the build is stopped and no resume command is waiting |
| HarbormasterBuild.BuildingExcludesComplete | src/applications/harbormaster/storage/build/HarbormasterBuild.php:96-100 | no build is both building and complete (with lines 195-205) |
| HarbormasterBuild.StoppedIsComplete | src/applications/harbormaster/storage/build/HarbormasterBuild.php:195-209 | a stopped build is complete |
| HarbormasterBuild.StopOffered | src/applications/harbormaster/storage/build/HarbormasterBuild.php:237-250 | stop is offered exactly when the build is not complete and no stop is waiting, so stop and resume are never offered together |
| HarbormasterBuild.ResumeAndRestartOffered | src/applications/harbormaster/storage/build/HarbormasterBuild.php:233-258 | resume is offered exactly for a stopped build with no resume waiting; restart exactly when no restart is waiting |
| HarbormasterBuild.QueuedCommandWithdrawsOffer | src/applications/harbormaster/storage/build/HarbormasterBuild.php:224-258 | once a command is queued it is waiting, and the matching stop, resume or restart is no longer offered |
| HeraldAdapter.ConditionsCoverFields | src/applications/herald/adapter/HeraldAdapter.php:58-151 | a field has conditions exactly when it is one of the thirteen fields of the field-name map, and otherwise the error names the field; each list has at least two conditions, each listed once and each a key of the condition-name map |
| HeraldAdapter.FieldNameMap | src/applications/herald/adapter/HeraldAdapter.php:58-75 | the thirteen fields and their display names |
| HeraldAdapter.ConditionNameMap | src/applications/herald/adapter/HeraldAdapter.php:77-97 | the seventeen conditions and their display names |
| HeraldAdapter.ConditionsForField | src/applications/herald/adapter/HeraldAdapter.php:99-151 | the conditions each field allows, an error naming any other field (stated by ConditionsCoverFields) |
| HeraldAdapter.TextFieldConditions | src/applications/herald/adapter/HeraldAdapter.php:101-109 | title and body allow exactly contains, !contains, is, !is and regexp |
| HeraldAdapter.FirstForContentType | src/applications/herald/adapter/HeraldAdapter.php:214-227 | the result is the first adapter in list order with the content type; the lookup fails, naming the content type, exactly when no adapter has it |
| HeraldAdapter.ContentType | src/applications/herald/adapter/HeraldAdapter.php:51-53 | the class name unless an adapter overrides it; FirstForContentType and FirstIsUnique state the lookup by it |
| HeraldAdapter.AdapterRegistry.constructor | src/applications/herald/adapter/HeraldAdapter.php:195 | no adapter list is kept yet |
| HeraldAdapter.IsEnabled | src/applications/herald/adapter/HeraldAdapter.php:43-45 | an adapter is enabled unless it overrides isEnabled to say no |
| HeraldAdapter.AdapterRegistry.AllAdapters | src/applications/herald/adapter/HeraldAdapter.php:194-202 | while the kept list is empty the loaded list is kept and returned; otherwise the kept list is returned unchanged |
| HeraldAdapter.AdapterRegistry.AllEnabledAdapters | src/applications/herald/adapter/HeraldAdapter.php:204-212 | exactly the adapters of the list that are enabled, in order |
| HeraldAdapter.AdapterRegistry.AdapterForContentType | src/applications/herald/adapter/HeraldAdapter.php:214-227 | the search loop returns the first adapter of the list with the content type, or fails |
| HeraldAdapter.FirstIsUnique | src/applications/herald/adapter/HeraldAdapter.php:217-221 | an adapter with the content type and none before it is the one found |
| HeraldAdapter.AllEnabledByDefault | src/applications/herald/adapter/HeraldAdapter.php:43-45 | when no adapter overrides isEnabled, every adapter is enabled (with lines 204-212) |
| ManiphestTaskStatus.SeriousBusinessIgnored | src/applications/maniphest/constants/ManiphestTaskStatus.php:20-39 | the status map is the literal of six statuses on every install, so a serious install still has "Spite" and names status 5 "Spite" |
| ManiphestTaskStatus.TaskStatusMap | src/applications/maniphest/constants/ManiphestTaskStatus.php:12-35 | getTaskStatusMap as written: the six-entry literal, "Spite" included, with "Spite" set again on an install that is not serious; SeriousBusinessIgnored proves it is the literal on every install |
| ManiphestTaskStatus.SpiteOnlyWhenNotSerious | src/applications/maniphest/constants/ManiphestTaskStatus.php:12-35 | the evidently intended map has "Spite" exactly when the install is not serious, keeps the other five statuses with their names, and equals the map as written on an install that is not serious |
| ManiphestTaskStatus.StatusKeys | src/applications/maniphest/constants/ManiphestTaskStatus.php:105 | the keys of the status map, each once: exactly the six constants 0 to 5, 5 included, whatever the setting |
| ManiphestTaskStatus.TaskStatusName | src/applications/maniphest/constants/ManiphestTaskStatus.php:37-39 | the map's name for a known status, "Unknown Status" otherwise (stated by SeriousBusinessIgnored and UnknownStatusNames) |
| ManiphestTaskStatus.TaskStatusFullName | src/applications/maniphest/constants/ManiphestTaskStatus.php:41-58 | the full name of each constant, "???" otherwise (stated by FullNameExtendsName and UnknownStatusNames) |
| ManiphestTaskStatus.UnknownStatusNames | src/applications/maniphest/constants/ManiphestTaskStatus.php:37-58 | a status outside the constants is named "Unknown Status", and its full name is "???" |
| ManiphestTaskStatus.FullNameExtendsName | src/applications/maniphest/constants/ManiphestTaskStatus.php:12-58 | the full name of a known status is its short name when open, and "Closed, " followed by its short name otherwise |
| ManiphestTaskStatus.OpenIffStatusOpen | src/applications/maniphest/constants/ManiphestTaskStatus.php:98-121 | a status is open exactly when it is the open constant, and closed exactly when it is not |
| ManiphestTaskStatus.OpenStatusConstants | src/applications/maniphest/constants/ManiphestTaskStatus.php:98-102 | the open constants: the open status alone (its consequence, open exactly for status 0, is stated by OpenIffStatusOpen) |
| ManiphestTaskStatus.IsClosedStatus | src/applications/maniphest/constants/ManiphestTaskStatus.php:119-121 | closed is not open (stated as "closed exactly when not the open constant" by OpenIffStatusOpen) |
| ManiphestTaskStatus.IsOpenStatus | src/applications/maniphest/constants/ManiphestTaskStatus.php:110-117 | a status is open when it equals one of the open constants (stated by OpenIffStatusOpen) |
| ManiphestTaskStatus.ClosedStatusConstants | src/applications/maniphest/constants/ManiphestTaskStatus.php:104-108 | the map's keys that are not open constants, in order (stated by ClosedConstants) |
| ManiphestTaskStatus.ClosedConstants | src/applications/maniphest/constants/ManiphestTaskStatus.php:104-108 | the closed constants are the map's keys other than open, in the map's order: resolved, wontfix, invalid, duplicate and spite, on every install |
| ManiphestTaskStatus.ClosedConstantsAreClosedKeys | src/applications/maniphest/constants/ManiphestTaskStatus.php:104-121 | a status is a closed constant exactly when the map knows it and it is closed |
| ManiphestTaskStatus.StatusColor | src/applications/maniphest/constants/ManiphestTaskStatus.php:131-136 | green for an open status, black otherwise (stated by Presentation) |
| ManiphestTaskStatus.StatusIcon | src/applications/maniphest/constants/ManiphestTaskStatus.php:138-145 | "dislike" for spite, "delete" for duplicate, none otherwise (stated by Presentation) |
| ManiphestTaskStatus.StatusActionName | src/applications/maniphest/constants/ManiphestTaskStatus.php:123-129 | "Spited" for spite and none otherwise (stated by Presentation: an action name exactly for spite) |
| ManiphestTaskStatus.Presentation | src/applications/maniphest/constants/ManiphestTaskStatus.php:123-145 | the color is green exactly for the open status and black otherwise; only spite has an action name; a status with an icon is closed |
| ManiphestTaskStatus.Defaults | src/applications/maniphest/constants/ManiphestTaskStatus.php:86-96 | the default status is open; the default closed and the duplicate statuses are closed |
| ManiphestTaskStatus.DefaultStatus | src/applications/maniphest/constants/ManiphestTaskStatus.php:86-88 | the open status (stated by Defaults: the default status is open) |
| ManiphestTaskStatus.DefaultClosedStatus | src/applications/maniphest/constants/ManiphestTaskStatus.php:90-92 | the resolved status (stated by Defaults: it is closed) |
| ManiphestTaskStatus.DuplicateStatus | src/applications/maniphest/constants/ManiphestTaskStatus.php:94-96 | the duplicate status (stated by Defaults: it is closed) |
| ManiphestTaskStatus.InvalidatesNotRecognized | src/applications/maniphest/constants/ManiphestTaskStatus.php:162-164 | as written, "invalidates" is not a key of the prefix map |
| ManiphestTaskStatus.StatusPrefixMapAsWritten | src/applications/maniphest/constants/ManiphestTaskStatus.php:148-173 | getStatusPrefixMap as written, "invaldiates" included: every word mapped to a status closes a Maniphest task, and "ref", "refs", "references" and "cf." close nothing |
| ManiphestTaskStatus.StatusPrefixMap | src/applications/maniphest/constants/ManiphestTaskStatus.php:162-164 | the prefix map with the misspelled entry corrected to "invalidates", the corrected half of the second finding (stated by PrefixMapCloses) |
| ManiphestTaskStatus.PrefixMapCloses | src/applications/maniphest/constants/ManiphestTaskStatus.php:148-173 | in the corrected prefix map every word with a status closes a Maniphest task, the reference words close nothing, and all three forms of "invalidate" close as invalid |
| ManiphestTaskStatus.StatusSuffixMap | src/applications/maniphest/constants/ManiphestTaskStatus.php:175-184 | the suffix phrases and the status each closes to (stated by SuffixMapCloses: every one is closed) |
| ManiphestTaskStatus.SuffixMapCloses | src/applications/maniphest/constants/ManiphestTaskStatus.php:175-184 | every suffix closes a Maniphest task |
| PasswordHasher.StorageForm | src/infrastructure/util/password/PhabricatorPasswordHasher.php:121-140 | the stored form is "name:hash" exactly when the hash fits the hasher's length, and otherwise the error carries the name, the actual length and the expected length |
| PasswordHasher.ParseStorage | src/infrastructure/util/password/PhabricatorPasswordHasher.php:150-165 | parsing fails exactly when there is no ':'; otherwise the name and the hash hold no ':', and "name:hash" is a prefix of the input followed by its end or by a ':' |
| PasswordHasher.StorageRoundTrip | src/infrastructure/util/password/PhabricatorPasswordHasher.php:139-165 | parsing "name:hash" gives back the name and the hash when neither holds a ':' |
| PasswordHasher.NameRoundTrip | src/infrastructure/util/password/PhabricatorPasswordHasher.php:139-165 | parsing "name:hash" gives back the name whatever the hash is, when the name holds no ':' |
| PasswordHasher.Names | src/infrastructure/util/password/PhabricatorPasswordHasher.php:177-206 | the names of the hashers, in order |
| PasswordHasher.AllHashers | src/infrastructure/util/password/PhabricatorPasswordHasher.php:174-210 | a built registry is the loaded hashers in load order; it throws only for storage overflow or a repeated name |
| PasswordHasher.UsableHashers | src/infrastructure/util/password/PhabricatorPasswordHasher.php:220-228 | exactly the registered hashers that can hash passwords |
| PasswordHasher.AllHashersSucceeds | src/infrastructure/util/password/PhabricatorPasswordHasher.php:174-209 | the registry builds exactly when every hasher's name, length and separator fit in 128 characters and no two hashers share a name, and then it holds every loaded hasher in load order |
| PasswordHasher.OverflowThrows | src/infrastructure/util/password/PhabricatorPasswordHasher.php:183-195 | one hasher that may not fit storage makes the registry throw |
| PasswordHasher.BuildRegistry | src/infrastructure/util/password/PhabricatorPasswordHasher.php:174-209 | the loop builds the registry of the specification and throws at the first hasher that does not fit or repeats a name |
| PasswordHasher.Lookup | src/infrastructure/util/password/PhabricatorPasswordHasher.php:263-269 | a hasher found under a name is in the registry and has that name; finding none means no hasher has the name |
| PasswordHasher.LookupFindsEach | src/infrastructure/util/password/PhabricatorPasswordHasher.php:263-265 | with unique names, each hasher is found under its own name |
| PasswordHasher.LookupFinds | src/infrastructure/util/password/PhabricatorPasswordHasher.php:263-269 | a name is found exactly when some hasher has it |
| PasswordHasher.AllUsableHashers | src/infrastructure/util/password/PhabricatorPasswordHasher.php:220-229 | fails exactly when the registry throws; otherwise it holds exactly the loaded hashers that can hash passwords |
| PasswordHasher.Strongest | src/infrastructure/util/password/PhabricatorPasswordHasher.php:238-240 | the chosen hasher is one of the list and at least as strong as every other |
| PasswordHasher.BestHasher | src/infrastructure/util/password/PhabricatorPasswordHasher.php:237-250 | a registry that throws makes it throw the same; the result is a loaded hasher that can hash; with a built registry the only failure is that no hasher is usable |
| PasswordHasher.BestHasherIsStrongest | src/infrastructure/util/password/PhabricatorPasswordHasher.php:237-250 | the best hasher is a usable loaded hasher at least as strong as every usable one; when the registry builds it throws only if no hasher is usable |
| PasswordHasher.RegistryNamesUnique | src/infrastructure/util/password/PhabricatorPasswordHasher.php:197-206 | once the registry builds, two loaded hashers with the same name are the same hasher |
| PasswordHasher.HasherForHash | src/infrastructure/util/password/PhabricatorPasswordHasher.php:259-283 | a hash without ":" is malformed; the hasher found is loaded, can hash and has the stored name |
| PasswordHasher.HasherForHashCases | src/infrastructure/util/password/PhabricatorPasswordHasher.php:259-282 | the hasher for a stored hash is the usable hasher with its name; it throws "not usable" exactly when a hasher with the name cannot hash, and "unknown" exactly when no hasher has the name |
| PasswordHasher.CanHashBeUpgraded | src/infrastructure/util/password/PhabricatorPasswordHasher.php:295-300 | answers exactly when both the stored hash's hasher and the best hasher are found; not upgradable means the two have the same name |
| PasswordHasher.NotUpgradableIsStrongest | src/infrastructure/util/password/PhabricatorPasswordHasher.php:295-300 | a hash that cannot be upgraded uses a hasher at least as strong as every usable one |
| PasswordHasher.NewPasswordHash | src/infrastructure/util/password/PhabricatorPasswordHasher.php:311-315 | fails as the best hasher does; a new hash is the best hasher's name, ":", and its digest of the password |
| PasswordHasher.ComparePassword | src/infrastructure/util/password/PhabricatorPasswordHasher.php:326-334 | fails as the hasher lookup does, then as the storage form does when the digest is too long; otherwise it reports a match exactly when the stored text is the hasher's name, ":", and its digest of the password |
| PasswordHasher.NewHashVerifiesAndIsCurrent | src/infrastructure/util/password/PhabricatorPasswordHasher.php:311-334 | a new hash compares equal to its own password and cannot be upgraded, when the best hasher's name holds no ':' |
| PasswordHasher.WrongPasswordFails | src/infrastructure/util/password/PhabricatorPasswordHasher.php:326-334 | a password whose digest differs does not match a new hash |
| StorageAdjust.PatchCheck | src/infrastructure/storage/management/workflow/PhabricatorStorageManagementAdjustWorkflow.php:22-48 | adjusting is allowed exactly when the patch list exists and holds every known patch; no list is "not initialized", a missing patch is "patches missing" |
| StorageAdjust.RequireAllPatchesApplied | src/infrastructure/storage/management/workflow/PhabricatorStorageManagementAdjustWorkflow.php:22-48 | passes only with a patch list holding every known patch; fails only as not initialized or patches missing |
| StorageAdjust.ExtraPatchesAllowed | src/infrastructure/storage/management/workflow/PhabricatorStorageManagementAdjustWorkflow.php:34-38 | applied patches that no patch list knows never block adjusting |
| StorageAdjust.DatabaseAdjustment | src/infrastructure/storage/management/workflow/PhabricatorStorageManagementAdjustWorkflow.php:180-196 | a database gets one adjustment exactly when it has a charset or collation issue; it carries those issues, charset first, and the expected charset and collation |
| StorageAdjust.TableAdjustment | src/infrastructure/storage/management/workflow/PhabricatorStorageManagementAdjustWorkflow.php:198-219 | a table gets one adjustment exactly when both schemata have it and it has a collation issue; it asks for the expected table collation |
| StorageAdjust.TableAdjustmentsWellFormed | src/infrastructure/storage/management/workflow/PhabricatorStorageManagementAdjustWorkflow.php:198-219 | every table adjustment names a table both schemata have and the expected collation |
| StorageAdjust.AdjustmentsWellFormed | src/infrastructure/storage/management/workflow/PhabricatorStorageManagementAdjustWorkflow.php:164-224 | every adjustment found names a database both schemata have, is of kind database or table, and asks for the expected settings |
| StorageAdjust.DatabaseAdjustmentFirst | src/infrastructure/storage/management/workflow/PhabricatorStorageManagementAdjustWorkflow.php:171-221 | a database has a database-kind adjustment among its own exactly when it has a charset or collation issue; that adjustment comes first, and every other adjustment of the database is for a table |
| StorageAdjust.FindAdjustments | src/infrastructure/storage/management/workflow/PhabricatorStorageManagementAdjustWorkflow.php:164-224 | the outer loop collects the adjustments of the specification, skipping databases that either schema lacks |
| StorageAdjust.FindAdjustmentsFor | src/infrastructure/storage/management/workflow/PhabricatorStorageManagementAdjustWorkflow.php:171-221 | one pass of the outer loop gives the adjustments of one database of the specification: none when either schema lacks it, else its own then its tables' |
| StorageAdjust.FindDatabaseAdjustment | src/infrastructure/storage/management/workflow/PhabricatorStorageManagementAdjustWorkflow.php:180-196 | the issue list of one database gives its adjustment of the specification |
| StorageAdjust.FindTableAdjustments | src/infrastructure/storage/management/workflow/PhabricatorStorageManagementAdjustWorkflow.php:198-220 | the inner loop collects the table adjustments of the specification, skipping tables that either schema lacks |
| StorageAdjust.ApplyAdjustments | src/infrastructure/storage/management/workflow/PhabricatorStorageManagementAdjustWorkflow.php:132-156 | each adjustment's ALTER statement runs in order; the loop succeeds exactly when every kind is known, and otherwise stops at the first unknown kind, naming it, after the statements before it |
| StorageAdjust.StatementFor | src/infrastructure/storage/management/workflow/PhabricatorStorageManagementAdjustWorkflow.php:133-153 | a statement exactly for the database and table kinds, for the adjustment's database and collation |
| StorageAdjust.Execute | src/infrastructure/storage/management/workflow/PhabricatorStorageManagementAdjustWorkflow.php:16-20 | a failed patch check runs nothing and is the result; otherwise the result is 0, nothing runs without confirmation, and with confirmation one statement runs per adjustment found (with lines 61-75, 118-121) |
| TestPlanField.RenderLabelForCommitMessage | src/applications/differential/field/specification/DifferentialTestPlanFieldSpecification.php:72-83 | the label written into commit messages is one of the labels parsing accepts |
| TestPlanField.SupportedCommitMessageLabels | src/applications/differential/field/specification/DifferentialTestPlanFieldSpecification.php:76-83 | the four labels parsing accepts; RenderLabelForCommitMessage proves the rendered label is among them |
| TestPlanField.RenderSettlesError | src/applications/differential/field/specification/DifferentialTestPlanFieldSpecification.php:8-32 | rendering leaves no uninitialized error: an uninitialized field is flagged exactly when the plan is required; a settled error is kept; rendering twice is rendering once |
| TestPlanField.ParseValueFromCommitMessage | src/applications/differential/field/specification/DifferentialTestPlanFieldSpecification.php:90-92 | the parsed value is the text of the message field, unchanged |
| TestPlanField.Field.constructor | src/applications/differential/field/specification/DifferentialTestPlanFieldSpecification.php:6-9 | a new field has an empty plan and an uninitialized error |
| TestPlanField.Field.DidSetRevision | src/applications/differential/field/specification/DifferentialTestPlanFieldSpecification.php:15-17 | the plan becomes the revision's test plan, a missing one read as empty, and the error is kept |
| TestPlanField.Field.SetValueFromRequest | src/applications/differential/field/specification/DifferentialTestPlanFieldSpecification.php:19-23 | the plan becomes the request's "testplan" value, empty when absent, and the error is cleared |
| TestPlanField.Field.RenderEditControl | src/applications/differential/field/specification/DifferentialTestPlanFieldSpecification.php:25-39 | the error is settled as rendering settles it and the plan kept; the control shows the label, the input name, the plan and the settled error |
| TestPlanField.Field.ValidateField | src/applications/differential/field/specification/DifferentialTestPlanFieldSpecification.php:45-53 | validation fails exactly when the plan is required and empty, and then the field is marked "Required" with the message naming the missing test plan; otherwise nothing changes |
| TestPlanField.Field.SetValueFromParsedCommitMessage | src/applications/differential/field/specification/DifferentialTestPlanFieldSpecification.php:63-100 | the plan becomes the value, and the commit message and the search index then show exactly that value |
| TestPlanField.Field.RenderValueForCommitMessage | src/applications/differential/field/specification/DifferentialTestPlanFieldSpecification.php:86-88 | the plan, edit or not (stated by Field.SetValueFromParsedCommitMessage) |
| TestPlanField.Field.ValueForSearchIndex | src/applications/differential/field/specification/DifferentialTestPlanFieldSpecification.php:98-100 | the plan (stated by Field.SetValueFromParsedCommitMessage) |

## Left out

- Persistence: saving requests and builds, loading events, SQL clause builders and the queries of the schema workflow. Stored data is an input sequence or map.
- The owners-package and project queries, `updateAuditStatus`, transaction application, inline-comment loading and feed publishing in the audit editor. These are foreign collaborators. The authority set and owned groups are inputs, and the commit's aggregate status is not computed.
- AuditCommentEditor.ResignActorRequest: in PHP the resigned request object is appended a second time and so is one object listed twice. The model updates the list entry in place and appends an equal copy. Both entries carry the same status, which is all later code reads; identity of the two entries is not modelled.
- Hash algorithms are one deterministic parameter `digest`. Hasher strength is an integer, while the source uses a float.
- PasswordHasher.Strongest: msort's order among hashers of equal strength is not modelled. The model takes the later of equal-strength hashers; its contract states only that the result is at least as strong as every other.
- PasswordHasher.ComparePassword: PHP's `==` between two numeric-looking strings compares them as numbers. The model compares the strings exactly.
- PasswordHasher: PHP's `strlen` counts bytes, while the model's `|s|` counts characters. So the 128-character storage bound of the registry and the hash-length check of the storage form agree with the source only for single-byte names and hashes.
- Class discovery by the symbol loader is an input list in load order. PHP `static` caches are fields of a registry object.
- FileTransform.TransformMapSpec: the exception text is not modelled. The error carries the key and both transforms. For panel types, ClashMessage renders the text.
- DashboardPanelType.BuildPanelTypeMap: the source tests `!empty($map[$key])`. A stored panel type is an object and never empty, so the model tests whether the key is present.
- Date arithmetic (DateTime, time zones, `modify('+1 unit')`) is a strictly increasing parameter `step`; building the n-th ghost is a parameter `nth`.
- The date control's parsing, formatting and current time are parameters.
- DateControl: the time-zone lookup throws when no user is set. That path is not modelled; the viewer's time zone is part of the parsing and formatting parameters.
- HarbormasterBuild.InitializeNewBuild: the unattached list of waiting commands is treated as empty.
- HarbormasterBuildCommand is not part of this model. The three command names are string constants.
- `phutil_split_lines` is a library routine. The engine holds its standard input already split into lines. Unset or empty input splits into one empty line, so a new engine starts with `[""]`, which the parser rejects.
- CommitHookEngine.Engine.Execute: with no repository set, PHP fails fatally on the null repository. The model has no null repository: an unset repository type is "", so Execute returns `UnsupportedRepositoryType("")` instead.
- ManiphestTaskStatus.IsOpenStatus: a status is an integer, so PHP's loose `==` against the open constant (null, false, "0" or "" would also count as open) is not modelled.
- CalendarEventQuery.SortByStart: msort's order among events with the same start date is not modelled. The contract states sortedness and permutation only.
- HTML and Javelin rendering, console output, the confirmation prompt and the progress bar of the storage workflow are not modelled. Whether the user confirms is an input.
- Integers are mathematical. PHP integer overflow and float conversion are not modelled.
- "" stands for PHP null in the auxiliary field's value and in the request parameters read by the date control and the test-plan field.

## Findings

| source | as written | input that shows it | evidently intended | confidence | as-written member | corrected member |
|---|---|---|---|---|---|---|
| src/applications/maniphest/constants/ManiphestTaskStatus.php:20-34 | the map literal already holds the spite status, and the `!$is_serious` branch only sets it again, so `phabricator.serious-business` has no effect | serious-business on: the map still holds 5 => "Spite" | "Spite" is offered only when the install is not serious | medium, not executed | ManiphestTaskStatus.SeriousBusinessIgnored | ManiphestTaskStatus.SpiteOnlyWhenNotSerious |
| src/applications/maniphest/constants/ManiphestTaskStatus.php:162-164 | the prefix map lists "invaldiates", so "invalidates" is not recognised | the commit-message word "invalidates" | "invalidates" closes a Maniphest task as invalid, like "invalidate" and "invalidated" | high, not executed | ManiphestTaskStatus.InvalidatesNotRecognized | ManiphestTaskStatus.PrefixMapCloses |
