# RePanel, verified

A Dafny model of what RePanel relies on between a definition and a customer's
database, and proofs about it. `dafny verify dfyconfig.toml` checks all of it.

Three parts, which meet.

**A definition, its statements and its records.** `Definitions` is a definition
that is already structurally valid. `Checks` and `References` are the
referential pass over it; `Validity` is what its silence means, and `Deserving` what
each problem it reports means, both said without a checker. `Columns`, `Conditions`,
`QueryBuilder` and `WriteStatements` turn a definition and a request into a
statement, as a tree of identifiers and numbered slots; `Statements` says what PostgreSQL makes of such a tree. A left join keeps
every match, a data-modifying statement reads one snapshot (section 7.8.4 of the
PostgreSQL manual), and a server may hand back tied rows in any order, so a read
is a relation between a request and the answers it may come to (`Reader`).
`RecordsMapper` turns rows into records and `Meaning` says what a record is
without any statement. On these stand the theorems of `Servable` (what a silent
pass is worth), `Asking` and `Paging` (a page means what it says), `Picking`, `Relating`,
`Openness`, `Blindness`, `Serving` and `Secrecy` (sensitive columns have no say),
`WriteBack` and `ReadBack` (what a write does and says it did), `RecordValues`,
`ValueShapes` and `Submissions` (the two walls before a write), and `Placeholders`.
`Answering` says what each request comes to of the definition and the tables alone,
from the key it names to what is left behind.

That primary keys are unique and not null is never built into a table. It is the
hypothesis `Joins.KeysHold`, and stands only on the theorems that need it. So do
`TotalOrder`, for the server's collation, and `Search.KeepsMeta`, for its case
folding: no letter folds to `%`, `_` or a backslash.

**A connector and Cloud.** `Channels` is Cloud's end of a socket and `Clients`
the connector's, each a class proved against a step function; `Protocol` joins
them over a network that may lose, repeat and reorder whatever was ever sent on
a socket. `Sessions` is what a connector serves out of, with its pulls overlapping as
they may. `Rungs` and `FrameErrors` are the two ways to serve a request, with the
engine and the audit log free to do anything, and `Hops` puts the seven requests of
`Serving` through both, and says what each is told and what the log is handed.
`Registry` is the set of open channels, with its clock.

**Small stores.** `CustomerPools`, `Bounded`, `Accounting` and `Publishing`, with
calls interleaving only where the source awaits; and `Sources`, `Paths` and
`Locating`, for a definition written in many files and where its problems are told.

A method stands where the source changes things step by step, and its `ensures`
equates what it leaves with a specification function; the lemmas are about those
functions.

Where the code and its own comments differ, the code is followed. A connector
that holds a newer version than a request was resolved against does not refuse it
(`packages/contracts/src/connector/frames.ts:199-204` says it does); `Sessions` says
what serves it. Request ids start at 1 in each new channel and a result goes out on
whatever socket is held when the work ends, so a result may settle a request it did
not serve; `Protocol` says exactly when, and proves that it does not otherwise.
`CustomerPool.close` releases only keys that have a pool, so a call in flight can
still file one, and nothing else can.
An insert into a table that leaves the key null fails after the row is in. A hidden
primary key is still listed. A resource may validly offer an update that no
submission can fill; `Submissions` says exactly when.

## Model

| member | source | states |
|---|---|---|
| Checks.CheckUnique | packages/contracts/src/definition/resource-checks.ts:36-63 | a key claimed twice is reported at every claim after the first, and nothing else is |
| Checks.UniqueKeys | packages/contracts/src/definition/resource-checks.ts:36-63 | no duplicate is reported exactly when the keys are distinct |
| Checks.EnterFields | packages/contracts/src/definition/resource-checks.ts:36-42 | the checker indexes the first field to claim a key |
| Checks.CheckWrites | packages/contracts/src/definition/write-checks.ts:20-98 | the whole list of write problems, over the first field of each key, in order |
| Checks.CheckTableView | packages/contracts/src/definition/table-view-checks.ts:23-183 | columns, sort, search and filters, each entry with its own first problem |
| Checks.CheckDetailView | packages/contracts/src/definition/detail-view-checks.ts:10-59 | the fields of each section, then tabs of nothing, then each related list |
| Checks.CheckTones | packages/contracts/src/definition/tone-checks.ts:11-24 | each value an enum gives a tone and does not declare |
| Checks.CheckUrl | packages/contracts/src/definition/action-checks.ts:38-57 | each placeholder is asked about once |
| Checks.CheckAction | packages/contracts/src/definition/action-checks.ts:23-57 | one action: what it asks to be offered, then what it does, whichever kind it is |
| Checks.CheckActions | packages/contracts/src/definition/action-checks.ts:13-61 | the problems of each action in order |
| Checks.CheckResource | packages/contracts/src/definition/resource-checks.ts:25-89 | the list of problems of one resource, in the order it is made; what each of them means, and where, is Deserving.EachPlaceIsToldOf |
| References.CheckNavigation | packages/contracts/src/definition/navigation-checks.ts:15-71 | the problems of the groups and of the unlisted, with one list of what has been seen |
| References.NavigationIsABijection | packages/contracts/src/definition/navigation-checks.ts:15-71 | nothing is reported exactly when the groups list every resource once, and nothing else |
| References.CheckReferences | packages/contracts/src/definition/references.ts:14-35 | the whole pass is the list its parts make |
| References.SoundResource | packages/contracts/src/definition/resource-checks.ts:25-239 | a resource is passed over in silence exactly when it is sound, said without the checker |
| References.SoundCondition | packages/contracts/src/definition/visibility-checks.ts:50-105 | a condition is passed over exactly when it asks one thing of a field that is no secret and could answer it |
| References.SilentExactlyWhenValid | packages/contracts/src/definition/references.ts:14-35 | the pass reports nothing exactly when the definition is valid |
| Deserving.ReportedExactlyWhenDeserved | packages/contracts/src/definition/references.ts:14-35 | a problem is reported exactly when the definition deserves it: what is written at its path, or is missing there, is what its flaw says, rule by rule and in words that name no part of the checker |
| Deserving.EachPlaceIsToldOf | packages/contracts/src/definition/resource-checks.ts:25-239 | place by place of a resource: a flaw is told at that place's own path exactly when that place has it, and no two places share a path |
| Deserving.RelationshipMeans | packages/contracts/src/definition/resource-checks.ts:184-239 | an unknown target is told at `target`, and an unknown or secret foreign key, of whichever side holds it, at `foreignKey` |
| Deserving.ConditionFlaws | packages/contracts/src/definition/visibility-checks.ts:50-105 | a condition is told of at its field, at itself or at its literal, each for the flaws that are of that part |
| Paths.FormatPath | packages/contracts/src/definition/errors.ts:16-24 | the text of a path, segment by segment |
| Columns.SelectFields | packages/engine/src/query/columns.ts:46-97 | the loop builds the selection that the decoding theorem reads back: no secret in it, aliases by position, a join for each relation; and the first failure is the one told |
| Columns.SelectValues | packages/engine/src/query/columns.ts:119-139 | the same without joins, in the alias space asked for |
| Meaning.EachAliasReadsItsOwn | packages/engine/src/query/columns.ts:54-94 | no output column hides another: each alias reads its own item, and there are no others |
| Meaning.DecodingInvertsSelection | packages/engine/src/query/columns.ts:46-97 | read through the generated aliases, a joined row decodes to each non-sensitive field its own column, and each relation its key with its own target's name |
| Meaning.ShownIsWhatIsNotSecret | packages/engine/src/read/records.mapper.ts:27-60 | a record holds every field that is not sensitive, and nothing else |
| Meaning.EachFieldShowsItsOwnColumn | packages/engine/src/read/records.mapper.ts:27-60 | each field reads its own column as its type has it, and a relation the key it holds beside the name of the row with that key; what is null stays so |
| RecordsMapper.ToRecordDtos | packages/engine/src/read/records.mapper.ts:27-60 | the decoder's loops, with its two failures: no identity selected, and a row without a key |
| RecordsMapper.ToFieldValues | packages/engine/src/read/records.mapper.ts:91-108 | the audit reading of the first row: the touched columns, labels passed over |
| RecordsMapper.DecodesEach | packages/engine/src/read/records.mapper.ts:38-59 | rows decode one at a time and in order |
| Columns.ASecretIsUnservable | packages/engine/src/query/fields.ts:31-62 | a key or a label that is a secret is refused as unservable, and is otherwise the field declared |
| Search.EscapedMatchesLiterally | packages/engine/src/query/conditions.ts:145-148 | an escaped term matches itself and nothing else, under LIKE of section 9.7.1 of the PostgreSQL manual |
| Search.SearchIsSubstringSearch | packages/engine/src/query/conditions.ts:36-43 | for all strings, a row is found exactly when its folded text holds the folded term |
| Conditions.Parameters.Bind | packages/engine/src/query/parameters.ts:7-20 | a value is appended, and its number is how many there are |
| Conditions.SearchCondition | packages/engine/src/query/conditions.ts:23-44 | one bound term for every searched column, or the refusal of a view without any |
| Conditions.ConditionsFor | packages/engine/src/query/conditions.ts:66-124 | each filter kind: its conditions, what it binds, and what it refuses |
| Conditions.FilterConditions | packages/engine/src/query/conditions.ts:47-64 | the conditions of a request in its order, and the first refusal |
| Conditions.TheLastDeclaredStands | packages/engine/src/query/conditions.ts:53 | of two filters a view declares on one field, the later is the one asked |
| Asking.NarrowingMeans | packages/engine/src/query/query-builder.ts:86-96 | the compiled conditions, with any values bound after theirs, hold of exactly the rows the request wants: its owner's, saying the term, past every filter |
| QueryBuilder.OrderBy | packages/engine/src/query/query-builder.ts:285-328 | the sort the request or the view names, then the key unless it is the key |
| QueryBuilder.ASecretIsNotRankedBy | packages/engine/src/query/query-builder.ts:303-328 | whatever the definition, no page is ranked by a secret: asked for, it is refused, and stated by the view, passed over |
| QueryBuilder.Narrow | packages/engine/src/query/query-builder.ts:86-96 | owner, search and filters bound in that order |
| QueryBuilder.Records | packages/engine/src/query/query-builder.ts:70-124 | the page and its count, with every refusal in the order it is met |
| QueryBuilder.Record | packages/engine/src/query/query-builder.ts:129-147 | one record by its key |
| QueryBuilder.Options | packages/engine/src/query/options.ts:28-58 | the picker's two columns, its term and its ceiling |
| QueryBuilder.ASecretIsNeitherReadNorSet | packages/engine/src/query/query-builder.ts:152-269 | whatever the definition, a secret column is neither looked up nor set |
| Joins.JoinsKeepRows | packages/engine/src/query/columns.ts:69-94 | with unique keys, label joins neither add a row nor drop one |
| Ordering.OneArrangement | packages/engine/src/query/query-builder.ts:290-300 | terms that end in a unique key leave one order and no other |
| Ordering.SomeArrangement | packages/engine/src/query/query-builder.ts:285-301 | and there always is one |
| Paging.RowDecodes | packages/engine/src/read/records.mapper.ts:27-60 | a joined row with a key decodes to the record its fields mean |
| Paging.CandidatesAreTheWanted | packages/engine/src/query/query-builder.ts:98-122 | the rows query without limit and offset is exactly the wanted rows beside their labels, and the join-free count is how many they are |
| Paging.APageIsASlice | packages/engine/src/read/record-reader.ts:177-197 | whatever a page may answer, it is one slice of the wanted rows in the requested order, decoded, and the count of all of them |
| Paging.PagesTile | packages/engine/src/query/query-builder.ts:70-124 | pages 1 to the last, each asked for on its own, laid end to end, are a permutation of the wanted rows, each record once, in the requested order |
| Paging.APageIsAlwaysAnswered | packages/engine/src/read/record-reader.ts:177-197 | the server has an answer to give to every page that can be asked for |
| Paging.TheOrderIsWhatWasAsked | packages/engine/src/query/query-builder.ts:285-328 | the sort a request names, else the view's own, each in its direction; then the key, rising; no column twice |
| Picking.APickerOffersTheNamed | packages/engine/src/query/options.ts:28-58 | whatever a picker may be answered, it is the first records whose own name says the term, by name and then by key, up to the ceiling |
| Picking.AnOfferNeedsAKey | packages/engine/src/read/record-reader.ts:90-115 | a row without a key is no offer, and fails the picker it is in |
| ReadBack.AReadFindsItsRow | packages/engine/src/read/record-reader.ts:71-80 | a read answers with the record of the one row its key names |
| Relating.AReadOfNothing | packages/engine/src/read/record-reader.ts:71-80 | and, where it names none, that there is no such record |
| Relating.ARelatedListIsTheOwnersPage | packages/engine/src/read/record-reader.ts:117-175 | a related list is its target's page, narrowed to what the record points at or to what points at it; a pointer at nothing is an empty page |
| Relating.ARelatedListOfNothing | packages/engine/src/read/record-reader.ts:156-159 | a record that is not there has no related list |
| Relating.APageIsServed | packages/engine/src/read/record-reader.ts:61-69 | whether a page is answered or refused is settled by what was asked of it |
| Relating.ARecordIsServed | packages/engine/src/read/record-reader.ts:71-80 | a record is answered exactly when it is there |
| Relating.ARelatedListIsServed | packages/engine/src/read/record-reader.ts:117-137 | a related list comes to an answer or to one of the two refusals a caller can act on |
| Servable.PageIsServed | packages/engine/src/query/query-builder.ts:70-124 | for a valid definition a page compiles exactly when the view offers what is asked, and is otherwise refused as a query, never as a fault of ours |
| Servable.FiltersAreServed | packages/engine/src/query/conditions.ts:47-108 | the mismatch the compiler guards against with a bare error cannot arise |
| Servable.AListShowsItsColumns | packages/engine/src/query/fields.ts:64-70 | the columns the view names, in its order, then the key unless it is among them, hidden or not |
| Servable.RelationshipIsServed | packages/engine/src/read/record-reader.ts:144-175 | a valid relationship can be travelled, and neither column of it is a secret |
| Servable.WritesAreServed | packages/engine/src/query/write-statements.ts:159-189 | what the first wall accepts, the compiler writes |
| Servable.CallActionIsServed | packages/engine/src/actions/action-url.ts:19-65 | an address is made exactly when the record fills every placeholder |
| ActionUrls.TakingApartLosesNothing | packages/contracts/src/definition/action-checks.ts:119-121 | the placeholders found and the text between them are the whole template, and each ends at the first brace that closes it |
| ActionUrls.EveryClosedBraceIsAPlaceholder | packages/contracts/src/definition/action-checks.ts:119-121 | no placeholder is missed: text and placeholders by turns, and a brace left in the text is one nothing closes |
| ActionUrls.ResolvingFillsTheTemplate | packages/engine/src/actions/action-url.ts:19-27 | a resolved address is its template with the encoded value of each placeholder where the placeholder stood, and none is empty for want of a value |
| ActionUrls.ReadableIsWhatItSays | packages/engine/src/actions/action-url.ts:29-65 | what a record has for a placeholder: a plain value that can be written one way, or the key a relation holds, and else nothing |
| ActionUrls.NoSecretFillsAPlaceholder | packages/engine/src/actions/action-url.ts:29-65 | whatever the definition, no placeholder is filled from a secret or from a field that is not declared |
| Servable.SilenceServesEverything | packages/contracts/src/definition/references.ts:14-35 | if the pass reports nothing, no read, related list, write or action makes the compiler raise a bare error or an unservable resource |
| RecordValues.CheckRecordValues | packages/contracts/src/runtime/values.ts:36-86 | one problem at most for each key submitted, then one for each required field left out |
| RecordValues.AcceptedExactlyWhenAcceptable | packages/contracts/src/runtime/values.ts:36-86 | no problem is reported exactly when every key may be written and holds what its field takes, and nothing required is missing |
| RecordValues.ToldExactlyWhatIsDue | packages/contracts/src/runtime/values.ts:36-261 | a submission is told exactly the problems it has: for each key the first reason it may not be set, else what is wrong with its value, and each required field left out of a new record |
| RecordValues.ProblemsNameTheFaulty | packages/contracts/src/runtime/values.ts:36-86 | the keys named are the keys at fault, and no others |
| ValueShapes.FitsExactlyWhatItTakes | packages/contracts/src/runtime/values.ts:264-344 | a value fits a field exactly when the field takes it, the text of numbers, days, moments and addresses described part by part and not by how they are read |
| ValueShapes.DaysAreDays | packages/contracts/src/runtime/values.ts:316-344 | a text is a date exactly when it writes a year in four digits, and a month and a day in two, of a day there is |
| ValueShapes.MomentsAreMoments | packages/contracts/src/runtime/values.ts:317-332 | a text is a timestamp exactly when it is such a day, a time of day, seconds to the microsecond if any, and a zone if any |
| RecordValues.AssignsWhatWasSubmitted | packages/engine/src/write/record-writer.ts:312-319 | assignments are exactly the submitted keys, in declaration order |
| RecordValues.TheTwoWallsAgree | packages/engine/src/query/write-statements.ts:217-231 | what the first wall accepts the builder accepts: no secret, no key the database issues, and no key at all in an update |
| RecordValues.TheSecondWallRefuses | packages/engine/src/query/write-statements.ts:217-231 | the second wall lets through exactly what sets something and sets nothing it may not, and otherwise names what it refuses |
| Submissions.EverythingIsAccepted | packages/contracts/src/runtime/values.ts:194-315 | if any field may be written, writing a fitting value to all of them is accepted |
| Submissions.SomeCreateIsAccepted | packages/contracts/src/definition/write-checks.ts:33-40 | a valid resource offering create has a submission it accepts |
| Submissions.SomeUpdateIsAcceptedUnlessOnlyTheKeyIsEditable | packages/contracts/src/definition/write-checks.ts:33-98 | one offering update has one exactly when some field besides the key is editable |
| Submissions.AnUpdateOfferedInVain | packages/contracts/src/definition/write-checks.ts:70-85 | a definition the pass accepts whose update nothing can fill |
| WriteStatements.BindValues | packages/engine/src/query/write-statements.ts:72-73 | one slot for each assignment, in order |
| WriteStatements.InsertStatement | packages/engine/src/query/write-statements.ts:66-83 | the insert and the select that reads it back, with every refusal in order |
| WriteStatements.UpdateStatement | packages/engine/src/query/write-statements.ts:90-157 | the update, its key in one slot, and the read of what it replaces |
| WriteBack.UpdateChangesTheNamedRow | packages/engine/src/query/write-statements.ts:90-115 | an update puts its assigned columns in the row its key names, and leaves every other column, row and table |
| WriteBack.AnUpdateOfNothingChangesNothing | packages/engine/src/query/write-statements.ts:117-132 | a key that names no row changes nothing and answers with nothing |
| ReadBack.AnUpdateIsWhatItSays | packages/engine/src/write/record-writer.ts:154-193 | the one row changed, the record answered, and both readings: exactly the submitted keys, before and after |
| ReadBack.AnUpdateReadsBack | packages/engine/src/write/record-writer.ts:154-193 | the record answered is the one a later read gives, exactly when no relation of the row takes its name from the row itself and finds it changed |
| ReadBack.APointerElsewhereIsNamedAlike | packages/engine/src/query/write-statements.ts:51-65 | in particular when no relation points at the row |
| ReadBack.WritingBeforeBackRestores | packages/engine/src/query/write-statements.ts:117-157 | writing the accounted `before` back puts every column of every row back |
| ReadBack.ACreateIsWhatItSays | packages/engine/src/write/record-writer.ts:154-193 | one row more, and its record; or the failure of a table that left the key null, with the row there all the same; what a resource that offers no create comes to is Answering.AWriteNotOfferedIsRefused |
| ReadBack.ACreateReadsBack | packages/engine/src/write/record-writer.ts:154-193 | the record of a new row is the one a later read gives, exactly when the row does not name itself |
| ReadBack.AnActionIsWhatItSays | packages/engine/src/query/query-builder.ts:231-269 | a `dbUpdate` changes one column of one row and accounts for both sides of it |
| Counterexamples.ASelfNamedRowReadsBackStale | packages/engine/src/query/write-statements.ts:133-189 | a record that is its own manager, renamed, is answered with its old name |
| Answering.AnUnknownResourceIsNotFound | packages/cli/src/connector/dispatch.ts:69-100 | nothing is done with a resource the definition does not declare, whatever is asked |
| Answering.ADbUpdateSetsItsField | packages/engine/src/actions/action-runner.ts:85-182 | an action asked for by its key: the one column it names of the one row the request names takes the literal stated, nothing else changes, and both sides are accounted for |
| Answering.ADbUpdateOfNothing | packages/engine/src/actions/action-runner.ts:147-161 | where the request names no row, nothing changes and it is told so |
| Answering.AnHttpCallIsFilledFromItsRecord | packages/engine/src/actions/action-runner.ts:184-202 | a call goes to its own template, filled from the row named as it is now, or nowhere when that row cannot fill it; no table changes |
| Answering.AnHttpCallOfNothing | packages/engine/src/actions/action-runner.ts:184-202 | and to nowhere where there is no such record |
| Answering.AnUnknownActionIsNotFound | packages/engine/src/actions/action-runner.ts:246-256 | a key no action has runs nothing |
| Answering.AWriteNotOfferedIsRefused | packages/engine/src/write/record-writer.ts:154-161 | a write the resource does not offer is refused, whatever it carries, and reaches no table |
| Answering.AFaultyWriteIsRefused | packages/engine/src/write/record-writer.ts:154-164 | an offered write that is not acceptable is refused with exactly its keys at fault, and reaches no table |
| Answering.AnUpdateSetsWhatWasSubmitted | packages/engine/src/write/record-writer.ts:92-193 | an accepted update: exactly the submitted columns of the one row named, its record, and both readings |
| Answering.AnUpdateOfNothingIsNotFound | packages/engine/src/write/record-writer.ts:176-181 | of no row: nothing changes, and it is told so |
| Answering.ACreateAddsWhatWasSubmitted | packages/engine/src/write/record-writer.ts:82-193 | an accepted create: one row more, of what was submitted over what the table gives |
| Answering.AGetReadsItsRow | packages/engine/src/read/record-reader.ts:71-80 | a record, asked for by its resource's key and its own |
| Answering.AListIsAPage | packages/engine/src/read/record-reader.ts:61-69 | a list, asked for by its resource's key: a slice of the wanted rows in order, and the count of them all |
| Answering.AListNotOfferedIsRefused | packages/engine/src/read/record-reader.ts:61-69 | one the view does not offer is refused as a query |
| Answering.APickerIsOffered | packages/engine/src/read/record-reader.ts:90-115 | a picker, asked for by its resource's key |
| Answering.ARelatedListIsNarrowed | packages/engine/src/read/record-reader.ts:117-175 | a relationship, asked for by its key, is travelled to its own target, and the list narrowed to what the record points at or what points at it |
| Answering.AnUnknownRelationshipIsNotFound | packages/engine/src/read/record-reader.ts:224-234 | a key no relationship has is not found |
| Translation.APathIsTheOnlyCandidate | packages/engine/src/write/record-writer.ts:321-328 | the search for a field answers with one exactly when one assigned column matches, whatever is looked for |
| Translation.ARefusalNamesTheOneFieldItIsAbout | packages/engine/src/write/record-writer.ts:214-269 | of everything the database may say of a write, a caller is told of one field exactly when a not-null or foreign-key refusal can only have been about that one; under no other code is a field named |
| Translation.OnlyTheDatabasesRefusalsAreRefusals | packages/engine/src/audit/outcome.ts:1-40 | and it is recorded as refused exactly for the constraint and data codes, as failed otherwise |
| Translation.EachRefusalIsToldAsWhatItIs | packages/engine/src/write/record-writer.ts:214-269 | a conflict, a write cut short, a submission to mend and any other failure are each told with their own status and code, exactly for their own SQLSTATEs |
| Placeholders.APageNamesItsValues | packages/engine/src/query/query-builder.ts:86-122 | a page names each of its values once, in order, and its count exactly those bound before the limit and the offset |
| Placeholders.AnOptionListNamesItsValues | packages/engine/src/query/options.ts:28-58 | and so does a picker's statement |
| Placeholders.AReadNamesItsKey | packages/engine/src/query/query-builder.ts:129-173 | a record's read and a related list's lookup name their one value |
| Placeholders.AWriteNamesItsValues | packages/engine/src/query/write-statements.ts:71-114 | a write names each value once, its key in one slot for both halves |
| Placeholders.AnActionNamesItsValues | packages/engine/src/query/query-builder.ts:243-268 | as does a `dbUpdate` |
| Placeholders.OneShapeOneStatement | packages/engine/src/query/query-builder.ts:70-124 | requests that differ only in what they supply are one statement and one count |
| Placeholders.SameFieldsOneStatement | packages/engine/src/query/write-statements.ts:66-115 | writes of the same fields are one statement |
| Openness.AnswersAlike | packages/engine/src/query/columns.ts:46-97 | a statement that mentions public columns only is answered alike by two databases that agree on them |
| Openness.WritesAlike | packages/engine/src/query/write-statements.ts:159-189 | a write likewise, and it leaves them agreeing |
| Blindness.PageIsOpen | packages/engine/src/query/query-builder.ts:70-124 | for a valid definition, a page and its count mention public columns only, in select list, joins, conditions and order |
| Blindness.LookupIsOpen | packages/engine/src/query/query-builder.ts:157-173 | so does the lookup of a related list |
| Blindness.UpdateIsOpen | packages/engine/src/query/write-statements.ts:90-201 | so does an update, in what it sets, returns, reads before and labels |
| Secrecy.AnswersAreBlind | packages/cli/src/connector/dispatch.ts:69-100 | whatever one of two databases apart only in secrets may answer, the other may, and they are still apart only in those |
| Secrecy.RunsAreBlind | packages/cli/src/connector/dispatch.ts:69-100 | over any run of the seven requests, two such databases may give the same answers |
| Secrecy.RunsKeepSecrets | packages/cli/src/connector/dispatch.ts:69-100 | no run of requests changes a sensitive column of a row that was there |
| Counterexamples.UncheckedSearchTellsSecrets | packages/engine/src/query/conditions.ts:36-43 | and a definition the compiler takes can cover one |
| Counterexamples.ASearchTellsExactlyWhenItCoversASecret | packages/engine/src/query/conditions.ts:23-44 | for any definition, checked or not: the count of a search tells apart two databases that agree on every public column exactly when a searched column is not public |
| Channels.ConnectorChannel.Request | apps/api/src/connector-sockets/connector-channel.ts:83-102 | a fresh id, waiting with its deadline running, and its frame; or nothing on a closed channel |
| Channels.ConnectorChannel.Receive | apps/api/src/connector-sockets/connector-channel.ts:120-152 | a heartbeat, a result, a question, or text that is no frame at all |
| Channels.ConnectorChannel.Abandon | apps/api/src/connector-sockets/connector-channel.ts:179-188 | everyone waiting is told, their timers stopped, and nobody is left |
| Channels.StepTellsTheWaiting | apps/api/src/connector-sockets/connector-channel.ts:83-188 | a step tells those who were waiting and no longer are, each of them, no one else, no one twice |
| Channels.AClosedChannelSaysNothing | apps/api/src/connector-sockets/connector-channel.ts:60-213 | what each event has sent, as it was given, on a channel that is open; and on a closed one nothing |
| Channels.EveryRequestIsSettledOnce | apps/api/src/connector-sockets/connector-channel.ts:47-188 | over every run, each request issued has been told once or waits with its deadline running, and on a closed channel all have been told |
| Clients.ConnectorClient.Opened | packages/cli/src/connector/client.ts:139-144 | the heartbeat starts and the session is asked for |
| Clients.ConnectorClient.AskCloud | packages/cli/src/connector/client.ts:258-280 | an id never used before, waiting with its deadline running |
| Clients.ConnectorClient.Closed | packages/cli/src/connector/client.ts:287-315 | torn down; ended for a reason waiting will not fix; or a retry armed and the next wait drawn |
| Clients.ConnectorClient.Teardown | packages/cli/src/connector/client.ts:325-333 | both timers stopped and everyone waiting failed |
| Clients.RunsAreOrderly | packages/cli/src/connector/client.ts:77-334 | at most one retry and one heartbeat run, each the one held; every question waits with its deadline; `run` has come back at most once |
| Clients.NothingFollowsTheEnd | packages/cli/src/connector/client.ts:95-109 | once it has, nothing is dialled |
| Clients.TheWaitingAre | packages/cli/src/connector/client.ts:139-280 | a socket that opens asks for a session and a pull for the definition, each under an id of its own; a question waits until its answer, its deadline, or the end of the socket or the run, and no longer |
| Clients.TheRunGoesOnUntilItIsEnded | packages/cli/src/connector/client.ts:95-315 | over every run: `run` comes back with the first stop, refused handshake or close that says 4001, 4002 or 1003, and not before; until then a socket lives or a retry is armed |
| Clients.TheWaitGrows | packages/cli/src/connector/client.ts:306-314 | after n connections that came to nothing the wait is between min(30000, 1000 · 1.5ⁿ) and min(30000, 1000 · 2.5ⁿ and its roundings) ms, and 1000 once a session opens |
| Clients.TheNextWaitIsDrawn | packages/cli/src/connector/client.ts:314 | each wait is the whole number nearest to the last one times one and a half and its noise, or the longest there is |
| Protocol.AnswersMeetTheirQuestions | packages/cli/src/connector/client.ts:169-188 | in all runs of both ends over a lossy network, an answer settles only the question it answers |
| Protocol.IdsStandForTheirRequests | apps/api/src/connector-sockets/connector-channel.ts:83-152 | in all runs, a request's id stands for its descriptor wherever that has got to: waiting, on its way down, or being served |
| Protocol.ResultsMeetTheirRequests | packages/cli/src/connector/client.ts:196-233 | in every run whose work is steady as it ends, a result settles only the request whose descriptor it served |
| Protocol.WorkOnItsOwnSocketIsSteady | packages/cli/src/connector/client.ts:196-233 | in all runs, work that ends on the socket it came in on is steady: so it is where no serve spans a reconnect |
| Protocol.AResultMayStrayExactlyWhenMisaddressed | apps/api/src/connector-sockets/connector-channel.ts:140-152 | at any moment of any run, a result on the wire may yet settle a request it did not serve exactly when its id is still to be given out on that open channel, or is another request's there |
| Protocol.WorkMayStrayExactlyWhenUnsteady | packages/cli/src/connector/client.ts:227-232 | at any moment of any run, what ending work sends may do so exactly when the client is connected and that holds of the channel it is held to; unconnected, nothing is sent |
| Protocol.OneUnsteadyEndIsEnough | packages/cli/src/connector/client.ts:227-232 | with all other work steady, an unfair settlement can come of one piece of work exactly when it is not steady itself |
| Protocol.AServeAcrossAReconnectAnswersTheWrongRequest | packages/cli/src/connector/client.ts:227-232 | such work can be reached: a run in which one serve spans a reconnect, and a request is settled with another's answer |
| Protocol.EachChannelMovesByItself | apps/api/src/connector-sockets/connector-channel.ts:60-213 | every step of the two ends moves a channel by its own events and no others, and what it sends goes down its own socket |
| Protocol.TheClientMovesByItself | packages/cli/src/connector/client.ts:95-315 | and the connector by its own |
| Protocol.ARequestCanBeServed | packages/cli/src/connector/client.ts:169-256 | wherever a run has got to with the two ends open to each other, a request can be served: it goes on in four steps to the request settled by the result of its own work |
| Protocol.AQuestionCanBeAnswered | packages/cli/src/connector/client.ts:169-192 | and a question on its way up answered: in three steps more it has its answer, and waits no longer |
| Protocol.APublishIsPulled | packages/cli/src/connector/client.ts:189 | and what is published is pulled: Cloud's word of it is heard, and the definition asked for |
| Sessions.ConnectorSession.Open | packages/cli/src/connector/session.ts:44-47 | the secret is taken even when the definition is not |
| Sessions.ConnectorSession.Serve | packages/cli/src/connector/session.ts:55-69 | a definition that validates replaces what is held, none empties it, and one that does not validate leaves it |
| Sessions.TheHeldIsTheLastDelivered | packages/cli/src/connector/session.ts:25-75 | over every run, what is held is the last definition delivered since the channel last closed that validates, or none, if none came after it |
| Sessions.APullLetsItsWaitersGo | packages/cli/src/connector/client.ts:196-256 | a pull that is over lets go of everyone who waited on it and of nobody else, with its version exactly when it brought one that validates |
| Sessions.AClosedSessionHoldsNothing | packages/cli/src/connector/client.ts:287-333 | a channel that closes leaves nothing held, no pull under way, and everyone who waited to be refused |
| Sessions.ServedOutOfItsOwnVersionExactlyWhenHeld | packages/cli/src/connector/client.ts:196-233 | over every run, a request is served out of the very definition it was resolved against exactly when the session holds its version once any pull is over; refused exactly when nothing is held, and never for holding something newer |
| Sessions.ANewerSessionServesAtOnce | packages/contracts/src/connector/frames.ts:199-204 | wherever a run has got to with a request's own version held, or a newer one, what is held serves it at once, where the comment has a newer one refused; with less, it waits on a pull |
| Sessions.OlderOnlyWhenThePullBringsNothing | packages/cli/src/connector/client.ts:237-256 | in every run whose pulls do not overlap, the version never goes back while a channel lasts, and an older one serves a request only when its pull brought nothing |
| Sessions.AFailedPullServesTheOlder | packages/cli/src/connector/client.ts:245-255 | wherever an older version is held, a pull may fail and that version serve |
| Sessions.ADeliveryGoesBackExactlyWhenItIsOlder | packages/cli/src/connector/session.ts:55-69 | a delivery takes the version back exactly when it is older than what is held, and validates or is none |
| Sessions.TwoPullsGoBack | packages/cli/src/connector/client.ts:237-244 | wherever a version is published, two overlapping pulls can take the session past it and back |
| FrameErrors.RebuiltIsTheSame | apps/api/src/runtime/frame-errors.ts:46-56 | every error the engine raises comes back over the hop as what it was |
| FrameErrors.ToldTheSameUnlessNewer | apps/api/src/errors/domain-exception.filter.ts:41-87 | a caller sees the same status and envelope, exactly when the error is not one of a newer build's |
| Rungs.Perform | packages/engine/src/write/record-writer.ts:118-144 | the engine's accounting: a success waits for the log, a failure does not, and an `httpCall` is held to neither |
| Rungs.Serve | packages/cli/src/connector/dispatch.ts:47-67 | the far end: the reply as a frame, and the events collected |
| Rungs.File | apps/api/src/runtime/connector.executor.ts:144-150 | events filed in order, up to the first refusal that counts |
| Rungs.ServeLocally | apps/api/src/runtime/local.executor.ts:22-62 | the local rung |
| Rungs.ServeOverConnector | apps/api/src/runtime/connector.executor.ts:98-138 | the connector rung |
| Rungs.TheRungsAreOne | apps/api/src/runtime/connector.executor.ts:118-138 | for every request, engine behaviour and way the log may refuse, both rungs show the same answer or error and hand the log the same events in the same order; a newer build's error is the one exception, and always is |
| Rungs.NamedWorkIsFiledOnce | packages/engine/src/actions/action-runner.ts:85-136 | every named write or action is put to the log once, and one told to have succeeded was taken by it, unless it was an `httpCall` |
| Hops.EveryRequestIsServedAsItShould | apps/api/src/errors/domain-exception.filter.ts:41-87 | each of the seven requests, both ways it may be served: told its own result, or what stood in its way by its status and code; and put to the log exactly when it is a write to a resource there is or an action it has, as accepted, refused or broken, with the reason |
| Hops.EveryRequestIsServedAlike | packages/cli/src/connector/dispatch.ts:69-100 | each of the seven requests, with whatever the engine may answer from the tables: shown and filed over a connector as without one, with no exception left |
| Bounded.Abandon | packages/engine/src/pool/bounded-statement.ts:65-72 | rolled back and pooled, or destroyed |
| Bounded.RunBounded | packages/engine/src/pool/bounded-statement.ts:42-55 | it answers exactly when beginning, statement and commit are all done; a failure is rolled back, and the client pooled exactly when that was done on a connection still there; the client goes back once; an answer means a commit, and a failure none, unless the connection was lost on the commit itself |
| Accounting.Account | packages/engine/src/write/record-writer.ts:118-212 | through both stores: one attempt at the log, a success exactly when all three commands were done and a row could be read; told exactly when the log took it, and otherwise what the log threw; a failure told as it was |
| CustomerPools.CustomerPool.Enter | packages/engine/src/pool/customer-pool.ts:50-53 | a turn of `poolFor` up to its read |
| CustomerPools.CustomerPool.Resume | packages/engine/src/pool/customer-pool.ts:56-83 | and after it: served by another, begun again, or a pool filed |
| CustomerPools.CustomerPool.Release | packages/engine/src/pool/customer-pool.ts:88-99 | the generation moves whether or not there is a pool, and the pool is ended |
| CustomerPools.CustomerPool.Close | packages/engine/src/pool/customer-pool.ts:106-108 | every key with a pool released once, and no other key touched |
| CustomerPools.NoPoolOutlivesItsDsn | packages/engine/src/pool/customer-pool.ts:45-99 | under every interleaving with saves: when none awaits its release the filed pool is on the stored string; every pool is filed or ended; turns are bounded by the releases during the call |
| CustomerPools.ACallIsServed | packages/engine/src/pool/customer-pool.ts:45-99 | a call nothing comes between is served: at once with the pool there is, else with a new one on the stored string, and turned away exactly when none is stored |
| CustomerPools.TurnsAreCounted | packages/engine/src/pool/customer-pool.ts:45-99 | over every run, the turns that are bounded are those a caller has begun |
| CustomerPools.ClosedStaysEmpty | packages/engine/src/pool/customer-pool.ts:106-108 | after a close with nobody in flight, nothing is filed again |
| CustomerPools.ACallInFlightFilesAfterTheClose | packages/engine/src/pool/customer-pool.ts:106-108 | with anybody in flight, a pool can be filed that nothing ends |
| CustomerPools.FiledAfterACloseExactlyWhenInFlight | packages/engine/src/pool/customer-pool.ts:106-108 | a closed store may come to hold a pool again exactly when a call was in flight at the close |
| Publishing.VersionsTable.Insert | apps/api/src/definitions/definition-versions.repository.ts:32-45 | a row is added unless its project has that number |
| Publishing.VersionsAreInSequence | apps/api/src/definitions/definition-versions.repository.ts:29-56 | under any interleaving a project's versions are 1 to however many it has, each once and in order, and what is served passed validation |
| Publishing.NoVersionIsAltered | apps/api/src/definitions/definition-versions.repository.ts:11-18 | a version once published is there for good, as it was |
| Publishing.AnInvalidSubmissionChangesNothingServed | apps/api/src/definitions/definitions.service.ts:77-103 | over every run, a submission that does not validate is never being published, numbered or published, and its steps change no version |
| Publishing.AHeldSubmissionIsOnlyFiled | apps/api/src/definitions/definitions.service.ts:77-103 | over every run, a submission that does not ask to be published is filed and held, or filed and found invalid, at its first turn; it comes to nothing else and changes no version |
| Publishing.ASubmissionIsPublishedOrConflicts | apps/api/src/definitions/definitions.service.ts:77-140 | over every run, one that does, and validates, is over at its third turn: a version of its own project and of the very payload submitted is there, or its number had been taken |
| Publishing.ItConflictsExactlyWhenTaken | apps/api/src/definitions/definition-versions.repository.ts:32-45 | it conflicts exactly when its project has that number; otherwise its row is added |
| Publishing.EveryVersionWasSubmitted | apps/api/src/definitions/definitions.service.ts:77-140 | over every run, every version is of a payload submitted to its own project |
| Publishing.PublishingTakesTheLastFiled | apps/api/src/definitions/definitions.service.ts:130-140 | a draft asked to be published is the last one filed for its project, if it passed |
| Publishing.APublishIsPublishedOrConflicts | apps/api/src/definitions/definitions.service.ts:130-140 | over every run, a draft asked to be published is read at the first turn and over by the third: nothing there, invalid, a version of its project that is there, or its number had been taken |
| Registry.ConnectorSockets.Upgrade | apps/api/src/connector-sockets/connector-sockets.service.ts:185-203 | the newest is registered, and the one it replaces closed |
| Registry.ConnectorSockets.SocketClosed | apps/api/src/connector-sockets/connector-sockets.service.ts:198-204 | only the registered channel unregisters itself |
| Registry.ConnectorSockets.DropTheSilent | apps/api/src/connector-sockets/connector-sockets.service.ts:223-231 | the sweep, channel by channel |
| Registry.TheNewestIsRegistered | apps/api/src/connector-sockets/connector-sockets.service.ts:185-231 | at every moment the registered channel is the newest accepted, whatever is open is registered, and it has been heard from in the last 60 s |
| Registry.ACloseEvictsOnlyItself | apps/api/src/connector-sockets/connector-sockets.service.ts:198-204 | a replaced or revoked channel's close never evicts its replacement |
| Registry.ARevokedProjectIsCutOff | apps/api/src/connector-sockets/connector-sockets.service.ts:138-141 | over every run, once a token is revoked no channel of its project is open, and no other project's is touched |
| Registry.OnlyTheSilentAreSwept | apps/api/src/connector-sockets/connector-sockets.service.ts:223-231 | a sweep closes an open channel exactly when it is registered and has said nothing for 45 s |
| Sources.Locate | packages/cli/src/assemble/sources.ts:30-50 | the first of the longest covering prefixes |
| Sources.DecimalReadsBack | packages/contracts/src/definition/errors.ts:20 | an index is told apart from every other by its digits |
| Sources.LocationsRoundTrip | packages/cli/src/assemble/sources.ts:30-50 | a formatted path below a resource is located in that resource's own file, at the path it has there |
| Locating.EveryProblemIsToldWhereItIs | packages/cli/src/assemble/sources.ts:30-50 | every problem the pass reports of a composed definition is told in the file that wrote it: a resource's at its path in the resource's own file, the navigation's in the app's |
| Sources.NavigationOrder | packages/cli/src/assemble/resource-order.ts:30-40 | keys in the order first mentioned |
| Sources.CompositionIsAPermutation | packages/cli/src/assemble/resource-order.ts:14-21 | the composed resources are the files, each once |
| Sources.TheRestIsSorted | packages/cli/src/assemble/resource-order.ts:14-21 | keys the navigation does not mention come sorted |
| Sources.TheListedComeFirst | packages/cli/src/assemble/resource-order.ts:14-40 | however the navigation is written: what it lists comes first, in the order first listed; what it leaves out comes after, by key |
| Sources.CompositionFollowsTheNavigation | packages/cli/src/assemble/assemble.ts:71-84 | when the groups list each resource once, composition order is navigation order |

## Left out

- Servable.SilenceServesEverything: speaks of what the compiler raises. Failures of the database itself (timeouts, constraint and class-22 errors) are not compiled and are not in it.
- ReadBack.AnUpdateIsWhatItSays: for a statement the database accepts. What becomes of one it refuses is in Bounded and Translation, and no constraint, trigger or concurrent transaction is modelled inside a statement.
- ReadBack.WritingBeforeBackRestores: at the statement, and as far as the driver hands values back as they were given; a form may refuse a null that a required field held before.
- Secrecy.RunsAreBlind: an `httpCall` ends at the address it goes to; what the customer's application then does to the database is not modelled.
- Protocol.ResultsMeetTheirRequests: descriptors and outcomes are opaque, and the connector's own heartbeat silence is not part of the state. Definition versions and pulls are in Sessions, apart from it.
- Sessions.ServedOutOfItsOwnVersionExactlyWhenHeld: what a pull comes to is a step of its own, so a frame may be heard between an answer and its use; the action secret is held by the class and is not part of the runs.
- Hops.EveryRequestIsServedAlike: the answers are those of `Serving`, whose statements the database accepts; a refusal of the database's own is in Rungs.TheRungsAreOne and Translation.
- Clients.TheWaitGrows: over reals, with noise from 0 up to 1; the rounding of floating point is not modelled.
- Rungs.TheRungsAreOne: for a hop that delivers. A connector that is offline or does not answer in time is an error the local rung does not have, and `listRelated` may take two statements' time inside one statement's deadline.
- Bounded.RunBounded: the acquisition of a client that cannot be had at all, which releases none, comes before it.
- Registry.TheNewestIsRegistered: the sweep's timer is taken to go off on time.
- Locating.EveryProblemIsToldWhereItIs: every value with a tone is taken to be some text, as `fields.ts:64` has it of a definition's structure.
- Sources.CompositionIsAPermutation: file reading and its refusals are left out; the sort of unlisted keys is by any comparison given.
- Columns.SelectFields: an alias is a letter and a number, a column a name, and quoting of identifiers is not modelled.
- What a value is: it stands for what its column's type makes of it. Casts of bound text, the driver's conversions (a function of type and raw value here) and time zones are not modelled; what an email address is and whether a date parses are given as functions.
- The order in which a write's own rows come back when keys are not unique is fixed here and is the server's to choose.
- Two reads of one request (a page and its count, a lookup and its page) are asked of one state of the tables.
- Messages, hints and the candidates they list; only the kind of a refusal and its path are kept, and `formatPath`.
- Structural validation by zod, and how its errors are told.
- JavaScript's prototype effects in `in` and in table lookups by code.
- Tokens, passwords, sessions, roles, activity paging, the seed, HTTP controllers and all of the user interface.
