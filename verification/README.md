# mockdr, modelled and proved in Dafny

mockdr imitates the APIs of several security products. Around it stand audit tools that compare it with
the vendors' specifications and check the contracts it claims to keep, and a router that answers what no
route serves. This project models the algorithms of those tools and of the router, and proves what they
are relied on for, for all inputs.

| files | what they model |
|---|---|
| `Json`, `Text`, `QuotedText`, `Options`, `Routes` | values, strings and the walk over live values (`Observation`) |
| `SchemaRefs`, `SchemaDrift`, `SchemaFreeForm` | resolving references across files and the two schema walks of `scripts/schema_drift.py`, with what moving a schema does to them |
| `SchemaVerdict`, `SchemaClean`, `SchemaDetection`, `SchemaAudit` | the verdict of `scripts/schema_drift.py`: when it is clean, what a dropped or added field changes, what the settings of a platform change |
| `FieldDrift`, `FieldReport` | the key extractors and the reconciliation of `scripts/field_drift.py` |
| `KeyTree`, `KeyTreePrint`, `KeyTreeStack` | the line-wise recovery parser of `scripts/mde_docs_spec.py` and a printer it undoes |
| `Fixtures` | the tree builder of `scripts/gen_mde_fixtures.py` |
| `Shell`, `ShellQuoting`, `ShellNesting` | the small shell of `scripts/doc_examples.py` |
| `Paging` | the paging client of `scripts/paging_audit.py` against any server |
| `LiteralScan`, `LiteralGrammar` | the two object-literal scanners of the frontend audits |
| `TypeClosure` | the worklist closure of `scripts/graph_csdl_spec.py` |
| `ShadowedRoutes` | `scripts/shadowed_routes.py` against first-match dispatch |
| `BodyPosition`, `VerbProbe`, `WrongVerb` | error positions, verb probing and wrong-verb answers of `backend/main.py`, the last against `scripts/http_contract_audit.py` |

Pure code is a function here. Code that loops over variables is a method with a loop, proved equal to a
function, and the results are lemmas about that function. The shell, whose methods update its variables,
is a class.

Where the code does not meet the property one would expect of it, the code is kept as it is and the
exact condition is proved:

- A schema that follows an empty `$ref` changes meaning when `_qualify` moves it to another document.
  `SchemaDrift.RelocationKeepsPathsExactly` shows that this is the only way it can, and
  `SchemaFreeForm.RelocationKeepsVerdictExactly` that it is the only way a verdict can change.
- A list of objects that shows only nulls among its first three items is reported as drift although every
  item conforms (`SchemaVerdict.NullItemsDrift`). `SchemaClean.CleanExactly` shows, for names without dots
  and brackets, that a conforming answer is clean exactly when every list of objects with something to
  report is null or empty in one of the values sampled at its place, or shows an object there. With other
  names a member spelled like the missing path hides it (`SchemaClean.SpelledAlikeIsClean`).
- The field detector reports a leaf that holds `[{}]`, or objects with nothing else in them, as missing,
  and a null as missing and extra where an array of objects is declared, or an object whose definition has
  `properties` and does not say `type: object` (`FieldReport.NullIsReported`). `FieldReport.CleanExactly`
  shows that nothing else of this kind is reported.
- Dropping the last field of a nested object goes unnoticed by the field detector, because an empty
  object stands for everything the schema declares (the `Masked` case of
  `FieldReport.DroppedFieldIsReported`).
- The order of insertion into a fixture tree matters exactly when one name is used both as an object and
  as a list (`Fixtures.OrderFreeExactly`, and `Fixtures.OrderCanMatter` for two such paths). The paths of a
  value come back from the tree built of them under the same condition (`Fixtures.RoundTripExactly`).
- `_open_quote` and the tokenizer read `;#'` differently (`ShellQuoting.CommentsAreReadDifferently`): one
  takes a `#` for a comment where a blank stands before it, the other where no word is open.
  `ShellQuoting.ReadAlikeExactly` shows that they read a line and its beginnings alike exactly when the two
  rules say the same of every `#` outside quotes.
- The two rules for a wrong verb are written differently, and agree on a template exactly when they see the
  same custom action in it (`WrongVerb.RulesAgreeExactly`). They do on every route of the mount
  (`WrongVerb.RulesAgree`). A template with a second `splunk` segment, which the mount does not have, would
  tell them apart on a `DELETE` (`WrongVerb.ActionsCanDiffer`).
- A walk that an answer without a collection cuts short is reported clean if every identity was seen by
  then, which takes a collection with repeats (`Paging.CutWalkCanBeClean`). Over collections without
  repeats, and against servers that answer collections, clean means complete (`Paging.CleanMeansComplete`).
- `literal_keys` steps back one character at a closing brace: `{a: b}` yields the keys `a` and `b`, and
  on `{a:}` the scan never ends (`LiteralGrammar.LiteralIsRead`, `LiteralScan.StandsStillForEver`).

## Model

| member | source | states |
|---|---|---|
| `Observation.Observe` | scripts/schema_drift.py:202-213 | the recursive loop returns exactly the dotted paths `Observed` defines, cut off past depth 8 and at the sampled items |
| `Observation.ObserveOpaque` | scripts/schema_drift.py:216-231 | the loop returns exactly the null members and empty lists below which nothing can be seen |
| `Observation.ObservedStaysBelow` | scripts/schema_drift.py:202-213 | for every value, whatever is observed under a position lies below it in the sense of `_under` |
| `SchemaRefs.QualifyOnce` | scripts/schema_drift.py:88-105 | references that were qualified for one file are left alone by any further `_qualify` |
| `SchemaRefs.DerefLoop` | scripts/schema_drift.py:108-118 | the `while` loop computes the bounded chain of resolutions, at most ten, for every document and node |
| `SchemaRefs.WalkLoop` | scripts/schema_drift.py:114-115 | following a reference part by part is the recursive walk, a missing part being `{}` |
| `SchemaRefs.PropsLoop` | scripts/schema_drift.py:121-128 | the loop merges `allOf` parts over the own properties, later ones winning, cut off past depth 8 |
| `SchemaRefs.ResolveCommutes` | scripts/schema_drift.py:88-118 | one resolution step commutes with `_qualify`, for every reference that is not empty |
| `SchemaRefs.RelocatableExactly` | scripts/schema_drift.py:88-118 | a reference survives the move to every document if and only if it is not the empty string |
| `SchemaRefs.DerefCommutes` | scripts/schema_drift.py:108-118 | the whole chain of resolutions commutes with `_qualify` when no followed reference is empty |
| `SchemaRefs.PropsCommutes` | scripts/schema_drift.py:121-128 | so does collecting properties through `allOf` |
| `SchemaRefs.PropsLand` | scripts/schema_drift.py:121-128 | a schema that follows an empty reference takes on a property of the document it is moved to |
| `SchemaDrift.FlattenLoop` | scripts/schema_drift.py:186-199 | the recursive loop returns exactly the declared paths |
| `SchemaDrift.DeclaredOpaqueLoop` | scripts/schema_drift.py:234-261 | the recursive loop returns exactly the free-form paths |
| `SchemaDrift.RelocationKeepsPaths` | scripts/schema_drift.py:88-199 | a schema moved out of its file declares the same paths in every host document |
| `SchemaDrift.RelocationKeepsPathsExactly` | scripts/schema_drift.py:88-199 | it does so in every host if and only if no reference `flatten` follows is empty |
| `SchemaDrift.RelocationKeepsOpaque` | scripts/schema_drift.py:234-261 | and it leaves the same paths free-form |
| `SchemaFreeForm.RelocationKeepsOpaqueExactly` | scripts/schema_drift.py:88-261 | for names without dots and brackets, in every host if and only if no reference `declared_opaque` follows is empty |
| `SchemaDrift.EmptyRefRelocationFails` | scripts/schema_drift.py:88-118 | a concrete schema, file and host for which moving an empty reference changes the declared paths |
| `SchemaAudit.Audit` | scripts/schema_drift.py:1334-1386 | the walks, the waived and added members of a platform, the derived kinds of the first three items and the two filters give the report `JudgeRoute` defines, or none when nothing is expected |
| `SchemaAudit.DeriveLoop` | scripts/schema_drift.py:1365-1372 | the loop over the items collects the declared and the free-form paths of exactly the definitions they name |
| `SchemaAudit.SettingsExactly` | scripts/schema_drift.py:1334-1386 | against the plain verdict: what is waived is not missed, what is added is; extra is what neither explains, and every waived member the answer does carry |
| `SchemaAudit.PlainRoute` | scripts/schema_drift.py:1334-1386 | without settings and kinds the report is the plain verdict |
| `SchemaVerdict.RelocationKeepsVerdict` | scripts/schema_drift.py:88-261 | every answer is judged alike against a schema in its own file and against the moved schema |
| `SchemaVerdict.RelocationNeedsPaths` | scripts/schema_drift.py:88-199 | where a reference `flatten` follows is empty, some host and some answer are judged differently |
| `SchemaFreeForm.RelocationNeedsFreeForm` | scripts/schema_drift.py:88-261 | for names without dots and brackets, where a reference `declared_opaque` follows is empty, some host and some answer are judged differently |
| `SchemaFreeForm.RelocationKeepsVerdictExactly` | scripts/schema_drift.py:88-261 | for names without dots and brackets, every answer is judged alike in the schema's own file and in every host if and only if neither walk follows an empty reference |
| `SchemaVerdict.DeclaredIsSeen` | scripts/schema_drift.py:186-231 | at every depth, each declared path that is reported is observed, or excused by a null or an empty list, in one of the conforming values sampled at its place, whenever their lists show what they declare |
| `SchemaVerdict.SeenIsDeclared` | scripts/schema_drift.py:186-261 | at every depth, each observed path of a conforming value is declared or lies below a free-form object |
| `SchemaVerdict.NothingExtra` | scripts/schema_drift.py:1382-1386 | no conforming answer has anything extra, whatever its samples show |
| `SchemaVerdict.NoFalseDrift` | scripts/schema_drift.py:1377-1386 | a conforming answer, with nulls, empty lists, null items and anything below free-form objects, has no missing and no extra path, whenever both walks reach every object of the shape and its lists show what they declare |
| `SchemaClean.CleanExactly` | scripts/schema_drift.py:1377-1386 | with names without dots and brackets, a conforming answer is clean if and only if every list of objects with something to report is null or empty in some value sampled at its place, or shows an object among the first three items there |
| `SchemaClean.Unaccounted` | scripts/schema_drift.py:186-231 | where the samples do not show enough, some declared path that is reported is accounted for by none of them |
| `SchemaClean.SpelledAlikeIsClean` | scripts/schema_drift.py:1377-1386 | beside a list `a` whose items are null, a member called `a[*].x` makes a conforming answer clean although the list shows nothing, whatever the two are called |
| `SchemaVerdict.RenderedIsClean` | scripts/schema_drift.py:1377-1386 | every shape within the cut-offs has a schema, from which no conforming answer drifts whose lists show what they declare |
| `SchemaVerdict.NullItemsDrift` | scripts/schema_drift.py:211-213 | `[null]` for a list `a` of objects with a field `x` is reported to miss `a[*].x` although the item may be null, whatever the two are called |
| `SchemaDetection.DroppedFieldExactly` | scripts/schema_drift.py:1377-1386 | taking a field out of every object sampled at its place, reached through any objects and lists of any answer, adds to the missing paths exactly the declared ones at and below it, and takes from the extra ones exactly those at and below it |
| `SchemaDetection.AddedFieldExactly` | scripts/schema_drift.py:1377-1386 | putting a field the schema does not declare into objects sampled at one place adds to the extra paths exactly the ones observed at and below it, and changes nothing in what is missing |
| `SchemaDetection.DroppedFieldIsMissing` | scripts/schema_drift.py:1377-1381 | at every depth, through objects and lists, a declared field that none of the objects sampled at its place has is reported missing |
| `SchemaDetection.AddedFieldIsExtra` | scripts/schema_drift.py:1382-1386 | a field the schema does not declare that one object sampled at its place has is reported extra, at every depth through objects, and through lists as far as the value walk goes |
| `FieldDrift.ExtractSchemaKeys` | scripts/field_drift.py:116-143 | on every acyclic specification the recursion ends and returns exactly the declared keys |
| `FieldDrift.ExtractValueKeys` | scripts/field_drift.py:190-269 | it returns exactly the carried keys, the schema's keys standing in for nulls, empty lists and empty objects |
| `FieldDrift.Reconcile` | scripts/field_drift.py:344-381 | the two loops return exactly the keys `Missing` and `Extra` define |
| `FieldDrift.AncestorDeclared` | scripts/field_drift.py:368-379 | the inner loop finds an ancestor, cleaned or not, exactly when the specification has one |
| `FieldReport.CleanExactly` | scripts/field_drift.py:190-381 | over every acyclic specification whose references name definitions with properties, an item with the declared fields, whatever its leaves hold, reconciles to nothing if and only if every leaf that is read leaves a key, and no array of objects that is read is null, nor an object whose definition does not say that it is one |
| `FieldReport.LeafIsClean` | scripts/field_drift.py:190-269 | a leaf is reported clean if and only if it leaves a key behind, inline `properties` without a type included |
| `FieldReport.NullIsReported` | scripts/field_drift.py:190-269 | a null where an array of objects is declared, or an object whose definition does not say that it is one, is reported as extra, and all keys below as missing |
| `FieldReport.ConformingIsClean` | scripts/field_drift.py:190-381 | over every acyclic specification whose references name definitions with properties, `type: object` or not, a conforming item reconciles to nothing missing and nothing extra |
| `FieldReport.DroppedFieldIsReported` | scripts/field_drift.py:190-381 | dropping a declared field anywhere reports exactly that field's keys; it reports nothing exactly when the field was the last of a nested object |
| `FieldReport.AddedScalarIsReported` | scripts/field_drift.py:190-381 | adding an undeclared scalar to any declared object reports exactly that key |
| `KeyTree.Recover` | scripts/mde_docs_spec.py:85-121 | the loop over the lines yields the tree of the final containers |
| `KeyTree.TreeIsStable` | scripts/mde_docs_spec.py:92-121 | a container reads the same for as long as the containers made after it are unchanged |
| `KeyTreePrint.ReadField` | scripts/mde_docs_spec.py:94-121 | reading the printed lines of a field adds exactly that field's tree to the open dictionary, touches no older container and leaves the stack as it was |
| `KeyTreePrint.PrintedIsRecovered` | scripts/mde_docs_spec.py:85-121 | for every object printed one key per line, the parser returns the tree of its keys |
| `KeyTreePrint.RecoveredCarriesPaths` | scripts/mde_docs_spec.py:50-121 | observing the recovered tree gives exactly the paths of the printed value |
| `KeyTreeStack.StackMirrorsBrackets` | scripts/mde_docs_spec.py:92-121 | after every line the container stack is as high as the number of open brackets |
| `Fixtures.InsertPath` | scripts/gen_mde_fixtures.py:67-88 | the cursor that walks down and changes what it stands on computes the recursive insertion |
| `Fixtures.BuildTree` | scripts/gen_mde_fixtures.py:184-190 | inserting the paths, renamed already, one after the other builds the tree `Build` defines |
| `Fixtures.InsertAddsPath` | scripts/gen_mde_fixtures.py:67-88 | inserting a path that agrees with the tree adds exactly the path's facts and keeps all others |
| `Fixtures.SameMarksSameTree` | scripts/gen_mde_fixtures.py:67-88 | a tree is determined by its facts |
| `Fixtures.BuildHoldsPaths` | scripts/gen_mde_fixtures.py:67-88 | the built tree holds exactly what its paths ask for |
| `Fixtures.OrderIsIrrelevant` | scripts/gen_mde_fixtures.py:67-88 | two orders of one compatible path set, repeats or not, build the same tree |
| `Fixtures.OrderFreeExactly` | scripts/gen_mde_fixtures.py:67-88 | the order never matters if and only if no name is both an object and a list |
| `Fixtures.OrderCanMatter` | scripts/gen_mde_fixtures.py:67-88 | the order of `a.b` and `a[*].b` matters, whatever the two are called |
| `Fixtures.BuildObserveRoundTrip` | scripts/gen_mde_fixtures.py:67-88 | observing the tree built from the paths of a value gives back exactly those paths |
| `Fixtures.RoundTripExactly` | scripts/gen_mde_fixtures.py:67-88 | it does so if and only if no name is both an object and a list |
| `Shell.Interpreter.Words` | scripts/doc_examples.py:272-333 | the tokenizer's loop, from any state of the shell, returns the tokens and leaves the variables and the pipelines run as `Scan` says |
| `Shell.Interpreter.Quoted` | scripts/doc_examples.py:306-319 | so does the loop inside double quotes |
| `Shell.Interpreter.ExpandAt` | scripts/doc_examples.py:335-362 | the value of a `$` and where it ends, with the effect of a nested command on the shell |
| `Shell.Interpreter.CloseAt` | scripts/doc_examples.py:338-353 | the bracket-counting loop returns the position `Matching` defines |
| `Shell.Interpreter.Run` | scripts/doc_examples.py:364-388 | a line is an assignment or a list of commands; recursion through substitutions is on strictly shorter text |
| `Shell.Interpreter.RunCommands` | scripts/doc_examples.py:376-388 | commands run in order until one fails, with their output joined |
| `Shell.RunStopped` | scripts/doc_examples.py:376-388 | after a failed command nothing more is run |
| `ShellQuoting.QuotedWordsComeBack` | scripts/doc_examples.py:272-333 | for every list of strings, quoting, escaping and joining them is undone by the tokenizer; nothing is expanded, run or read as an operator |
| `ShellQuoting.FindOpenQuote` | scripts/doc_examples.py:237-257 | the second scanner's loop returns the quote `OpenQuote` defines |
| `ShellQuoting.ScannersAgree` | scripts/doc_examples.py:237-333 | where nothing is expanded and both see the same comments, the tokenizer reaches the end if and only if no quote is open and the line does not end on an escape |
| `ShellQuoting.ReadAlikeExactly` | scripts/doc_examples.py:237-333 | a line with nothing to expand shows both the same comments if and only if each of its beginnings, however it goes on without a further `#`, is read alike |
| `ShellQuoting.CommentsAreReadDifferently` | scripts/doc_examples.py:254-255 | `;#'` is a comment to the tokenizer and an open quote to the other scanner |
| `ShellQuoting.LogicalLines` | scripts/doc_examples.py:221-234 | every line yielded while reading has no open quote and no final backslash |
| `ShellQuoting.LogicalLinesTokenize` | scripts/doc_examples.py:221-333 | so every such logical line, with or without a comment both see, can be tokenized |
| `ShellNesting.SubstitutionFindsItsBracket` | scripts/doc_examples.py:335-353 | for every body whose brackets balance outside closed quotes, the search stops at exactly the matching bracket |
| `ShellNesting.SubstitutionTakesBalancedText` | scripts/doc_examples.py:335-353 | and whatever a search takes is such a body |
| `Paging.WalkLoop` | scripts/paging_audit.py:284-356 | the loop computes the walk for every server, any answer to any history of requests |
| `Paging.ReadItems` | scripts/paging_audit.py:334-339 | one page's records are added to what was seen and to the order, repeats noted |
| `Paging.WalkIsBounded` | scripts/paging_audit.py:296-356 | no server makes the walk send more than 120 requests |
| `Paging.CleanMeansFinished` | scripts/paging_audit.py:296-443 | a clean verdict is drawn from a walk that was not cut short, against every server if the collection has no repeats, and over every collection if the server answers collections |
| `Paging.CleanMeansComplete` | scripts/paging_audit.py:296-443 | a clean verdict, against any server over a collection without repeats, or any that answers collections, means: no repeats, no oversized page, fewer than 120 requests, nothing missing, and a permutation of the collection when the pages hold only its records |
| `Paging.CutWalkCanBeClean` | scripts/paging_audit.py:296-443 | a server and a collection with repeats for which a walk cut short is reported clean although an identity came twice |
| `Paging.HonestServersPass` | scripts/paging_audit.py:284-356 | against every honest offset, page-number or cursor server over at least three distinct records, the walk returns the whole collection in order, without complaint, in at most 15 requests |
| `LiteralScan.SkipValue` | scripts/frontend_param_drift.py:84-106 | the inner loop stops where `ValueStop` says, strings skipped |
| `LiteralScan.SkipValueBlindly` | scripts/frontend_body_drift.py:71-84 | the quote-blind inner loop stops where the quote-blind reading says |
| `LiteralScan.ScanLiteral` | scripts/frontend_param_drift.py:58-110 | the two nested loops over one index return the scan's result, or find that it stands still |
| `LiteralScan.StandsStillForEver` | scripts/frontend_param_drift.py:84-106 | a turn that does not advance is repeated for ever, adding a key each time |
| `LiteralScan.TwinsAgree` | scripts/frontend_body_drift.py:48-88 | without quote characters both scanners return the same from every start index |
| `LiteralGrammar.LiteralIsRead` | scripts/frontend_param_drift.py:58-110 | what the scanner returns for every literal of the grammar, whatever text surrounds it |
| `LiteralGrammar.KeysExactlyWhenHarmless` | scripts/frontend_param_drift.py:58-110 | it returns exactly the top-level keys, in order, if and only if the last value ends in a blank or a closing bracket |
| `TypeClosure.QualifiedIsFinal` | scripts/graph_csdl_spec.py:83-96 | a reference spelled in full means the same in every schema |
| `TypeClosure.Closure` | scripts/graph_csdl_spec.py:99-117 | the worklist ends on every type map, cyclic ones included, and keeps exactly the declared types the roots reach |
| `TypeClosure.ReachableIsLeast` | scripts/graph_csdl_spec.py:99-117 | what is kept is contained in every set that holds the roots and what its members refer to |
| `TypeClosure.ReachableIsClosed` | scripts/graph_csdl_spec.py:99-117 | and it is such a set itself |
| `TypeClosure.ClosureIsMonotone` | scripts/graph_csdl_spec.py:99-117 | more roots keep more types |
| `TypeClosure.ClosureIsIdempotent` | scripts/graph_csdl_spec.py:99-117 | closing what was kept keeps all of it |
| `ShadowedRoutes.Shadowed` | scripts/shadowed_routes.py:60-74 | the flags are exactly the pairs of a route and the first earlier route that matches its sample, in order |
| `ShadowedRoutes.SampleDecides` | scripts/shadowed_routes.py:60-74 | a route covers another if and only if it matches the one sample and no literal spelled `sample` stands where the other takes a parameter |
| `ShadowedRoutes.FlaggedExactly` | scripts/shadowed_routes.py:60-74 | a route is flagged if and only if one earlier route with another path and a shared method matches every request it matches |
| `ShadowedRoutes.FlaggedIsDead` | scripts/shadowed_routes.py:60-74 | first-match dispatch never reaches a flagged route on the shared methods |
| `ShadowedRoutes.DeadExactly` | scripts/shadowed_routes.py:60-74 | a method of a route is dead if and only if one single earlier route that takes it covers the path |
| `ShadowedRoutes.UnflaggedIsAlive` | scripts/shadowed_routes.py:60-74 | a route that is not flagged and repeats no earlier path is reached with each of its methods |
| `BodyPosition.ReportPosition` | backend/main.py:916-946 | the loops compute the reported position for every text and clause |
| `BodyPosition.GreedyIsComplete` | backend/main.py:931-940 | wherever the quoted names stand in order without overlap, the leftmost search finds them, ending no later |
| `BodyPosition.PositionDecodes` | backend/main.py:946 | a line and column lead back to the one offset they were made from |
| `BodyPosition.UnfoundExactly` | backend/main.py:931-940 | the position is (1, 1) if and only if the names do not stand in order without overlap |
| `BodyPosition.FoundExactly` | backend/main.py:931-946 | otherwise it decodes to the first character after the earliest names that is no separator, or to the first closing brace from there |
| `BodyPosition.KeyPositionDecodes` | backend/main.py:905-913 | the key's position decodes to where the quoted name first stands |
| `VerbProbe.PathIsRegistered` | backend/main.py:1338-1360 | a path is registered exactly when some route other than the fallback owns it |
| `VerbProbe.VerbIsAccepted` | backend/main.py:1394-1403 | the inner loop accepts a verb exactly when some route other than the fallback takes it |
| `VerbProbe.AllowedMethods` | backend/main.py:1378-1412 | the early exit never changes the answer; no repeats; exactly the accepted verbs, and HEAD where GET is accepted and HEAD is served; empty if and only if nothing is accepted |
| `WrongVerb.SameSidFirst` | backend/main.py:579-582 | the router finds the missing sid in a filled path exactly where the audit's pattern finds a parameter |
| `WrongVerb.SameAction` | backend/main.py:654-681 | the router's prefix test and the audit's pattern name the same custom actions |
| `WrongVerb.RulesAgreeExactly` | scripts/http_contract_audit.py:112-151 | for every template whose jobs are named by a parameter or `export`, the two rules agree on all verbs and job stores if and only if they agree on what a custom action is |
| `WrongVerb.ActionsCanDiffer` | scripts/http_contract_audit.py:112-151 | a template with a second `splunk` segment, in which only the audit sees a custom action |
| `WrongVerb.RulesAgree` | scripts/http_contract_audit.py:112-151 | for every verb, every route of the mount and every job store lacking the name used, the router's status and the presence of `Allow` equal the audit's expectation |

## Left out

- The SPL, KQL, OData, FQL and Elasticsearch engines, the store, persistence and middleware: not part of this model.
- Framework wiring, HTTP sweeps, fixtures and configuration tables: they send requests and compare constants.
- JSON leaves, string escapes and Unicode line breaks: leaves are opaque and lines are given as a sequence.
- Schemas on which the scripts raise (a `$ref` that is not a string, `properties` that is not an object): read as unresolved or empty.
- `_compare_paths`, `base_name`, the lookup in `derived_for_kind` and skipped routes in `scripts/schema_drift.py`: which definition a kind names is an arbitrary function here.
- SchemaDrift.RelocationKeepsOpaque: states that the condition suffices; that it is necessary is `SchemaFreeForm.RelocationKeepsOpaqueExactly`.
- SchemaFreeForm.RelocationKeepsOpaqueExactly: for names without dots and brackets, because at the last level the walk reaches another place can spell the same path; `SchemaFreeForm.RelocationKeepsVerdictExactly` too.
- SchemaVerdict.RelocationKeepsVerdict: states that the condition suffices; that it is necessary is `SchemaFreeForm.RelocationKeepsVerdictExactly`, for names without dots and brackets.
- SchemaVerdict.NoFalseDrift: asks that lists show what they declare, which `SchemaClean.CleanExactly` shows to be exactly what is needed for names without dots and brackets; with them it is not (`SchemaClean.SpelledAlikeIsClean`).
- SchemaClean.CleanExactly: for names without dots and brackets, for the same reason; `SchemaClean.Unaccounted` too.
- SchemaDetection.DroppedFieldExactly: names on the way, and beside it in the answer, hold no dot and no bracket, because another member could spell the same path (`SchemaClean.SpelledAlikeIsClean`); nothing on the way is null or an empty list, because below these nothing is reported.
- SchemaDetection.AddedFieldExactly: as `SchemaDetection.DroppedFieldExactly`, for the names of the schema as well.
- SchemaDetection.DroppedFieldIsMissing: as `SchemaDetection.DroppedFieldExactly`.
- SchemaDetection.AddedFieldIsExtra: names of the schema on the way hold no dot and no bracket; below lists the field has to be within the eight levels the value walk goes down, two for a list.
- Keys of `scripts/field_drift.py` are sequences of segments; a field name that itself holds a dot or a bracket is not modelled. The acyclicity of a specification is what the script's recursion needs to end.
- The parser of `scripts/mde_docs_spec.py` fills shared containers in place; the model keeps them in a sequence of cells and the stack refers to them by index.
- Fixtures.InsertPath: the tree is a value and the cursor a path into it, so aliasing between cursor and tree is expressed by assignment through the cursor; the renaming of paths, `_default_for_type`, `_apply_types` and `_unset_dates` are not modelled.
- `pipeline`, `curl`, `jq`, redirection and subprocesses of `scripts/doc_examples.py`: what a pipeline prints is an arbitrary function of the pipelines run before it; word characters are ASCII; `_dig` is not modelled.
- ShellQuoting.LogicalLinesTokenize: says nothing of the text left over at the end of a block, which may end inside a quote.
- `collection`, `identity`, `next_cursor` and `reported_total` of `scripts/paging_audit.py`: an answer is a status, a page of identities and its markers; the second, sorted walk repeats the first.
- Path converters, partial segments and regular-expression characters inside route literals: a segment is a whole literal or a whole parameter.
- WrongVerb.RulesAgree: speaks of the routes the mount has, which start with `splunk`, hold it nowhere else and have no empty segment inside; `WrongVerb.RulesAgreeExactly` is about all templates that name their jobs by a parameter or `export`. The wording of the messages is not modelled.
- BodyPosition.ReportPosition: the body is text; decoding bytes is not modelled.
- `reduce_csdl`, `_json_blocks`, `_members` and the other regular-expression readers: they extract with patterns only.
