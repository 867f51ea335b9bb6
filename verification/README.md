# relay-core, modelled and verified

A Dafny model of the parts of relay-core where a mistake would be hard to see in one function:

- the expression evaluator, which evaluates trees of references, encodings and function calls a bit at a
  time, in different processes, with different knowledge;
- the YAML desugarer, the merge function, the JSON serialisation, the lazy path query and the condition
  verdict around it;
- the lock-free read-modify-write loop on a shared ConfigMap, and the typed managers that share the map;
- the compilation of workflow steps to pipeline tasks and the way back from task statuses to steps;
- the tenant's finalizer protocol, and the marks that decide which errors are reported.

`dafny verify dfyconfig.toml` checks everything.

## How it is organised

| files | subject |
|---|---|
| Trees, Semantics, References | values, what evaluating one to a depth means, and that spelled out node by node |
| Staging, StagingExample, Completeness, Depth, Chains | theorems about evaluation in stages |
| Serialize, Transfer, Rereading, TextFormats | trees as JSON, values in a ConfigMap and what reading does to their meaning, and a text format that meets what is assumed of one |
| Unresolvables, Evaluator | the evaluator as it runs: loops, map order, sorted lists, errors |
| Query, Conditions | the lazy query and the condition verdict |
| Merging, InPlaceMerge, SharedMerge, Libraries | merging on values, in place on Go maps, on an argument used twice, and as a library function |
| YamlSugar, YamlDecode, YamlMeaning, YamlGraph, YamlOrder, YamlTrack, YamlParse, YamlExample | custom YAML tags on trees, what they decode and evaluate to, on node graphs, the order of visits, the worklist |
| ConfigMaps, Managers, RunSpecs | concurrent mutations, typed slots, the operator's first stage |
| Workflows, SkipPropagation, WorkflowRuns, Pipelines | workflow runs |
| Tenants, TenantPasses, ErrorMarks | the reconcilers: what no run may do, and what an undisturbed pass achieves |

One theorem carries most of the evaluator: `Staging.ResidualAgrees`. It takes a first environment, a
second one that extends it, a depth limit and a UTF-8-safe writer, and compares finishing the written-out
intermediate value with evaluating the document at once. Staging, serialisation, depth limits, idempotence,
completeness and the condition verdict are instances of it.

## What the code does not do

Ten natural statements are false of the code. The model keeps the code's behaviour, gives an input for each,
and says when the statement does hold.

- **Staged values can differ.** When a call's arguments are complete but the function is unknown, the
  original, unevaluated call is returned (pkg/expr/evaluate/evaluate.go:351-357). If an earlier stage rewrote
  an argument, the two results differ as values, though not in success or in what is missing.
  `StagingExample.StagingCanChangeAStuckCall` is an input; `Staging.NoStaleCall` is the exact condition:
  no call that the first stage rewrote gets stuck in the second. Values agree if and only if it holds, and
  always when no invocation is reported.
- **A document with a meaning can be refused.** Rewriting a tagged key in place erases its text, and an alias
  can bring the worklist to the key before its mapping (`YamlExample.KeyRace`, `YamlExample.ParseKeyRace`).
  `YamlParse.ParseYAMLNode` accepts if and only if the document has a desugaring and `YamlOrder.KeysAreReadInTime`:
  in the order of visits, which is read off the document alone, no tagged mapping comes for the first time after
  a rewritten key that it reads.
- **A repeated key crashes the parser.** `!Connection {type: a, type: b}` leaves the name without a node, and the
  worklist crashes when it comes to it (pkg/expr/parse/yaml.go:111-123, 390), unless it refuses something else
  first (`YamlExample.RepeatedKeyCrashes`). `YamlOrder.FateOf` says of every document whether it is accepted,
  refused or crashes.
- **The spellings of a reference can differ.** The scalar spelling forgets the quotes
  (pkg/expr/parse/yaml.go:79-83), so `!Secret "123"` names a number, which every evaluator refuses, and
  `!Secret ["123"]` a secret (`YamlDecode.QuotedNumber`). The scalar spelling agrees with the other two if and only
  if the text was not quoted or decodes to itself without quotes (`YamlDecode.SpellingsAgreeIff`). A !!binary scalar loses its tag in the same way, so
  one whose text reads as a number is refused (`YamlMeaning.BinaryMeans`).
- **A value kept in a ConfigMap need not come back as it was.** Reading decodes every node with a string
  `$encoding`, and takes data that is no string for the empty string (transfer.JSONInterface, used in
  pkg/manager/configmap/kv.go:30-45). A value comes back unchanged if and only if it has no such node
  (`Transfer.RoundTripIff`), and keeps its meaning if its encoded strings are proper ones
  (`Rereading.RereadFinishes`). A spec that decodes a secret loses it: the operator reads the submitted run through
  the same codec (pkg/apis/relay.sh/v1beta1/unstructured_types.go:27-29), and if the encoding's name is itself
  encoded, so that the spec gets past that, the reader of the ConfigMap finds an empty string and nothing missing
  (`RunSpecs.EncodedReferenceIsLost`).
- **Answers are not sorted by name.** The comparator compares the name with itself
  (pkg/expr/evaluate/result.go:68-70). Two reports of the same answers can list them differently
  (`Unresolvables.AnswersMayDiffer`); the list is determined if and only if no two answers share an ask
  (`Unresolvables.AnswersDeterminedIff`).
- **A namespace is deleted by name.** The annotation is checked on the loaded copy. A namespace that was replaced
  in between, or that another tenant naming the same namespace has annotated as its own, is deleted all the same
  (`Tenants.ReplacedNamespaceIsDeleted`, `Tenants.AnnexedNamespaceIsDeleted`). A deleted namespace is the tenant's
  own if and only if nobody else touched it since it was loaded.
- **A spec or a variable that does not evaluate to an object crashes the operator** through an unchecked type
  assertion (pkg/obj/configmap.go:134, 149), a plain text variable for one (`RunSpecs.PlainVariableCrashes`).
  `RunSpecs.ConfigureImmutable` and `RunSpecs.CrashIff` say exactly when.
- **A call can revive expressions.** `merge` takes an opaque argument apart and returns what was inside it
  (`Merging.OpaqueArgumentRevives`). Evaluation with `merge` in the library meets the assumptions below on every
  tree without opaque nodes (`Libraries.MergeAnswersPure`).
- **`merge` writes into its arguments.** It builds its result in the nested maps of the first argument that has them
  (pkg/expr/fnlib/merge.go:16, 22). If a resolver hands out one map twice, as the in-memory managers do
  (pkg/manager/memory/parameter.go:16-29), a second merge sees what the first left there (`SharedMerge.MergeTwice`,
  `SharedMerge.SecondCanBeWrong`), and the order of evaluation matters. The second result is right for everything it
  may merge if and only if the first merge left its first argument as it was (`SharedMerge.SecondIsRightIff`).

Smaller ones kept as they are: losing a race to create a ConfigMap is an error and not retried
(pkg/manager/configmap/configmap.go:89-114); keyword `merge` takes `objects` that is no list for the empty list
(pkg/expr/fnlib/merge.go:94-99).

## Assumptions

- What evaluating a document looks up is answered with data, and the calls that it makes return data
  (`Staging.AnswersData`); nothing is asked of other references and calls. Data may contain opaque nodes, such as
  a `$type` nobody knows.
- Base64 can be undone, and JSON text keeps documents whose strings and keys are text; `TextFormats.AFormatExists`
  shows that such a format exists. The hashes of the steps and triggers at hand do not collide; YAML graphs and
  dependency graphs are acyclic.
- Every lookup hands out maps of its own, so that no nested map is reached from two arguments of a `merge` or from
  two calls of it. Only then is the function that the evaluator's theorems take `merge` for the one that runs.
- The API server answers a read with the current state and accepts an update only of the stored version.
  The reconciler of one tenant runs one pass at a time.
- Tekton reports at most one TaskRun for a pipeline task and at most one check of it with a status.
- The causes of unresolved calls are compared by value.

## Model

| member | source | states |
|---|---|---|
| Staging.ResidualAgrees | pkg/expr/evaluate/evaluate.go:137-451 | evaluating to any depth in one environment, writing the result UTF-8-safely and finishing in an extension succeeds exactly when evaluating the document in the extension does, misses the same references, and gives the same value if and only if no call that was rewritten ends up stuck |
| Staging.StagedEvaluation | pkg/obj/configmap.go:125-137 | the same for values handed on directly, as the operator does |
| StagingExample.StagingCanChangeAStuckCall | pkg/expr/evaluate/evaluate.go:351-357 | a call on two parameters, the first known in the first stage and the function in none, for which staged and direct evaluation give different values |
| References.DataNode | pkg/expr/evaluate/evaluate.go:139-157 | a Data node asks for its query: the value found, itself with the reference missing, or an error; without a text for its query it is an error |
| References.SecretNode | pkg/expr/evaluate/evaluate.go:158-176 | the same for a secret and its name |
| References.ConnectionNode | pkg/expr/evaluate/evaluate.go:177-200 | the same for a connection, by type and name |
| References.OutputNode | pkg/expr/evaluate/evaluate.go:201-230 | the same for an output, by `from`, or `taskName` where that is no text, and name |
| References.ParameterNode | pkg/expr/evaluate/evaluate.go:231-249 | the same for a parameter |
| References.AnswerNode | pkg/expr/evaluate/evaluate.go:250-273 | the same for an answer, by ask and name |
| References.OpaqueNode | pkg/expr/evaluate/evaluate.go:274-276 | any other type leaves the node alone |
| References.EncodingNode | pkg/expr/evaluate/evaluate.go:279-319 | an encoding stays open with its data, decodes text by its type, and refuses missing or other data |
| References.OddEncodingNode | pkg/expr/evaluate/evaluate.go:279-319 | an encoding that is no text leaves the node alone |
| References.CallNode | pkg/expr/evaluate/evaluate.go:321-368 | a call stays open with its argument; then a list calls by position, an object by keyword, anything else as the one argument; an unknown function leaves the call as written |
| References.ListNode | pkg/expr/evaluate/evaluate.go:376-397 | a list fails exactly if an item does, and otherwise holds the items' values and misses what they miss |
| References.PlainNode | pkg/expr/evaluate/evaluate.go:398-428 | so does a map without `$type`, `$encoding` and a lone call key |
| References.LeafNode | pkg/expr/evaluate/evaluate.go:434-451 | other values stand for themselves, foreign ones are refused |
| References.DepthLimits | pkg/expr/evaluate/evaluate.go:370-413 | depth 0 looks at nothing; depth 1 leaves lists and maps alone and evaluates expressions in full |
| References.DepthStep | pkg/expr/evaluate/evaluate.go:376-428 | items and fields are evaluated to one less |
| Staging.Idempotent | pkg/expr/evaluate/evaluate.go:434-451 | evaluating a result again in the same environment changes neither value nor missing references |
| Staging.DepthOnlyDelays | pkg/expr/evaluate/evaluate.go:370-432 | evaluating to any depth and then fully is evaluating fully |
| Staging.CompleteIsStable | pkg/expr/evaluate/evaluate.go:370-432 | a complete result is the result in every extension |
| Staging.FailureIsStable | pkg/expr/evaluate/evaluate.go:370-432 | an evaluation that fails fails in every extension |
| Staging.CompleteIsInert | pkg/expr/evaluate/result.go:252-254 | the value of a complete result holds no live expression |
| Depth.EnoughDepthIsFull | pkg/expr/evaluate/evaluate.go:370-432 | a depth of at least the tree's height is no limit, including for one-entry maps, which are entered at depth 1 |
| Depth.ShallowFindsLess | pkg/expr/evaluate/evaluate.go:370-432 | a limited evaluation fails only where the full one does and misses no more references |
| Completeness.MissingAreInputRefs | pkg/expr/evaluate/evaluate.go:137-277 | an evaluation reports exactly the references reachable in its input that the resolvers do not answer |
| Completeness.CompleteIffData | pkg/expr/evaluate/result.go:96-132 | a result is complete exactly when its value is data, and the references it reports are exactly the unanswered ones left in its value |
| Serialize.SerializationPreservesMeaning | pkg/expr/serialize/json.go:16-36 | what MarshalJSON writes reads back as a document that evaluates like the original in every environment; where it refuses to write, no environment could have evaluated the original |
| Staging.SafeInertEval | pkg/expr/evaluate/resultmapper.go:42-82 | the UTF-8-safe rewriting of data evaluates to the data itself |
| Chains.ChainIsLeftBiased | pkg/expr/resolve/chain.go:11-24 | a chain answers with its first resolver that knows the reference, failures included, and knows nothing exactly when none of them does |
| Chains.LongerChainsExtend | pkg/expr/resolve/chain.go:11-143 | appending resolvers gives an environment in which earlier results can be finished |
| Unresolvables.OrderedIsCanonical | pkg/expr/evaluate/result.go:18-84 | a strictly ordered list is determined by its elements |
| Unresolvables.SortedBy | pkg/expr/evaluate/result.go:18-84 | which fields each kind of list is sorted by, and in which order |
| Unresolvables.LessMeans | pkg/expr/evaluate/result.go:18-84 | strings are ordered by their first difference |
| Unresolvables.Insert | pkg/expr/evaluate/result.go:134-228 | inserting by the category's comparator keeps the list duplicate-free and ordered as far as the comparator orders |
| Unresolvables.Union | pkg/expr/evaluate/result.go:134-228 | extending one category gives the sorted, duplicate-free union |
| Unresolvables.Unresolvable.Extend | pkg/expr/evaluate/result.go:134-245 | the receiver ends up with exactly its own and the other's entries, all lists in order |
| Unresolvables.Unresolvable.AsError | pkg/expr/evaluate/result.go:96-132 | the causes are the seven lists, in order; there is no error exactly if nothing is missing |
| Unresolvables.ListsAreCanonical | pkg/expr/evaluate/result.go:18-84 | two reports of the same references have equal secret, connection, output, parameter and invocation lists, permuted data and answer lists, and equal answer lists if no two answers share an ask |
| Unresolvables.AnswersDeterminedIff | pkg/expr/evaluate/result.go:68-71 | a list of answers in the comparator's order is determined by what it holds exactly if no two share an ask |
| Unresolvables.AnswersMayDiffer | pkg/expr/evaluate/result.go:68-71 | two valid reports of the same two answers with different lists |
| Evaluator.Evaluate | pkg/expr/evaluate/evaluate.go:370-451 | the running evaluator returns the value and the references of the semantics, and an error only where the semantics fails, with the kind of that failure at the path of a subtree that fails |
| Evaluator.EvaluateList | pkg/expr/evaluate/evaluate.go:376-397 | the list loop, whose error names the first failing item |
| Evaluator.EvaluateFields | pkg/expr/evaluate/evaluate.go:415-428 | the map loop, in any key order |
| Evaluator.EvaluateType | pkg/expr/evaluate/evaluate.go:137-277 | references: found, missing, failing, malformed, unknown type |
| Evaluator.EvaluateEncoding | pkg/expr/evaluate/evaluate.go:279-319 | encodings wait for their data and then decode it |
| Evaluator.EvaluateInvocation | pkg/expr/evaluate/evaluate.go:321-368 | calls wait for their arguments; an unresolved function leaves the original call |
| Evaluator.OrderIndependent | pkg/expr/evaluate/evaluate.go:415-428 | two runs through the same maps in different orders, with functions that only compute, agree on the value and, list by list, on what is unresolvable |
| Query.EvaluateQuery | pkg/expr/evaluate/evaluate.go:95-135 | the loop over the path computes the step-by-step walk |
| Query.QueryRefinesEager | pkg/expr/evaluate/select.go:10-62 | on a plain root without opaque nodes, a query gives the sub-value of the full evaluation with only that subtree's references, or null with the references of the open expression on its path |
| Query.QueryAnswersAlongPath | pkg/expr/evaluate/select.go:10-62 | whatever lies off the path, a query fails exactly where evaluating what lies on it fails, and otherwise gives the sub-value there |
| Query.StepMeans | pkg/expr/evaluate/select.go:44-62 | one step goes on from a plain child or an expression's value, stops at null, and at an open expression gives null with its references |
| Query.OneStepQueries | pkg/expr/evaluate/select.go:10-42 | a key leads to its entry, an index to its item, and anything else to nothing |
| Conditions.GetConditions | pkg/metadataapi/server/api/conditions.go:38-101 | the verdict: the first false or wrongly typed item decides, a missing reference hides type errors and success |
| Conditions.SuccessMeansAllTrue | pkg/metadataapi/server/api/conditions.go:38-101 | success exactly if the result is complete and true, or a list of nothing but true |
| Conditions.VerdictOnValue | pkg/metadataapi/server/api/conditions.go:50-101 | the verdict on an error, a boolean, and a value that is neither boolean nor list |
| Conditions.VerdictOnCompleteList | pkg/metadataapi/server/api/conditions.go:61-88 | in a complete list the first item that is not true decides between failure and type error |
| Conditions.VerdictOnOpenList | pkg/metadataapi/server/api/conditions.go:61-88 | an incomplete list is a failure if it holds a false, else unresolvable, and never a type error |
| Conditions.VerdictsAreFinal | pkg/metadataapi/server/api/conditions.go:38-101 | a success stays a success, and a failure never becomes one, in every extension |
| Conditions.PollingMayStop | pkg/obj/condition.go:13-38 | over any growing sequence of environments, the first verdict settles the later ones |
| Conditions.StagedVerdict | pkg/obj/configmap.go:155-164 | the verdict on the pre-evaluated condition is the verdict on the condition |
| Merging.DeepMergeMeaning | pkg/expr/fnlib/merge.go:62-66 | for any list of objects, a key holds its last value, or the deep merge of the run of objects that ends its values |
| Merging.ShallowMergeMeaning | pkg/expr/fnlib/merge.go:107-111 | in shallow mode a key holds its last value |
| Merging.PositionalMerge | pkg/expr/fnlib/merge.go:48-69 | by position, objects are merged deeply in order, and anything else is an error |
| Merging.KeywordMerge | pkg/expr/fnlib/merge.go:70-113 | by keyword, no objects is an unresolved call, the mode decides, and an unknown mode is an error |
| Merging.MergedIsInert | pkg/expr/fnlib/merge.go:11-24 | merging data gives data |
| Merging.MergeCallIsData | pkg/expr/fnlib/merge.go:42-114 | both forms of the call return data whenever they return, if the objects that they merge are data |
| Merging.OpaqueArgumentRevives | pkg/expr/fnlib/merge.go:69-113 | a keyword argument that is data as an opaque node, for which the call returns a live expression |
| Libraries.MergeAnswersPure | pkg/expr/fnlib/merge.go:42-114 | with `merge` as the library, all that evaluating a tree without opaque nodes looks up or calls gives data |
| Libraries.MergeStages | pkg/obj/configmap.go:125-137 | so evaluation in stages agrees on such trees |
| InPlaceMerge.Merge | pkg/expr/fnlib/merge.go:11-24 | the recursive loop on shared references writes the merged value into `dst`, writes nothing but `dst` and its maps under keys where both have one, stores all else by reference, and leaves a tree without sharing |
| InPlaceMerge.MergeObjects | pkg/expr/fnlib/merge.go:62-66 | merging a list of objects whose nested maps are not shared gives the left fold in a new map; a subtree of an argument is afterwards as it was unless a later argument has a map where it is one, and the first argument's maps are those that the result was built in |
| SharedMerge.MergeTwice | pkg/expr/fnlib/merge.go:62-66 | merging `[p, q]` and then `[p, r]` gives, the second time, the merge of `r` over what the first left in `p` |
| SharedMerge.SecondIsRightIff | pkg/expr/fnlib/merge.go:16-22 | which is right for every `r` exactly if `p` was left as it was |
| SharedMerge.SecondCanBeWrong | pkg/expr/fnlib/merge.go:16-22 | two objects for which it was not |
| YamlSugar.OneFieldForms | pkg/expr/parse/yaml.go:17-95 | the sequence and mapping spellings of !Data, !Secret and !Parameter keep the field's node as it was written |
| YamlSugar.OneFieldScalar | pkg/expr/parse/yaml.go:79-83 | the scalar spelling keeps only the text |
| YamlDecode.ReferenceDecodes | pkg/expr/parse/yaml.go:86-94 | a desugared reference decodes to the object that the evaluator looks for |
| YamlDecode.SpellingsAgreeIff | pkg/expr/parse/yaml.go:58-95 | on parsed documents the sequence and mapping spellings decode alike, and the scalar spelling agrees with them exactly if the text was not quoted or decodes to itself |
| YamlDecode.QuotedNumber | pkg/expr/parse/yaml.go:58-95 | a quoted number as a scalar gives a reference that every evaluator refuses, and as an item a secret's name |
| YamlMeaning.CollectionCall | pkg/expr/parse/yaml.go:290-328 | a sequence or mapping tagged `!Fn.<name>` desugars to a mapping of `$fn.<name>` to itself untagged |
| YamlMeaning.ScalarCall | pkg/expr/parse/yaml.go:312-318 | a scalar so tagged to one of `$fn.<name>` to a sequence of its text |
| YamlMeaning.SequenceCalls | pkg/expr/parse/yaml.go:290-328 | decoded and evaluated, a tagged sequence calls `name` with its items' values by position |
| YamlMeaning.MappingCalls | pkg/expr/parse/yaml.go:290-328 | a tagged mapping calls it by keyword |
| YamlMeaning.ScalarCalls | pkg/expr/parse/yaml.go:312-318 | a tagged scalar calls it with what its bare text decodes to |
| YamlMeaning.BinaryDesugars | pkg/expr/parse/yaml.go:332-348 | a !!binary scalar desugars to a base64 encoding of its text |
| YamlMeaning.BinaryMeans | pkg/expr/parse/yaml.go:332-348 | and evaluates to its bytes if its bare text decodes to text, and to an error otherwise |
| YamlMeaning.TwoFieldsDecode | pkg/expr/parse/yaml.go:99-145 | a two-field reference decodes to an object of its kind with each field under its name |
| YamlMeaning.OneFieldRefusals | pkg/expr/parse/yaml.go:62-76 | a one-field reference with another number of items or another key is refused |
| YamlMeaning.TwoFieldRefusals | pkg/expr/parse/yaml.go:104-132 | a two-field reference as a scalar, with another number of items, or with keys that are not its two fields has no desugaring |
| YamlMeaning.UnknownTag | pkg/expr/parse/yaml.go:352-358 | any other custom tag is refused, and a call without a name |
| YamlMeaning.CoreNodesStay | pkg/expr/parse/yaml.go:352-358 | nodes with YAML's own tags or none are kept as they are |
| YamlSugar.TwoFieldForms | pkg/expr/parse/yaml.go:99-195 | the sequence spelling and both mapping spellings of !Connection, !Output and !Answer mean the same |
| YamlSugar.BlankKeys | pkg/expr/parse/yaml.go:25-35 | keys that lost their text can only make a transformer refuse, never accept differently |
| YamlSugar.SettledDesugars | pkg/expr/parse/yaml.go:352-358 | a tree without custom tags desugars to what the decoder sees |
| YamlGraph.SubstRefines | pkg/expr/parse/yaml.go:42-53 | overwriting one node by its rewriting, wherever it occurs, never changes a meaning that survives |
| YamlGraph.VisitUnfolds | pkg/expr/parse/yaml.go:385-404 | the graph after one in-place rewriting unfolds to the rewritten trees, through every alias |
| YamlParse.Follow | pkg/expr/parse/yaml.go:388-392 | following aliases ends at a node with the same meaning |
| YamlParse.TransformNode | pkg/expr/parse/yaml.go:394-400 | the first transformer that applies leaves a settled node in place and refines every unfolding |
| YamlOrder.FollowsIsLighter | pkg/expr/parse/yaml.go:402-403 | what visiting a node adds to the queue weighs less than the node, so the order of visits ends |
| YamlOrder.PlainKeysAreReadInTime | pkg/expr/parse/yaml.go:25-35 | a document whose keys carry no rewritten tag reads every key in time |
| YamlTrack.TemplateNow | pkg/expr/parse/yaml.go:394-400 | on its first visit a node is refused if a key that it reads was rewritten before, and otherwise treated as the original document has it |
| YamlTrack.RewritePlaced | pkg/expr/parse/yaml.go:42-53 | an overwritten node is followed in the queue by what the document's order says, and nothing else moves |
| YamlTrack.TracksNext | pkg/expr/parse/yaml.go:386-404 | every round that is not refused continues the order of visits that the document sets |
| YamlTrack.Refusal | pkg/expr/parse/yaml.go:394-400 | a round fails only if the document has no desugaring or a key was not read in time, and fails as the document's fate says |
| YamlParse.MoreFuel | pkg/expr/parse/yaml.go:385-404 | the worklist as a function has one outcome |
| YamlParse.ParseYAMLNode | pkg/expr/parse/yaml.go:385-412 | the worklist ends on every acyclic graph, as the functional worklist does and as the document's fate says: accepted, refused, or crashed on a missing child; it accepts exactly the documents that have a desugaring and read every key in time, and leaves the recursive desugaring with no custom tag |
| YamlExample.KeyRace | pkg/expr/parse/yaml.go:385-404 | a document with a desugaring on which the worklist ends in a refusal, an alias having led to a key first |
| YamlExample.ParseKeyRace | pkg/expr/parse/yaml.go:385-412 | the program refuses that document, and its keys are not read in time |
| YamlExample.TaggedKeyAlone | pkg/expr/parse/yaml.go:385-404 | the same mapping without the alias is accepted although its key is tagged |
| YamlExample.RepeatedKeyCrashes | pkg/expr/parse/yaml.go:111-123 | a !Connection mapping that repeats a key crashes the worklist |
| ConfigMaps.NoLostUpdates | pkg/manager/configmap/configmap.go:89-114 | over every interleaving of calls, lost answers and deletions: the stored data is the committed mutations, each applied to what its predecessor left; a call commits exactly once if it succeeds and never twice; its retries are at most the commits and deletions since it began |
| ConfigMaps.CommitIsCurrent | pkg/manager/configmap/configmap.go:29-38 | a write that is accepted writes the mutation of what the server holds at that moment |
| ConfigMaps.UndisturbedWriteCommits | pkg/manager/configmap/configmap.go:89-114 | a write that nobody came before since its read commits, keeps the object's uid, and ends the call well |
| ConfigMaps.ReadThenWriteSucceeds | pkg/manager/configmap/configmap.go:89-114 | so in every run a call that reads and writes with nobody in between succeeds |
| ConfigMaps.LateWrite | pkg/manager/configmap/configmap.go:89-114 | a write that comes too late to create ends the call, to update sends it back to reading, and neither changes the map |
| ConfigMaps.LostWriteMeans | pkg/manager/configmap/configmap.go:29-38 | a lost answer changes nothing about what the server does |
| ConfigMaps.MutateConfigMap | pkg/manager/configmap/configmap.go:89-114 | one call against rivals acting between its reads and writes: it ends, retries only rounds in which a rival acted, and commits its mutation of the state just before, or changes nothing; it fails exactly if it found nothing and somebody created the object before it could, so never with nobody acting, and never while something is stored |
| Transfer.RoundTripIff | vendor/github.com/puppetlabs/horsehead/v2/encoding/transfer/json.go:61-140 | a JSON value, whatever bytes its strings hold, reads back as it was exactly if no node in it has a text `$encoding` |
| Managers.KeysDiffer | pkg/manager/configmap/stepoutput.go:54-56 | the keys of different slots of different managers differ, whatever names they contain, if the owners' hashes do not collide |
| Managers.KeysAsWritten | pkg/manager/configmap/state.go:47-49 | the keys as they stand in the ConfigMap |
| Managers.ManagersAreIndependent | pkg/manager/configmap/kv.go:17-51 | over every interleaving, each Get reads the last value committed for exactly that kind, action and name since the last deletion, and reads it as it was exactly if no node in it looks encoded |
| Managers.StepOutputMap.Set | pkg/manager/memory/stepoutput.go:28-41 | the in-memory store changes exactly one entry |
| Managers.FillBoth | pkg/manager/memory/stepoutput.go:15-41 | after the same sets on both stores, the ConfigMap reads, through its codec, what the memory holds, for every step and name |
| RunSpecs.ConfigureImmutable | pkg/obj/configmap.go:109-168 | it succeeds exactly if every step is acceptable, and then every slot reads what the parameters and steps put there and all others are as before; otherwise it stops at the first step that is not, crashing only if that step may crash and failing only if it may fail |
| RunSpecs.CrashIff | pkg/obj/configmap.go:134-149 | at that step it crashes exactly if a spec or variable there gives no object, unless another variable there fails and the map order decides |
| RunSpecs.PlainVariableCrashes | pkg/obj/configmap.go:143-150 | a variable given as text crashes and cannot fail otherwise |
| RunSpecs.WriteParameters | pkg/obj/configmap.go:114-123 | a run's own parameters override the workflow's defaults |
| RunSpecs.EvaluateVars | pkg/obj/configmap.go:143-150 | the loop over the variables succeeds exactly if all evaluate to objects |
| RunSpecs.StoredSpecMeansTheSpec | pkg/obj/configmap.go:127-137 | with distinct step names, what is stored for a step's spec is its first-stage value through the codec, unchanged exactly if nothing in it looks encoded; finished later, that value agrees with the workflow's spec |
| Rereading.RereadFinishes | vendor/github.com/puppetlabs/horsehead/v2/encoding/transfer/json.go:88-140 | if every encoded node of a value is a proper encoding outside references and opaque nodes, then finishing what is read agrees with finishing the value: unreadable only where evaluation fails, the same references missing, and equal values exactly if no call that holds an encoded string is stuck |
| RunSpecs.StoredSpecFinishes | pkg/obj/configmap.go:127-137 | so finishing what the ConfigMap gives back agrees with the workflow's own spec |
| RunSpecs.StoredConditionMeansTheCondition | pkg/obj/configmap.go:155-164 | what is stored for a condition is its first-stage value through the codec, whose verdict is the verdict on the workflow's condition |
| RunSpecs.StoredEnvironmentMeansTheEnvironment | pkg/obj/configmap.go:139-152 | what is stored for a step's environment is the object of its variables' first-stage values, through the codec, and each agrees with the workflow's own variable when finished |
| RunSpecs.OtherSlotsStay | pkg/obj/configmap.go:109-168 | slots of absent specs and conditions, of other owners, outputs and states stay as they were |
| RunSpecs.EncodedReferenceIsLost | vendor/github.com/puppetlabs/horsehead/v2/encoding/transfer/json.go:88-112 | a spec with an encoded open secret is read from the submitted run with an empty string for it; disguised, it reaches the ConfigMap and is read from there so, with nothing missing |
| RunSpecs.ParameterPrecedence | pkg/obj/configmap.go:114-123 | a resolver reading the map finds the run's value of a parameter, else the default, else nothing |
| SkipPropagation.DoomedUnfolds | pkg/obj/workflowrun.go:233-257 | being linked to a failed or skipped step by pending steps is a fixpoint of the propagation rule |
| SkipPropagation.DoomedIsLeast | pkg/obj/workflowrun.go:233-257 | and the least one |
| SkipPropagation.MarkSkipped | pkg/obj/workflowrun.go:233-257 | in every topological order, exactly the steps so linked end skipped and every other entry is unchanged |
| SkipPropagation.SkippedIff | pkg/obj/workflowrun.go:233-257 | in the result a pending step is skipped exactly if one of its dependencies failed or is skipped there, and nothing else changes |
| WorkflowRuns.StatusSummaries | pkg/obj/workflowrun.go:154-175 | the summaries by task name are those of the TaskRuns and their checks, in any map order |
| WorkflowRuns.ConfigureWorkflowRun | pkg/obj/workflowrun.go:177-258 | the new status as a function of the PipelineRun and the old status |
| WorkflowRuns.StatusMeans | pkg/obj/workflowrun.go:260-282 | which status each condition of a run stands for |
| WorkflowRuns.RunStatusMeans | pkg/obj/workflowrun.go:177-198 | a cancelled run is cancelled, any other has the PipelineRun's status; times are only replaced by reported ones |
| WorkflowRuns.StepReports | pkg/obj/workflowrun.go:120-147 | a step with a TaskRun has its name, times and status, a pending one being skipped if the run is over, and keeps its log record |
| WorkflowRuns.StepWaits | pkg/obj/workflowrun.go:204-257 | a step without one is pending, or skipped because of its dependencies |
| WorkflowRuns.CheckReports | pkg/obj/workflowrun.go:96-118 | a condition has the name, times and status of the check that is reported, and is else as it was |
| WorkflowRuns.OthersStay | pkg/obj/workflowrun.go:204-231 | entries that belong to no step stay as they were |
| WorkflowRuns.ConfiguringIsIdempotent | pkg/obj/workflowrun.go:177-258 | configuring again from the same PipelineRun changes nothing |
| WorkflowRuns.UploadLogs | pkg/reconciler/workflow/reconciler.go:145-185 | exactly the finished steps without a log key get one |
| WorkflowRuns.UploadMeans | pkg/reconciler/workflow/reconciler.go:145-185 | an entry gets the upload of its TaskRun's pod exactly if it has no log record and the TaskRun has ended |
| WorkflowRuns.LogKeysNeverChange | pkg/reconciler/workflow/reconciler.go:145-185 | over any sequence of passes with any PipelineRuns, a non-empty log key stays as it is |
| Pipelines.ConditionList.constructor | pkg/obj/condition.go:147-165 | the index leads from each step with a condition to that step's own condition, and from no other step anywhere |
| Pipelines.ConditionList.GetByStepName | pkg/obj/condition.go:138-145 | the lookup finds a step's own condition exactly if the step has one |
| Pipelines.ConfigurePipeline | pkg/obj/pipeline.go:75-116 | each step becomes a pipeline task with the hashes of its name and dependencies and its own condition |
| Pipelines.CompilationRoundTrip | pkg/obj/pipeline.go:88-113 | the order of the compiled tasks is exactly the image of the dependencies, and a condition is present exactly for a step that has one |
| Pipelines.CompiledTask | pkg/obj/pipeline.go:88-113 | the pipeline task that a step compiles to, field by field |
| Pipelines.StatusReachesItsStep | pkg/obj/workflowrun.go:207-231 | a TaskRun's status is found by the step it was compiled from and by no other |
| Tenants.FinalizerProtocol | pkg/reconciler/tenant/reconciler.go:34-76 | over all runs of passes failing or losing an answer at any call, edits, deletion requests, namespaces dropped and created by users and annexed by other tenants' passes: dependents are written only under the stored tenant's finalizer; the finalizer goes only when no namespace its pass answers for is still the tenant's; a deleted namespace is annotated with exactly this tenant if and only if nobody else touched it since it was loaded |
| TenantPasses.ManagedPass | pkg/reconciler/tenant/reconciler.go:34-76 | an answered, undisturbed pass for a tenant that stays and manages a namespace writes it, its policy and its limits under the finalizer, annotated with the tenant; deletes the namespace it moved from if that was its own; leaves all others; and records the namespace |
| TenantPasses.UnmanagedPass | pkg/reconciler/tenant/reconciler.go:34-76 | for one that manages none it writes nothing but finalizer and status, and deletes the namespace it moved from if that was its own |
| TenantPasses.HomelessPass | pkg/obj/tenantdeps.go:103-120 | and does nothing if its own namespace is not there |
| TenantPasses.DeletingPass | pkg/obj/tenantdeps.go:122-156 | for one that goes it deletes its namespace and the one it moved from if they were its own, leaves all others, and removes the finalizer and with it the tenant, unless others hold it |
| TenantPasses.BlockedDeletion | pkg/obj/util.go:151-174 | an annotation that cannot be read stops a deletion with the finalizer in place |
| TenantPasses.RefusedCall | pkg/reconciler/tenant/reconciler.go:68-76 | a refused call ends the pass, but a failure to persist is reported in the status |
| TenantPasses.StaleTenantIsNotWritten | pkg/obj/util.go:36-49 | a tenant that changed since it was loaded is not written |
| TenantPasses.StaleNamespaceIsNotWritten | pkg/obj/util.go:36-49 | nor is a namespace |
| Tenants.StepKeeps | pkg/obj/finalizer.go:15-32 | the invariant behind it is kept by every step |
| Tenants.DeletionIsSound | pkg/obj/tenantdeps.go:122-156 | deleting a dependency deletes only what is annotated or was touched by others, and leaves the name not owned |
| Tenants.ReplacedNamespaceIsDeleted | pkg/obj/tenantdeps.go:122-142 | a run in which a user's namespace without annotation is deleted |
| Tenants.AnnexedNamespaceIsDeleted | pkg/obj/tenantdeps.go:122-142 | a run in which a namespace that now carries another tenant's annotation is deleted |
| Tenants.AddFinalizer | pkg/obj/util.go:93-102 | adds the name unless present, and reports whether it did |
| Tenants.RemoveFinalizer | pkg/obj/util.go:104-120 | removes one occurrence and keeps the others, and reports whether there was one |
| ErrorMarks.MarkedError.Resolve | pkg/errmark/errmark.go:26-38 | mappings apply in order, beneath a marker if there is one |
| ErrorMarks.MarksThenWraps | pkg/errmark/errmark.go:16-24 | however marks and wraps are interleaved, marks come first, latest first, then wraps in order |
| ErrorMarks.OutermostIsLatestMark | pkg/errmark/transient.go:78-105 | the outermost marker is the latest mark that fires on the raw error, and wraps never remove it |
| ErrorMarks.ReportedIff | pkg/reconciler/filter/errorcapture.go:40-46 | an error is reported exactly if nobody blamed the user and no rule, added along the way or by the filter, calls the raw error transient |
| ErrorMarks.ReportedExactly | pkg/reconciler/filter/errorcapture.go:40-46 | reported exactly if no operation blames the user and none of the rules at hand holds of the raw error |
| ErrorMarks.ContextsNest | pkg/errmark/errmark.go:26-38 | contexts go around an error in order and stay beneath its marker |
| ErrorMarks.Capture | pkg/reconciler/filter/errorcapture.go:40-46 | the filter reports an error exactly if no operation blamed the user and no rule calls the raw error transient, and returns it under its latest firing mark |

## Left out

- Query.QueryAnswersAlongPath: requires a plain root; what the path library does for a missing child (error or nothing) is a parameter, and JSONPath wildcards and templates are not modelled.
- YamlParse.ParseYAMLNode: cyclic graphs are excluded; of decoding, merge keys are not modelled.
- Evaluator.Evaluate: of an error, its kind and path are modelled, not its text.
- InPlaceMerge.MergeObjects: arguments that reach the same nested map are excluded; SharedMerge treats one argument used in two merges.
- Tenants.FinalizerProtocol: namespaces are deleted at once instead of passing through a terminating phase; users do not write the dependency annotation by hand, and a namespace template that carries it is not modelled. Nothing is claimed about namespaces left behind by a failed status write.
- WorkflowRuns.ConfigureWorkflowRun: the topological order comes as an argument, and a cyclic graph is excluded.
- ConfigMaps.NoLostUpdates: deletion of the whole namespace.
- RunSpecs.ConfigureImmutable: when one variable of a step fails and another gives no object, which of the two is met first depends on the map order and is left open.
- HTTP handlers, routing, middleware and error envelopes; Vault, JWT, Kubernetes and Tekton clients.
- The parsers for queries, YAML text and JSON text; base64, hex and SHA-1, which are invertible or injective functions here.
- EvaluateInto and the structure decoder, Markdown and Jira rendering.
- Tool injection, volumes, network policies, limit ranges, roles and webhooks; triggers' ConfigMaps and the mutable ConfigMap, whose loops are those of the immutable one.
- Transfer.RoundTripIff: times and values outside JSON are excluded, as are keys that are not text.
- Generated code, metrics and test utilities.
