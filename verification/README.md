# LMJCore-Web: verified model

LMJCore-Web is an HTTP shell over a flat pointer store. Entities are objects
(named members) or sets (elements); values are tagged byte strings, and a value
can be a reference to another entity. This project models what the shell does
between the HTTP parser and the storage engine, and proves what it promises:

* **The compiler** (`NestedValue`): a JSON tree is written as fresh entities
  linked by references. Proved: the store then holds exactly the tree's graph
  (`Layout`), reading it back gives the tree's normal form (`ReadBack`), each new
  entity but the root has exactly one parent unless a repeated key overwrites a
  container (`References`), and a build fails exactly at the first fault in
  document order and says so (`BuildFailure`). `InitFacts` states these for
  `POST /obj/init` and `POST /set/init` as whole requests.
* **The walker** (`PathText`, `QueryPath`): path text is parsed exactly on its
  grammar, and the walk with an 18-byte probe is the walk that reads every value
  in full. `CompileWalk` joins both ends: storing a tree and querying it is
  looking the path up in the tree. `Reach` says exactly which stored values a query
  limit lets through, and `QueryAnswers` states all this of the two requests as served,
  from the JSON body posted to the fields of the query's answer.
* **The batch interpreter** (`Substitution`, `Batch`, `BatchFacts`, `BatchTrace`,
  `BatchVars`, `BatchCode`):
  token substitution, references to earlier results, nesting, read-only batches,
  and owned against borrowed transactions.
* **The codecs and handlers** (`Codec`, `Engine`, `Handlers`, `HandlerCode`,
  `Answers`, `Outcomes`, `HandlerFacts`, `ClientRequests`), from the request a client
  writes to the fields it reads in the answer, and **whole runs** of the server (`Runs`,
  `HandlerEffects`), which `Server` proves to be the runs of the handlers' code.

Code that updates state is modelled in its own form: `Engine.Txn` is the
transaction handle the handlers mutate, `NestedValue.ErrBuf` the error buffer,
`BatchCode.HandleParams` and `BatchCode.Environment` the handler parameters and
the database; loops of the source are loops with invariants. Each such method is
proved equal to a function on values (`BuildValue`, `ProbeWalk`, `Substitute`,
`Perform`, `Serve`, ...), and the lemmas are about those functions.

## Boundary

What the shell calls but this repository does not contain enters as follows.

* The engine has two tables and the contract of the API reference: an entity exists
  iff it has an item, the last item removed takes the key with it, names have 1 to
  493 bytes, a member read copies all or nothing. A wrong pointer kind is answered
  with a type mismatch, an element over 511 bytes (LMDB's limit on duplicates) with
  "too long". A read under a name the engine could not have registered, empty or
  over 493 bytes, is taken to find no member; its documents do not say, and for a
  long one the key would pass LMDB's 511 bytes.
* Identifiers come from a finite stream without repetition (`State.ids`, `next`), none
  of which names an existing entity; when it ends, creation fails. Writes are accepted
  until the map is full (`room`). Both failures can strike at any point.
* `Platform.Host` collects arbitrary answers: `sscanf("%2x")` on text that is not two
  hex digits, the engine's error texts (255 bytes at most), the status of an empty
  set, the uptime, and the router. Of the router only one thing is used: a handler
  answers the method it is registered under.
* Whether a transaction begins or commits is a nondeterministic choice. Time is the
  number of timeout checks that will still pass.
* Allocation succeeds. JSON text is its parsed tree, so printing a body and parsing it
  again is the identity; numbers are carried as their decimal text.

## Where the code and its documentation differ

* `member_count` is documented as the number of members the root has. The code counts
  pairs; that is the same number iff no key repeats
  (`HandlerFacts.MemberCountIsExactForDistinctKeys`).
* The query depth limit is documented as symmetric to the nesting limit. It is off by
  one: a text can be stored 65 segments below its root, and the default query for it
  is refused (`CompileWalk.DeepestTextIsOutOfReach`); nothing stored lies deeper
  (`CompileWalk.AtMost65Segments`). Every stored value is in reach of a query iff no chain
  of pairs through objects is longer than the query limit (`Reach.EveryValueInReachIff`).
* With a repeated key the last pair wins. If the earlier pair held a container, what was
  written for it stays in the store and nothing refers to it
  (`InitFacts.OverwrittenLeavesAnOrphan`); this happens iff a container is overwritten
  (`InitFacts.InitFormsATree`). `InitFacts.RepeatedKeyShows` is a request that shows both
  this and the wrong `member_count`.
* `POST /obj` is documented as creating an empty object that does not exist yet. As every
  write but init asks for an existing entity, it never will
  (`HandlerEffects.CreatedNeverExists`).

## Model

| member | source | states |
|---|---|---|
| NestedValue.LeafEncoding | src/handlers/nested_value.c:78-122 | a scalar's stored value is well formed and decodes to the scalar's text, typed null or raw |
| NestedValue.NameProblem | src/handlers/nested_value.c:55-71 | a member name is accepted iff it has 1 to 493 bytes; an empty one and a long one are told apart by their reasons |
| NestedValue.ErrBuf.FailIn | src/handlers/nested_value.c:19-26 | one more context behind the buffer's text, cut at 767 bytes and at the buffer's size |
| NestedValue.ErrBuf.SetReason | src/handlers/nested_value.c:42-51 | the reason, cut to the buffer; an absent buffer stays empty |
| NestedValue.EncodeJson | src/handlers/nested_value.c:256-278 | the transaction's view, the result and the error text after encoding any JSON node are those of the recursive specification |
| NestedValue.EncodeObject | src/handlers/nested_value.c:145-199 | the same for objects: depth check, creation, then members in order, stopping at the first failure |
| NestedValue.EncodeArray | src/handlers/nested_value.c:204-252 | the same for arrays, where an element already present is no error |
| NestedValue.ShownIsCutMessage | src/handlers/nested_value.c:19-26 | cutting at every level gives the first 767 bytes of the message built with no cut between levels |
| BuildFailure.FailureTextIsMessagePrefix | src/handlers/nested_value.c:163-247 | so with the 1024-byte buffer the error text of every failed build is the first 767 bytes of its uncut message |
| BuildFailure.BuildFailsWithReason | src/handlers/nested_value.c:145-278 | every failed build carries an error code and a reason of at most 255 bytes |
| BuildFailure.FirstFaultIsFirst | src/handlers/nested_value.c:145-252 | the search in document order finds a fault iff a node has one, and none earlier in that order |
| BuildFailure.BuildFindsFirstFault | src/handlers/nested_value.c:145-252 | while the engine does not run out, a build succeeds iff the tree has no fault; else it reports the first fault's cause, and its contexts read in reverse are the path to it |
| BuildFailure.OnlyDepthFails | src/handlers/nested_value.c:148-152 | with acceptable names and elements there is a fault iff a container lies at depth 64 or more |
| BuildFailure.DepthLimitIsExact | src/handlers/nested_value.c:148-211 | with acceptable names and a willing engine, encoding from any depth succeeds iff no container lies at depth 64 or more |
| Layout.BuildSteps | src/handlers/nested_value.c:145-252 | every build, failed ones too, keeps the store well formed and pointers fresh, moves the generator forward only, and leaves every entity alone except those issued meanwhile |
| Layout.BuildLayout | src/handlers/nested_value.c:145-252 | a successful build takes one identifier per container, in document order, and leaves exactly the tree's graph under them |
| Layout.FillMembersLayout | src/handlers/nested_value.c:163-194 | the member loop leaves the object with its old members overridden by the list's, the last pair with a key winning, and every child's graph intact |
| Layout.FillElementsLayout | src/handlers/nested_value.c:221-247 | the element loop leaves the set with its old elements and the list's distinct encodings, and every child's graph intact |
| ReadBack.ReadOfHeld | src/handlers/handle_utils.c:180-239 | reading the graph of a tree from a store gives the tree's normal form: texts, nulls, name maps, de-duplicated bags of elements |
| ReadBack.BuildThenRead | src/handlers/nested_value.c:78-278 | building any tree and reading back what was built gives its normal form |
| ReadBack.OccursAgain | src/handlers/set_handle.c:455-505 | an element equals a later one iff it is a scalar whose encoding occurs again; containers never collapse |
| ReadBack.ElementCount | src/handlers/set_handle.c:455-505 | an array's set has one element per container and one per distinct scalar encoding |
| References.RefsAreEdges | src/handlers/nested_value.c:127-199 | in a store that holds a tree's graph, the references at the tree's own entities are exactly the tree's edges |
| References.OneEdge | src/handlers/nested_value.c:154-251 | no entity of a tree has two edges into it |
| References.OneParent | src/handlers/nested_value.c:154-251 | each entity but the root has exactly one edge into it and the root has none, if no container is overwritten |
| References.Orphan | src/handlers/nested_value.c:163-194 | if a container is overwritten, some entity below the root has no edge into it |
| References.DistinctKeysSuffice | src/handlers/nested_value.c:163-194 | distinct keys in every object rule out overwritten containers |
| References.BuildTouchesItsTree | src/handlers/nested_value.c:145-252 | a build changes no entity but its tree's |
| References.ReferencesAfterBuild | src/handlers/nested_value.c:145-252 | in the whole store, the references after a build are those before and the tree's edges |
| InitFacts.InitStoresTheTree | src/handlers/obj_handle.c:537-590 | a successful init allocates one pointer per container node and holds the tree's graph under the returned pointer |
| InitFacts.InitThenRead | src/handlers/obj_handle.c:508-606 | reading back under the pointer that init returns gives the request body's normal form |
| InitFacts.InitKeepsOldEntities | src/handlers/obj_handle.c:508-606 | every entity that existed before an init reads the same afterwards |
| InitFacts.InitFormsATree | src/handlers/obj_handle.c:550-590 | in the whole store each new entity but the root gains exactly one reference, its parent's, and the root none, if no container is overwritten |
| InitFacts.OverwrittenLeavesAnOrphan | src/handlers/obj_handle.c:550-590 | otherwise some new entity below the root gains no reference at all |
| InitFacts.ObjInitFailsAtFirstFault | src/handlers/obj_handle.c:550-600 | while the engine does not run out, an object init answers with the pair count if the body has no fault, and else with exactly the status and message of the first fault |
| InitFacts.SetInitFailsAtFirstFault | src/handlers/set_handle.c:448-500 | the same for a non-empty set init, whose success counts containers and distinct scalars |
| InitFacts.MessageForm | src/handlers/nested_value.c:19-26 | each level adds a parenthesis with its member name or element index behind the levels below it |
| InitFacts.InitMessageForm | src/handlers/obj_handle.c:555-575 | the text of a failed init is the nested message, cut at 767 bytes, and the root's level, cut at 1151; if nothing is cut, it is the whole message |
| InitFacts.RepeatedKeyShows | src/handlers/obj_handle.c:550-600 | an accepted request with a repeated key: it answers a member_count of 2 for one member, and the overwritten object exists in the store with no new reference to it |
| Codec.HexRoundTrip | src/handlers/handle_utils.c:41-74 | printing a pointer and reading it, by the shell's reader or the engine's, gives it back |
| Codec.HexTextRoundTrip | src/handlers/handle_utils.c:41-74 | on 34 hex digits both readers succeed and agree, and printing gives the same digits in lower case |
| Codec.PtrToHexInto | src/handlers/handle_utils.c:63-74 | writes the 34 digits and a NUL, nothing behind them |
| Codec.PtrFromHexInto | src/handlers/handle_utils.c:41-61 | fails iff the length is wrong or a pair does not scan; else fills the 17 bytes |
| Codec.EncodeValueInto | src/handlers/handle_utils.c:117-161 | the buffer's prefix is the encoding, the rest of it is untouched, and each refusal has its code |
| Codec.DecodeThenEncode | src/handlers/handle_utils.c:117-239 | every well-formed value decodes, and its text encodes back to it |
| Codec.EncodeThenDecode | src/handlers/handle_utils.c:117-239 | what was encoded decodes to the given text and type, in lower case for a pointer in hex digits |
| Codec.UrlDecodeInto | src/handlers/handle_utils.c:324-358 | decodes into the buffer with a NUL behind; fails iff text and NUL do not fit |
| Codec.DecodeOfPercentEncode | src/handlers/handle_utils.c:324-358 | decoding undoes percent-encoding for every byte string (section 2.1 of RFC 3986) |
| Engine.Txn.GetCapped | src/handlers/handle_utils.c:243-298 | the doubling read returns the stored bytes iff they fit the cap and VALUE_TOO_LARGE else; it never allocates past the cap and reads at most logarithmically often in cap/1024 |
| Engine.LastItemEndsTheEntity | doc/lmjcore-web/API_REFERENCE.md:576-600 | removing an item takes away just that item; the entity stops existing iff it was the last; others are unchanged |
| Engine.PutKeepsInv | doc/lmjcore-web/API_REFERENCE.md:1173-1202 | putting a well-formed value keeps an object's registered names equal to its names with values |
| Engine.MemberDeleteKeepsInv | doc/lmjcore-web/API_REFERENCE.md:1173-1202 | so does deleting a member, and a key without items disappears from both tables |
| PathText.JoinOfSplit | src/handlers/query_path.c:108-175 | joining the pieces gives the path back |
| PathText.SplitOfJoin | src/handlers/query_path.c:108-175 | splitting joined dot-free pieces gives them back |
| PathText.ParseAcceptsTheGrammar | src/handlers/query_path.c:101-178 | parsing succeeds iff the path is a 34-byte root and 1 to max_depth non-empty segments; the segments are then the percent-decoded pieces |
| PathText.TooDeepExactly | src/handlers/query_path.c:128-131 | PATH_TOO_DEEP iff the root has its length and more than max_depth segments follow, the first max_depth + 1 non-empty |
| PathText.ParseOfPrint | src/handlers/query_path.c:101-178 | printing a root and 1 to max_depth non-empty NUL-free names, then parsing, gives them back |
| PathText.NulEndsSegment | src/handlers/query_path.c:140-175 | an encoded NUL ends a segment: what follows it is not seen |
| PathText.PrintTooDeep | src/handlers/query_path.c:128-131 | one name too many is refused whatever the names |
| PathText.CountMembers | src/handlers/query_path.c:114-138 | the counting loop's code and count are those of the checked pieces |
| PathText.FillSegments | src/handlers/query_path.c:140-175 | the filling loop visits exactly the counted pieces, and decoding never fails for want of room |
| PathText.SegmentsParse | src/handlers/query_path.c:101-178 | both passes together compute the parse, or its error code |
| QueryPath.WithDefaults | src/handlers/query_path.c:182-192 | given limits are kept, zero stands for 64 segments and 8192 bytes |
| QueryPath.ProbeHopIsFull | src/handlers/query_path.c:253-288 | on a well-formed store an 18-byte probe decides what a full read and decode would; a raw or null type is reported iff the value fits in 18 bytes |
| QueryPath.ProbeRefinesFull | src/handlers/query_path.c:253-300 | the probing walk has the answer, failing segment and reported type of the walk that reads every value in full |
| QueryPath.BuildAt | src/handlers/query_path.c:31-57 | the reported location is the segments up to the failing one, joined by slashes |
| QueryPath.AtFacts | src/handlers/query_path.c:31-57 | the location of segment 0 is the root; each further segment adds a slash and its name; segments behind the failing one play no part |
| CompileWalk.AtIsSlashPath | src/handlers/query_path.c:31-57 | so the location is the root and the names down to the failing one, a slash before each |
| QueryPath.WalkSegments | src/handlers/query_path.c:245-330 | the walking loop computes the probing walk |
| QueryPath.QueryExecute | src/handlers/query_path.c:205-333 | the whole query: parse, root checks, walk, with location and type on failure |
| CompileWalk.WalkIsLookup | src/handlers/query_path.c:205-333 | in a store that holds an object's graph, a full walk is the lookup of the names in the tree: leaf text and type, not found, scalar crossed, array crossed, too large |
| CompileWalk.QueryThenLookup | src/handlers/query_path.c:205-333 | so is a query by path text, for any non-empty NUL-free names within the depth limit, its failure located at the root and the names down to the failing segment |
| CompileWalk.InitThenQuery | src/handlers/obj_handle.c:550-590 | after a successful object init of any tree, querying the returned pointer by any such names answers what the tree says, the last pair winning where a key repeats, VALUE_TOO_LARGE iff the encoded leaf exceeds the cap |
| CompileWalk.InitLayout | src/handlers/obj_handle.c:537-590 | an object init leaves exactly the body's graph under the next free identifier |
| Reach.LookupTells | src/handlers/query_path.c:205-333 | a lookup along a chain of last pairs gives the value there: a string or number its text, true, false and null their words, a container the pointer of an entity holding its graph; "too large" iff the stored form exceeds the cap |
| QueryAnswers.QueryAnswered | src/handlers/query_handle.c:89-151 | over any store, the answer to a query names path, value and type, or the documented status and text with location, segment, found type and limit |
| QueryAnswers.QueryErrorTells | doc/lmjcore-web/QUERY_DESIGN.md:69-81 | each failure has its documented status, text and optional fields |
| QueryAnswers.BadRoots | src/handlers/query_path.c:218-243 | a path from a set fails as SET_NOT_SUPPORTED, one from no pointer as PATH_INVALID_PTR, both at segment 0 and the root |
| QueryAnswers.InitThenQueryServed | src/handlers/obj_handle.c:508-606 | POST /obj/init with any JSON object, then GET /obj/query with the pointer from its answer and any printable names: the second answer is what the object says |
| QueryAnswers.StoredValueIsServed | src/handlers/query_handle.c:89-151 | every value of the stored object is answered with its own text and type word, a container with the pointer of an entity that holds its graph |
| QueryAnswers.SetInitServed | src/handlers/set_handle.c:418-511 | POST /set/init with a non-empty array answers 201 with a pointer under which its graph is stored, and its exact element count |
| CompileWalk.AtMost65Segments | src/handlers/obj_handle.c:567 | no value an object init stores lies more than 65 segments from its root |
| CompileWalk.DeepestTextIsOutOfReach | doc/lmjcore-web/QUERY_DESIGN.md:103 | an input for which the limits differ: a text stored 65 segments deep, refused by the default query limit |
| Reach.AnswersWithinLimit | src/handlers/query_path.c:128-131 | a stored value that fits the value limit answers the query for its path iff the path is within the query limit; else the answer is "too deep" |
| Reach.LookupOfReached | src/handlers/query_path.c:245-330 | names lead to a stored value, of whatever size, iff they are a chain of last pairs through objects |
| Reach.EveryValueInReachIff | src/handlers/nested_value.c:148-152 | no stored value is refused as too deep iff no such chain of the request body is longer than the query limit |
| Reach.StoredFits | src/handlers/obj_handle.c:567 | what an object init accepts has sound names throughout and no chain longer than 65, so a query limit of 65 reaches everything |
| Substitution.MatchBinding | src/handlers/batch_handle.c:94-110 | returns the binding the recursive search finds, and its token's length, or 0 |
| Substitution.BestIsBest | src/handlers/batch_handle.c:94-110 | that binding is the first of the longest tokens matching here; none is found iff no non-empty token matches |
| Substitution.SegmentationExists | src/handlers/batch_handle.c:116-153 | every source text has a cut into longest-match tokens and bytes at which none matches |
| Substitution.SegmentationIsUnique | src/handlers/batch_handle.c:116-153 | it has only one |
| Substitution.SubstituteExpandsSegmentation | src/handlers/batch_handle.c:116-153 | the output is that cut with each token replaced by its value, so values are never scanned again |
| Substitution.OrderIsIrrelevant | src/handlers/batch_handle.c:94-153 | with distinct tokens the bindings' order does not matter |
| Substitution.SubstituteString | src/handlers/batch_handle.c:116-153 | the second pass fills exactly the buffer the first one sized, with the specified output |
| Substitution.SubstitutionKeepsSkeleton | src/handlers/batch_handle.c:159-179 | substitution keeps a tree's shape, keys, size and other scalars |
| Substitution.SubstituteWalk | src/handlers/batch_handle.c:159-179 | replaces in every string value of the tree and nowhere else |
| Substitution.PrintThenParse | src/handlers/batch_handle.c:56-89 | parsing `{N:key}` gives N and the key back, for every N up to 1000 and every non-empty key |
| Substitution.ParsesExactly | src/handlers/batch_handle.c:56-89 | an expression parses to N and a key exactly if it is a brace, digits worth N at most 1000, a colon, the key and a brace |
| Substitution.ParseReference | src/handlers/batch_handle.c:56-89 | the digit loop with its early overflow exit computes the specified parse |
| Batch.OperationBody | src/handlers/batch_handle.c:398-417 | no body is handed on iff it is missing or null, else the operation's own; it is no larger than the operation, so nested batches end |
| BatchTrace.BatchStartsWhen | src/handlers/batch_handle.c:460-502 | a batch starts iff its body is an object with 1 to 1000 operations and, if read-only, no operation at any position has a write method |
| BatchTrace.SubstitutedFields | src/handlers/batch_handle.c:304-326 | under every key: the path has its tokens replaced, the body its strings' tokens, any other field is the operation's own |
| BatchVars.ResolvedOperation | src/handlers/batch_handle.c:190-334 | an operation resolves iff every entry of its vars refers to a string or number of an earlier, successful result, under a key of at most 511 bytes; its path and every string of its body are then the expansions of their longest-match cuts by those entries, and nothing else changes |
| BatchVars.CollectsWhen | src/handlers/batch_handle.c:222-303 | the bindings are collected iff every entry resolves |
| BatchVars.TreeExpands | src/handlers/batch_handle.c:159-179 | position by position, the substituted tree is the tree with each string value expanded and keys, shape and other scalars kept |
| BatchTrace.AnswersOfResults | src/handlers/batch_handle.c:597-648 | the answer of a successful batch is a 200 that says so and gives back each operation's status and body, in order |
| BatchTrace.AnswerOfFailure | src/handlers/batch_handle.c:566-588 | the answer of a failed batch is a 400 with the failing index and that operation's body |
| BatchTrace.FailureIsServed | src/handlers/batch_handle.c:527-588 | a failing batch is answered with 400, the least failing index and that operation's answer; the operations before it alone would have finished |
| BatchTrace.OperationRefused | src/handlers/batch_handle.c:341-382 | an operation without method or path, with another method word, or without a route is refused with 400, 400 or 404, and nothing is done for it |
| BatchTrace.TimeoutTells | include/handle_utils.h:80-88 | an expired transaction is answered with 408 |
| BatchTrace.ServeTrace | src/handlers/batch_handle.c:398-563 | the requests a successful handler performed are exactly those its body and answer spell out: each operation's, prepared from its substituted fields, in order, nested batches in place |
| BatchTrace.SuccessIsTheFold | src/handlers/batch_handle.c:505-596 | so a successful batch leaves the view as all its operations' requests would one after the other, and each of them succeeded |
| BatchFacts.ServeFlattens | src/handlers/batch_handle.c:398-447 | success or failure, at any nesting depth, a handler changes the view exactly as the requests it got to perform would one after the other |
| BatchFacts.MethodIsKept | src/handlers/batch_handle.c:304-326 | substitution never touches an operation's own method |
| BatchFacts.ReadOnlyServe | src/handlers/batch_handle.c:484-502 | a read-only handler, batches at any depth included, performs reads only and leaves the view as it was |
| BatchFacts.ResultsMatchOperations | src/handlers/batch_handle.c:532-648 | success means one result per operation, in order, none an error; failure names an operation of the list with an error answer |
| BatchFacts.FailedAtIsFirst | src/handlers/batch_handle.c:532-588 | failed_at is the least failing index: the operations before it finish, those after it have no effect on the run |
| BatchFacts.BindingsReadEarlierResults | src/handlers/batch_handle.c:222-303 | one binding per entry of vars, each with its own token and the text of a string or number field of an earlier, successful result |
| BatchFacts.ServeGrows | src/handlers/batch_handle.c:460-658 | every request, failed or not, keeps the view well formed |
| Routes.ReadHandlersAreTheGetRoutes | src/routes.c:15-130 | the handlers that open read-only transactions are those registered for GET |
| Routes.RouteTable | src/routes.c:15-130 | the method each handler is registered under |
| Routes.MethodWords | src/handlers/batch_handle.c:356-369 | the four method words are told apart and every other text is invalid |
| ErrorCodes.HttpStatus | include/error_codes.h:63-105 | only success maps below status 400 |
| ErrorCodes.StatusTable | include/error_codes.h:63-105 | which codes give 200, 400, 404, 413 and 500 |
| BatchCode.TxnBegin | include/handle_utils.h:39-53 | a transaction passed in is borrowed; else a new one is owned, or beginning failed |
| BatchCode.TxnCommit | include/handle_utils.h:56-68 | an owned transaction is ended, and its view committed or rolled back; a borrowed one stays open and nothing is committed |
| BatchCode.TxnAbort | include/handle_utils.h:71-77 | an owned transaction is rolled back, the handed-out identifiers being spent; a borrowed one is left alone; no longer owned after |
| BatchCode.Environment.CheckTimeout | src/handlers/handle_utils.c:306-313 | each passing check uses up one; once expired it stays so |
| BatchCode.TxnCheckTimeout | include/handle_utils.h:80-88 | an expired transaction is rolled back if owned and left alone if borrowed; before that it goes on unchanged |
| BatchCode.HandleRequest | src/handlers/obj_handle.c:275-374 | borrowed: exactly the specified change and answer, transaction left open and nothing committed; owned: all of it committed with a success answer, or the store as it was |
| BatchCode.ResolveEntry | src/handlers/batch_handle.c:222-296 | one entry of vars is bound or refused as specified |
| BatchCode.ResolveBindings | src/handlers/batch_handle.c:222-303 | the loop over vars collects the bindings in order or stops at the first refusal |
| BatchCode.ResolveFields | src/handlers/batch_handle.c:190-334 | path and body with tokens replaced, other fields as they are |
| BatchCode.ExecuteOperation | src/handlers/batch_handle.c:341-448 | an operation runs in the batch's transaction, which it neither commits nor ends |
| BatchCode.RunOperations | src/handlers/batch_handle.c:527-563 | the loop computes the specified run on the shared view and commits nothing |
| BatchCode.HandleBatch | src/handlers/batch_handle.c:460-658 | a batch in a transaction of its own commits the fold of all its operations with a success answer, or leaves the store as it was; a nested one commits and ends nothing |
| BatchCode.BuildResults | src/handlers/batch_handle.c:605-645 | the results array lists each operation's status and body in order |
| BatchCode.Handle | src/routes.c:15-130 | the same contract for every routed handler |
| Handlers.Prepare | src/handlers/obj_handle.c:275-330 | a handler's checks yield a reading request iff the handler is read-only; a refusal is an error answer |
| ClientRequests.PrintedRequestIsPrepared | src/handlers/obj_handle.c:180-330 | for every pointer, NUL-free name, value and type, the parameters and body a client writes come out of the checks as the request meant |
| ClientRequests.PlainRequestIsPrepared | src/handlers/obj_handle.c:516-532 | an object init takes exactly the pairs of its object body, a set init the elements of its array, any other body being refused; a query takes its path; a create takes nothing |
| ClientRequests.TypedBodyIs | src/handlers/handle_utils.c:94-115 | a body is a typed value iff it has a value text and one of the three type words, whatever else it has |
| ClientRequests.ParamLimits | src/handlers/handle_utils.c:13-37 | a parameter is its first 1023 bytes; a name is refused iff it decodes to more than 511 |
| ClientRequests.MeantIsServed | src/handlers/obj_handle.c:180-439 | the request a client means is carried out and its answer handed back |
| HandlerCode.EncodeTyped | src/handlers/obj_handle.c:340-357 | encodes a typed value in the handlers' buffer, which is never too small |
| HandlerCode.ObjInit | src/handlers/obj_handle.c:508-606 | creates the root, fills it member by member, counts the pairs; on failure the nested message with the root's own level behind it |
| HandlerCode.SetInit | src/handlers/set_handle.c:418-511 | the same for elements, duplicates accepted, the count read from the set |
| HandlerCode.ObjGet | src/handlers/obj_handle.c:52-178 | the response lists the decodable members and counts those listed |
| HandlerCode.SetGet | src/handlers/set_handle.c:52-163 | the response lists the decodable elements and counts those listed |
| HandlerCode.ObjMemberGet | src/handlers/obj_handle.c:180-273 | a member up to the value limit, or the specified error |
| HandlerCode.ObjMemberPut | src/handlers/obj_handle.c:275-374 | the object must exist; the value is encoded and put |
| HandlerCode.ObjMemberDel | src/handlers/obj_handle.c:376-439 | the object must exist; just that member goes |
| HandlerCode.SetAdd | src/handlers/set_handle.c:165-258 | the set must exist; an element already there is a conflict |
| HandlerCode.SetRemove | src/handlers/set_handle.c:260-348 | the set must exist; just that element goes |
| HandlerCode.DeleteWhole | src/handlers/obj_handle.c:441-489 | an existing entity of the handler's kind goes with all its items |
| HandlerCode.CreateEmpty | src/handlers/obj_handle.c:15-50 | a new pointer, with nothing stored under it |
| HandlerCode.ObjQuery | src/handlers/query_handle.c:89-151 | the query's value, or its error with location, type and limit |
| HandlerCode.Execute | src/routes.c:15-130 | each prepared request is carried out by its handler as specified |
| Outcomes.PutSucceedsWhen | src/handlers/obj_handle.c:333-372 | PUT succeeds iff the object exists, the name has 1 to 493 bytes, the value can be stored and there is room; else an error and no change, 404 for an absent object |
| Outcomes.MemberDelSucceedsWhen | src/handlers/obj_handle.c:413-432 | DELETE of a member succeeds iff the object has it, be it the last; an absent object or member is a 404 and nothing changes |
| Outcomes.AddSucceedsWhen | src/handlers/set_handle.c:213-250 | adding succeeds iff the set exists, the element can be stored and is new, and there is room; a present one is a 409 |
| Outcomes.RemoveSucceedsWhen | src/handlers/set_handle.c:308-340 | removing succeeds iff the set has the element, be it the last; an absent set or element is a 404 |
| Outcomes.DeleteSucceedsWhen | src/handlers/obj_handle.c:470-482 | deleting succeeds iff the entity exists and is of the handler's kind; an absent one is a 404 |
| Outcomes.StoredWhen | src/handlers/handle_utils.c:117-161 | raw text and null can always be stored, a reference iff its text reads as a pointer of an object or a set; the stored length is exact |
| Outcomes.CreateAnswers | src/handlers/obj_handle.c:15-50 | a create answers 201 with the next free pointer of its kind |
| Outcomes.ExistAnswers | src/handlers/utils_handle.c:15-67 | the answer says whether the entity exists and, if so, which kind it is |
| Outcomes.HealthAnswers | src/handlers/utils_handle.c:69-82 | the health answer says ok and the uptime |
| Outcomes.MemberAnswers | src/handlers/obj_handle.c:210-272 | GET of a member names it with its decoded value and type word, or answers 404 without it, or 413 with the limit |
| Outcomes.WrongKindIsRefused | src/handlers/obj_handle.c:108-113 | reading an entity as the other kind is a 400 |
| Outcomes.AbsentIsNotFound | src/handlers/obj_handle.c:52-84 | readers of what does not exist answer 404 |
| Answers.EntryTells | src/handlers/json_response.c:182-206 | in an entry a client reads the name, the value and the documented word for each of the four types |
| Answers.ElementTells | src/handlers/json_response.c:208-210 | so for an element: value and type word |
| Answers.CountedPtrTells | src/handlers/json_response.c:125-138 | status 201, the pointer and the count |
| Answers.PtrTells | src/handlers/json_response.c:112-123 | status 201 and the pointer |
| Answers.EntityTells | src/handlers/json_response.c:140-168 | status 200, the pointer, the list and its length |
| HandlerEffects.PutThenDelete | src/handlers/obj_handle.c:275-439 | putting a new member and deleting it leaves the store as it was |
| HandlerEffects.AddThenRemove | src/handlers/set_handle.c:165-348 | adding an element and removing it leaves the store as it was |
| HandlerFacts.PerformGrows | src/handlers/obj_handle.c:275-606 | every request keeps every stored value and both tables well formed, whether it succeeds or fails half-way |
| HandlerFacts.OnlyInitBringsIntoExistence | src/handlers/obj_handle.c:333-338 | an entity starts to exist only by a non-empty init, under a pointer never handed out before |
| HandlerEffects.PerformKeeps | src/handlers/set_handle.c:165-348 | a request leaves every member and element it does not write as it was |
| HandlerEffects.RunKeeps | src/handlers/obj_handle.c:275-439 | so does a whole run of requests none of which commits a write there |
| HandlerEffects.LastWriteDecides | src/handlers/batch_handle.c:505-596 | the last committed write of a member or element, alone or inside any nested batch, decides what is there at the end of every run |
| HandlerEffects.LastPutIsRead | src/handlers/obj_handle.c:180-374 | GET answers 200 with the last value put and its type word, or 413 with the limit iff its stored form exceeds it, whatever else happened since |
| HandlerEffects.LastDeleteIsNotFound | src/handlers/obj_handle.c:376-439 | GET of a member last deleted answers 404 at the end of every run, naming the member or, if the object went with it, the object |
| HandlerEffects.LastAddConflicts | src/handlers/set_handle.c:165-258 | an element last added is there at the end of every run, and adding it again is a conflict that changes nothing |
| HandlerEffects.LastRemoveIsGone | src/handlers/set_handle.c:260-348 | an element last removed is not there, and removing it again fails and changes nothing |
| HandlerEffects.CreatedNeverExists | src/handlers/obj_handle.c:15-50 | a pointer from POST /obj or POST /set never names anything: later in its batch and in every later run, puts, adds and reads on it are refused |
| HandlerEffects.DeletedStaysDeleted | src/handlers/obj_handle.c:441-489 | the same holds of a deleted entity |
| HandlerFacts.MemberCountIsExactForDistinctKeys | doc/lmjcore-web/API_REFERENCE.md:673 | member_count is the root's number of members iff no key repeats |
| HandlerFacts.SetInitCountIsExact | src/handlers/set_handle.c:455-505 | for a non-empty array element_count is its containers plus its distinct scalar encodings |
| HandlerFacts.ObjGetIsComplete | src/handlers/obj_handle.c:128-168 | on a well-formed store GET answers the pointer, every member once in byte order with its name, decoded value and type word, and their number: none is skipped |
| HandlerFacts.SetGetIsComplete | src/handlers/set_handle.c:124-153 | the same for the elements of a set |
| CBytes.ListingIsSorted | doc/lmjcore-web/API_REFERENCE.md:93-111 | items are listed in strictly ascending byte order |
| Runs.RequestsAreAtomic | src/handlers/batch_handle.c:505-596 | after a request the committed store is the old one, or the left-to-right fold of every request its body asks for, each a success |
| Runs.RunKeepsInvariant | src/handlers/handle_utils.c:117-161 | stored values stay well formed, names match values and pointers stay fresh through every run of requests |
| Runs.BornByInit | src/handlers/set_handle.c:213-218 | an entity begins to exist only by a committed request whose body asks for a non-empty init, under a pointer never handed out before |
| Runs.GoneForever | src/handlers/obj_handle.c:420-432 | a pointer handed out that names nothing never names anything again, in any later run |
| Runs.NoResurrection | src/handlers/obj_handle.c:420-432 | once an entity's last item is removed, no later run brings its pointer back |
| Server.AnswerRequest | src/http_server.c:186-200 | the code of every handler, called without a transaction, takes the database from one state of a run to the next; it commits iff a write handler answers with success |
| Server.AnswerAll | src/http_server.c:186-200 | requests in a row leave the database as the run of their events does, well formed if it was, and no spent pointer that names nothing comes back |

## Left out

- Sockets, threads, signals, logging, the accept loop, `src/http_parser.c` and `src/config.c`: input and output only.
- cJSON's parser, printer and object kinds other than the six of JSON. A number's text is a field of the tree: what `number_to_text` prints (`%.17g`). Where a reference reads a number from an earlier answer, cJSON prints it, and those numbers (counts, positions, limits, seconds) are integers.
- The engine, LMDB, the router's matching and parameter extraction: not part of this model beyond the contract under "Boundary".
- Allocation failure, and with it the error answers after a successful commit in `src/handlers/batch_handle.c:594-603`.
- Substitution.SubstituteWalk: returns a new tree where the source replaces strings inside the tree it is given; aliasing between cJSON nodes is not captured.
- Engine.Txn: entities live in maps on values, not in LMDB pages; cursors and the transaction's own snapshot are not modelled.
- BatchCode.HandleRequest: states once the prologue and epilogue that every handler of the source repeats.
- BatchCode.TxnCommit: a refused commit is a rollback; the second abort call the source makes after it is not represented.
- BatchCode.TxnBegin: begin and commit fail at will, without a reason code.
- HandlerCode.ObjGet: the estimated result buffer and the engine's two stat calls before it are not represented; the engine's answer is taken to fit.
- HandlerCode.SetGet: nor are they for sets.
- ErrorCodes.HttpStatus: codes the modelled code never returns are left out.
- Handlers.Prepare: which parameters and bodies make which request is in the lemmas of `ClientRequests`.
- Server.AnswerAll: requests follow one another; that write transactions exclude each other and readers see a snapshot is the engine's.
- CompileWalk.InitThenQuery: member names are non-empty and NUL-free, since `strlen` cuts a decoded name at its first NUL; on other names the parse is still `PathText.ParseAcceptsTheGrammar`.
- HandlerFacts.SetInitCountIsExact: the empty array depends on the engine's answer for a set without elements, which `Handlers.PerformSetInit` keeps open.
- Referential integrity: a `ref` value is not checked against the store, so references may dangle or form cycles; nothing is claimed about it.
- The ring of four buffers behind `route_params_get`; parameters are cut at 1023 bytes as there.
