# Koschei verification

A Dafny model of the parts of Koschei whose correctness rests on reasoning across many functions or whole runs, with
proofs of what those parts promise.

| area | modules | main results |
|---|---|---|
| affine ownership pass | `AffineSyntax`, `AffineCheck`, `AffinePaths`, `AffineSoundness`, `AffineConverse`, `AffineChecker`; `AffineTraces`, `AffineParts`, `AffineJoins`, `AffinePlain`, `AffineWitness`, `AffineSteps`, `AffineLoops`, `AffinePrecision`; `AffineMutability`, `AffinePositions`, `AffineExamples` | an accepted function is safe on every path; on code without early exits the pass accepts exactly the safe functions; where it is too lenient, and why |
| data/v1 JSON codec | `Unicode`, `Utf8`, `JsonNumber`, `JsonNumberMeaning`, `JsonCanonicalForm`, `JsonCanonical`, `JsonValue`, `JsonGrammar`, `JsonStrings`, `JsonParse`, `JsonDerivation`, `JsonReading`, `JsonParser`, `JsonRoundTrip`, `JsonDecoded`, `JsonWrite`, `JsonCompact`, `JsonRefusals`, `JsonWriter` | decode accepts exactly the texts of the grammar within the limits; encode writes the one compact text; exact numbers, round trips and budgets |
| deterministic parallel map | `ParallelMap` | every schedule of the pool gives the sequential result |
| time-evolving authorization | `AuthConstraints`, `AuthState`, `AuthLedger`, `AuthStore` | exact attenuation, lifecycle, no rollback and claim safety over whole runs |
| storage protocols | `AliasRotation`, `AliasRotationStore`, `Persistence` | rotation, its inverse and exactly when rollback restores; crash-atomic commit |
| effect contracts | `EffectGraphs`, `EffectInference`, `EffectModules`, `ModuleOrder` | both fixpoints equal reachability; modular analysis equals whole-program reachability |
| runtime values | `Int64`, `OrderedMaps`, `GoMaps`, `RingBuffer` | wraparound arithmetic, the Go map and the ring buffer refine their simple forms |

`Options` holds the optional value. Code that updates state is modelled by methods and classes, each proved equal to a
function or relation; the theorems are about those. A raised error is a result value, compared by its code or kind.

## Notes on the model

**Affine pass.** A path is the sequence of use and move events of one execution of a function body; a list of choices
picks every branch, match arm, `or` outcome, iteration count and early exit. When the choices run out the run stops, so
finite prefixes of endless runs are paths too. The type recorded for an
expression is stored in its node, together with the verdict of `is_sensitive`. The field `quiet` of the checker state is
not in the program: it records that no `while` condition moved a binding that was there before it.

**Where the code and its documentation disagree.**

- docs/AFFINE_RESOURCES_V1.md:91-92 promises that v1 never guesses in favor of aliasing. The pass checks a `while`
  condition once, outside the check for repetition (koschei/affine_resources_v1.py:225-228), so a condition that moves a
  token is accepted although its second evaluation moves the token again. `MovingConditionIsAcceptedButUnsafe` is such a
  function, `AcceptedIsSafe` proves safety whenever no condition moves an older binding, and `ExactOnPlain` proves for code
  without early exits that this is the exact condition. `ReenteredMoveIsUnsafe` gives the unsafe path for any loop whose
  condition can move an older owner and whose body can lead back.
- The documentation string at koschei/epoch_alias_rotation_v1.py:206 promises a cycle-safe rotation with rollback. A
  failure after a finalised move took the old alias of a later move loses that alias (`SwapRollbackLosesAnAlias`, with a
  concrete store in `SwapStore`). `RollbackExactly` states when rollback restores the store: if and only if no finalised
  move took the old alias of a later one.
- The interpreter's `Map.add` looks for capabilities before it looks at the key and the delta, the Go runtime after
  (koschei/ergonomics_map_add_v0113.py:158-167, 198-209). `MapAdd` states exactly where the two errors differ.

**JSON.** `JsonGrammar` defines the texts of RFC 8259 as derivation trees with a text and a value, apart from the parser:
code units by division and remainder, escapes by a table, numbers as digit sums with powers of ten in every style of
writing. The parser is proved to accept exactly those texts, and the printer to write the compact one.

**Digests** are ideal: the digest of a link, state or transition is the term of the hashed fields, so equal digests mean
equal fields and a state contains its predecessors. A SQLite transaction is one atomic step.

**Failures.** In `AliasRotationStore` and `Persistence` each file-system call may fail by itself, chosen
nondeterministically, and the clock may advance between any two calls; the ghost fields `failures`, `unpublished`, `faulty`, `unlinked` and `states`
record what happened. Random names are parameters.

**Effects.** The effects and calls that one function body shows by itself are inputs; the fixpoints, the binding of
imports, the `pure fn` check and the traversal of the module graph are modelled. Loops over sets run in an arbitrary
order, so the results hold for every order.

## Model

| member | source | states |
|---|---|---|
| `AffineSoundness.AcceptedIsSafe` | koschei/affine_resources_v1.py:155-168 | If the pass accepts a function and no `while` condition moved a binding from before it, then on every path (any branch, arm, `or` outcome, number of iterations, early exit) no affine binding instance is used or moved after it was moved. |
| `AffineSoundness.AcceptedProgramIsSafe` | koschei/affine_resources_v1.py:84-99 | The same for every function of an accepted program, whose functions share the binding counter. |
| `AffineSoundness.MovingConditionIsAcceptedButUnsafe` | koschei/affine_resources_v1.py:225-228 | A function whose `while` condition consumes a token is accepted and has a path that moves the token twice. |
| `AffinePrecision.ExactOnPlain` | koschei/affine_resources_v1.py:84-507 | On every function without early exits (no `return` before the end, `break`, `continue`, `or return` or `match` without arms) and without mutable affine bindings, the pass accepts with quiet loop conditions if and only if every path is safe; branches, arms, blocks and loops included. |
| `AffinePrecision.RejectedIsUnsafe` | koschei/affine_resources_v1.py:155-168 | Every such function that is rejected with KS3931 or KS3932, or accepted although a loop condition moves an older binding, has an unsafe path, which the lemma returns. |
| `AffinePrecision.IfPrecise` | koschei/affine_resources_v1.py:279-313 | Both branches are checked from the moved set of the condition: each binding held moved after an `if` is moved on a path through it, and a rejected branch has an unsafe path. |
| `AffinePrecision.ArmsPrecise` | koschei/affine_resources_v1.py:458-496 | The same for the arms of a `match`, each checked from the moved set of the subject. |
| `AffinePrecision.RoundsPrecise` | koschei/affine_resources_v1.py:230-265 | A `for` rejected with KS3932 has a path of two rounds that moves the same owner twice; moving the loop variable is accepted. |
| `AffinePrecision.WhilePrecise` | koschei/affine_resources_v1.py:225-228 | The same for `while`, and a condition that moves an older binding has an unsafe path. |
| `AffineSteps.UseIsUnsafe` | koschei/affine_resources_v1.py:155-168 | A name reported by KS3931 is used after a move on some path that reaches it. |
| `AffineExamples.EarlyExitIsConservative` | koschei/affine_resources_v1.py:279-313 | With a `return` in a branch the pass rejects a function all of whose paths are safe, so exactness needs the absence of early exits. |
| `AffineMutability.MutableAffineIsRejected` | koschei/affine_resources_v1.py:107-130 | An accepted function declares no mutable affine binding anywhere in it, and KS3930 means that it declares one. |
| `AffinePositions.PositionDecides` | koschei/affine_resources_v1.py:337-507 | An affine name emits one event at each position: a move as list item, map value, struct field, argument, assigned value, bound or returned value, and a use everywhere else. |
| `AffinePositions.ArgumentsInOrder` | koschei/affine_resources_v1.py:398-411 | A call uses its callee and then moves its arguments from left to right. |
| `AffineConverse.ReenteredMoveIsUnsafe` | koschei/affine_resources_v1.py:225-228 | Whenever some path through a loop's condition moves an instance that existed before, and some path through the body leads back to the condition, the loop has an unsafe path. |
| `AffineSoundness.ExprGrows` | koschei/affine_resources_v1.py:337-507 | Monotonicity over the whole recursion: an accepted expression never un-moves a binding, moves only bindings in scope or created inside, and keeps scope entries or replaces them by newer ones. |
| `AffineSoundness.StmtGrows` | koschei/affine_resources_v1.py:190-270 | The same for statements, through the restored snapshots of branches and loops. |
| `AffineSoundness.ExprSound` | koschei/affine_resources_v1.py:337-507 | On every path through an accepted expression the events are safe and everything the path moved is in the checker's moved set afterwards. |
| `AffineSoundness.IfSound` | koschei/affine_resources_v1.py:279-313 | Both branches of an accepted `if` are covered by the joined moved set. |
| `AffineSoundness.WhileSound` | koschei/affine_resources_v1.py:315-335 | Any number of iterations of an accepted `while` with a quiet condition is safe, and whatever they moved of the outer bindings was in the moved set already. |
| `AffineSoundness.ForSound` | koschei/affine_resources_v1.py:230-265 | The same for `for`, with a fresh instance of the loop variable in each iteration. |
| `AffineChecker.Checker.CheckAll` | koschei/affine_resources_v1.py:84-99 | The walk over all functions accepts, or raises a code, exactly as `CheckProgram` says. |
| `AffineChecker.Checker.DeclareBinding` | koschei/affine_resources_v1.py:107-130 | A mutable affine binding is KS3930; otherwise the innermost scope gets a binding with the next number. |
| `AffineChecker.Checker.ResolveName` | koschei/affine_resources_v1.py:132-137 | The innermost binding of the name, if any. |
| `AffineChecker.Checker.UseIdentifier` | koschei/affine_resources_v1.py:155-168 | A moved affine binding is KS3931; a use in a move context marks it moved. |
| `AffineChecker.Checker.RootIdentifier` | koschei/affine_resources_v1.py:170-174 | The identifier at the bottom of a chain of members. |
| `AffineChecker.Checker.CheckNested` | koschei/affine_resources_v1.py:176-188 | A block's scope is popped, and bindings it declared leave the moved set. |
| `AffineChecker.Checker.CheckStatement` | koschei/affine_resources_v1.py:190-270 | Each statement changes the mutable state as `CheckStmt` says. |
| `AffineChecker.Checker.CheckBranches` | koschei/affine_resources_v1.py:279-313 | Snapshot, both branches from the same moved set, union afterwards. |
| `AffineChecker.Checker.CheckRepeating` | koschei/affine_resources_v1.py:315-335 | A move of an outer binding in the body is KS3932; otherwise the moved set is restored. |
| `AffineChecker.Checker.CheckFor` | koschei/affine_resources_v1.py:230-265 | The same with the loop variable in a scope of its own. |
| `AffineChecker.Checker.CheckExpression` | koschei/affine_resources_v1.py:337-507 | The mutable walk over every kind of expression computes exactly `CheckExpr`: same error code, or same scopes, moved set and counter. |
| `AffineChecker.Checker.CheckMember` | koschei/affine_resources_v1.py:378-396 | Moving an affine field moves the root owner, except for a projection of `SystemCaps`. |
| `AffineChecker.Checker.CheckMatchArms` | koschei/affine_resources_v1.py:458-496 | Every arm starts from the moved set of the subject; the arms' moved sets are united. |
| `AffineChecker.Checker.CheckCall` | koschei/affine_resources_v1.py:398-411 | The receiver or callee is borrowed, affine arguments are moved, left to right. |
| `JsonNumberMeaning.ScanWritten` | koschei/data_json_v1.py:347-378 | Every number text (`e` or `E`, no sign, `+` or `-` on the exponent), followed by a delimiter, scans to its parts and the rest. |
| `JsonNumberMeaning.ScannedIsWritten` | koschei/data_json_v1.py:347-378 | And every text that scans was written so. |
| `JsonNumberMeaning.AcceptedIff` | koschei/data_json_v1.py:76-134 | `canonical_number` accepts exactly the number texts whose exponent is at most 1,000,000 in magnitude. |
| `JsonNumberMeaning.CanonicalPreservesMeaning` | koschei/data_json_v1.py:76-162 | Every accepted text means exactly one rational, read off the text by the grammar, and its canonical text means the same one. |
| `JsonNumberMeaning.CanonicalIffSameMeaning` | koschei/data_json_v1.py:76-162 | Two accepted texts get the same canonical text if and only if they mean the same rational. |
| `JsonCanonicalForm.CanonicalInForm` | koschei/data_json_v1.py:146-162 | The canonical text is a spelling in canonical form: no sign on zero, no zeros at the end of the fraction, an exponent only below 10^-6 and from 10^21 on, then one non-zero digit before the point. |
| `JsonCanonicalForm.FormIsUnique` | koschei/data_json_v1.py:146-162 | A rational has at most one spelling in that form. |
| `JsonNumber.CanonicalPreservesValue` | koschei/data_json_v1.py:76-162 | The canonical text denotes exactly the rational of the accepted spelling. |
| `JsonNumber.CanonicalIffEqual` | koschei/data_json_v1.py:76-162 | Two accepted spellings get the same text if and only if they denote the same rational, across plain and scientific forms and `-0`. |
| `JsonNumber.CanonicalIsFixedPoint` | koschei/data_json_v1.py:45-52 | Canonicalising a canonical text returns it, or rejects it exactly when its own exponent exceeds 1,000,000 in magnitude. |
| `JsonNumber.ScanSpelled` | koschei/data_json_v1.py:347-378 | Scanning inverts spelling: any well-formed number followed by a delimiter scans to its parts and the rest. |
| `JsonNumber.NormalUnique` | koschei/data_json_v1.py:136-144 | Digits without leading or trailing zeros and an exponent are determined by the rational they denote. |
| `JsonNumber.ExponentWithinLimitIsExact` | koschei/data_json_v1.py:124-131 | The exponent accepted after the digit-count limit is the exponent that was written. |
| `JsonNumber.RenderSpells` | koschei/data_json_v1.py:146-162 | All output forms are well-formed number spellings. |
| `JsonCanonical.CanonicalNumber` | koschei/data_json_v1.py:76-162 | The index-based scan and the output branches compute `Canonical`: the result means what the text means, in canonical form. |
| `JsonCanonical.CheckedExponent` | koschei/data_json_v1.py:124-131 | The exponent, or rejection by digit count or by magnitude. |
| `JsonReading.DecodeExactly` | koschei/data_json_v1.py:165-400 | `decode` succeeds with a value if and only if the text is, up to white space around it, the text of a derivation of RFC 8259 that denotes the value, with no repeated key, acceptable numbers, and within the node, depth and input limits. |
| `JsonReading.DecodeJudges` | koschei/data_json_v1.py:165-400 | A text of the grammar that is rejected is rejected for a reason that holds: KS3602 too deep, KS3603 too many nodes, KS3604 a repeated key, KS3605 a number out of range. |
| `JsonDerivation.ValueRead` | koschei/data_json_v1.py:205-279 | At every depth of the recursion, every derivation followed by a delimiter is read as its value, with its nodes counted, or rejected for such a reason. |
| `JsonReading.ReadValue` | koschei/data_json_v1.py:205-279 | Whatever the parser accepts is the text of a derivation of the value it returns. |
| `JsonStrings.StringRead` | koschei/data_json_v1.py:280-345 | Every spelling of a string, with two-character escapes, `\u` escapes in either case and surrogate pairs of code points above U+FFFF, is read as that string. |
| `JsonStrings.ReadString` | koschei/data_json_v1.py:280-345 | And whatever is read as a string was spelled so. |
| `JsonStrings.EscapeIsShortest` | koschei/data_json_v1.py:470-503 | No text that reads as a string is shorter than what the writer puts between the quotes. |
| `JsonStrings.EscapeCharIsShortest` | koschei/data_json_v1.py:474-497 | What the writer puts for a character is the only shortest spelling with lower-case digits. |
| `JsonCompact.PrintIsCompact` | koschei/data_json_v1.py:423-511 | The printed text is the text of the derivation without white space, with shortest strings, canonical numbers and sorted keys; there is one for every encodable value, and all have that text. |
| `JsonRefusals.RefusalIsJustified` | koschei/data_json_v1.py:412-503 | A refusal by `encode` names a limit that the value really exceeds, or KS3608 for a part that cannot be encoded. |
| `JsonRoundTrip.ValueParses` | koschei/data_json_v1.py:205-279 | The printed text of any canonical, encodable value, followed by any delimiter, parses to that value, leaves that rest, and counts exactly the value's nodes. |
| `JsonRoundTrip.StringParses` | koschei/data_json_v1.py:280-345 | Unescaping inverts escaping for every string without surrogates. |
| `JsonRoundTrip.PrintedDecodes` | koschei/data_json_v1.py:385-400 | A printed value decodes to itself under every limit that leaves room for it. |
| `JsonRoundTrip.PrintIsScalar` | koschei/data_json_v1.py:470-503 | The output never holds a surrogate, so it can be encoded in UTF-8. |
| `JsonWrite.RoundTrip` | koschei/data_json_v1.py:506-511 | If `encode` succeeds on a value with canonical numbers, `decode` of its text under the same node and depth limits, and an input limit with room for it, returns the same value. |
| `JsonWrite.EncodingIsInjective` | koschei/data_json_v1.py:506-511 | Texts are equal if and only if the values are. |
| `JsonWrite.EncodeExactly` | koschei/data_json_v1.py:403-511 | `encode` succeeds exactly when the value fits the node, depth and output budgets and all its parts are encodable; it returns the canonical text; a value that only exceeds the output budget is KS3607. |
| `JsonWrite.DecodedReencodes` | koschei/data_json_v1.py:412-436 | Re-encoding an accepted value under the same limits can fail on output bytes only, and its text decodes to the same value. |
| `JsonDecoded.DecodedIsAdmissible` | koschei/data_json_v1.py:188-199 | An accepted value has at most `max_nodes` nodes and `max_depth` depth, canonical numbers and no surrogates. |
| `JsonDecoded.ParsedIsAccounted` | koschei/data_json_v1.py:188-279 | At every depth of the recursion the node counter grows by exactly the nodes of the value returned. |
| `JsonValue.SortedIsUnique` | koschei/data_json_v1.py:453-461 | A set of keys has one listing sorted by code points. |
| `JsonParser.Parser.Value` | koschei/data_json_v1.py:205-227 | The recursive descent with mutable `index` and `nodes` returns the value, position and count, or the code, of the functional parser. |
| `JsonParser.Parser.Array` | koschei/data_json_v1.py:229-247 | Items, commas and the closing bracket, likewise. |
| `JsonParser.Parser.Object` | koschei/data_json_v1.py:249-278 | Fields with duplicate keys rejected, likewise. |
| `JsonParser.Parser.String` | koschei/data_json_v1.py:280-320 | The chunk-collecting loop returns the unescaped string. |
| `JsonParser.Parser.Unicode` | koschei/data_json_v1.py:322-345 | Computes `UnicodeEscape`, which `StringRead` and `ReadString` tie to the UTF-16 code units of the character. |
| `JsonParser.Parser.Number` | koschei/data_json_v1.py:347-382 | The longest number prefix, canonicalised. |
| `JsonParser.DecodeText` | koschei/data_json_v1.py:385-400 | `decode` as a whole: limits, input bytes, one value, nothing after it. |
| `JsonWriter.Writer.Add` | koschei/data_json_v1.py:412-421 | The tracked size is the UTF-8 length of the text so far and never exceeds the output budget. |
| `JsonWriter.Writer.String` | koschei/data_json_v1.py:470-503 | The run-copying loop appends exactly the quoted string, or raises when and where the budget ends. |
| `JsonWriter.Writer.Value` | koschei/data_json_v1.py:423-468 | The writer with mutable `parts`, `size` and `nodes` does what the functional writer does. |
| `JsonWriter.EncodeValue` | koschei/data_json_v1.py:506-511 | `encode` as a whole equals `Encode`, whose properties are the rows above. |
| `Utf8.EncodedSize` | koschei/data_json_v1.py:412-421 | The size the budgets count is the length of the UTF-8 encoding. |
| `Utf8.EncodedBits` | koschei/bounded_persistence_v1.py:222-225 | The bytes of a code point follow the table of section 3 of RFC 3629. |
| `Utf8.DecodesIff` | koschei/bounded_persistence_v1.py:211-214 | Strict UTF-8 decoding accepts exactly the encodings and is the inverse of encoding. |
| `ParallelMap.ScheduleIndependence` | koschei/deterministic_parallel_map_v1.py:66-125 | For every interleaving and pool size the run is at most 4 * items + workers steps; when nothing can step, each index was mapped exactly once and the scan returns what the sequential loop returns: all results in order or the error of the lowest failing index. |
| `ParallelMap.MappedExactly` | koschei/deterministic_parallel_map_v1.py:284-306 | The contract: all results in order when every one is a scalar, and otherwise the error of the lowest index where one is not. |
| `ParallelMap.StepKeeps` | koschei/deterministic_parallel_map_v1.py:97-117 | Every atomic step of every goroutine keeps the slot invariant and strictly reduces the remaining work. |
| `ParallelMap.DoneMeansFinished` | koschei/deterministic_parallel_map_v1.py:97-124 | When every goroutine has returned, every slot is filled with the right result or failure. |
| `ParallelMap.Collect` | koschei/deterministic_parallel_map_v1.py:119-124 | The scan returns the failure of the lowest index, or all results. |
| `ParallelMap.Interpret` | koschei/deterministic_parallel_map_v1.py:284-306 | The interpreter loop returns the contract's outcome, argument checks included. |
| `ParallelMap.RunPool` | koschei/deterministic_parallel_map_v1.py:66-125 | The pool under an arbitrary scheduler terminates and returns the same outcome as the interpreter for every call. |
| `AuthConstraints.AttenuationIsExact` | koschei/authorization_transition_v1.py:81-130 | The check accepts a well-formed child if and only if every request it permits the parent permits, and depth and redelegation do not grow; absent bounds are unlimited. |
| `AuthConstraints.AttenuationIsReflexive` | koschei/authorization_transition_v1.py:108-130 | Every constraint set attenuates itself. |
| `AuthConstraints.AttenuationIsTransitive` | koschei/authorization_transition_v1.py:108-130 | Attenuation composes, and a delegation hop strictly lowers the depth. |
| `AuthConstraints.AssertChainCurrent` | koschei/authorization_transition_v1.py:229-255 | The loop over the links accepts exactly the current chains. |
| `AuthConstraints.ChainExactly` | koschei/authorization_transition_v1.py:209-255 | Exactly which chains are accepted: every link checked at this epoch, signed, not revoked and live, a root without parent, and every other link issued by its parent's subject, committed to all the parent's hashed fields and permitting no more, one level deeper. |
| `AuthConstraints.TamperedChainIsRejected` | koschei/authorization_transition_v1.py:209-255 | Replacing one link of an accepted chain by one that is revoked, unsigned, stale or not live, or that differs in parent, commitment, issuer or any field its child commits to, makes the chain rejected. |
| `AuthConstraints.AcceptedChain` | koschei/authorization_transition_v1.py:229-255 | An accepted chain has at most root depth + 1 links, all live now, each permitting at most what every ancestor permits, and every link but the leaf redelegable. |
| `AuthState.Issue` | koschei/authorization_transition_v1.py:312-341 | An issued state is sealed, active, without predecessor, live, and within its ceiling. |
| `AuthState.IssueExactly` | koschei/authorization_transition_v1.py:312-341 | Exactly when a state is issued, and with what fields. |
| `AuthState.AdvanceExactly` | koschei/authorization_transition_v1.py:354-431 | Exactly when a transition is allowed, kind by kind. |
| `AuthState.AdvanceIsLawful` | koschei/authorization_transition_v1.py:354-431 | A transition keeps subject, intent, chain and ceiling, links to its predecessor, raises the epoch, gets the status of its kind, follows the lifecycle, stays within the ceiling, and NARROW never widens. |
| `AuthState.SnapshotWithinWholeChain` | koschei/authorization_transition_v1.py:447-485 | Whatever a snapshot permits, every delegator up to the root permits, and every link is live. |
| `AuthLedger.HeadsGrow` | koschei/authorization_state_ledger_v1.py:50-87 | Over any accepted commits, of hand-built states too, a changed head has a strictly longer predecessor chain. |
| `AuthLedger.SupersededStaysSuperseded` | koschei/authorization_state_ledger_v1.py:68-87 | A superseded state never becomes the head again. |
| `AuthLedger.Ledger.RegisterInitial` | koschei/authorization_state_ledger_v1.py:50-58 | Accepts exactly sealed active initial states of new subjects, and updates one head. |
| `AuthLedger.Ledger.AssertCurrent` | koschei/authorization_state_ledger_v1.py:60-66 | True exactly for the sealed current head. |
| `AuthLedger.Ledger.CommitTransition` | koschei/authorization_state_ledger_v1.py:68-87 | Accepts exactly sealed, linked transitions from the current head, and updates one head. |
| `AuthStore.HeadsEvolve` | koschei/durable_authorization_store_v1.py:231-275 | Over every run with transitions from the transition function, a subject's head changes only to a later epoch with the same intent, chain and ceiling, effective within the ceiling; suspended leads only to revoked or expired, and those are final. |
| `AuthStore.ClaimedForGood` | koschei/durable_authorization_store_v1.py:320-339 | A claimed permit stays claimed, unchanged, and is never claimed again, in any run. |
| `AuthStore.ClaimHadActiveHead` | koschei/durable_authorization_store_v1.py:320-339 | Every recorded claim was inserted at a step where its state was the active current head, its snapshot was allowed, and no link of its chain was revoked, unsigned, stale or out of its validity. |
| `AuthStore.ClaimExactly` | koschei/durable_authorization_store_v1.py:277-339 | In consistent tables a claim is accepted exactly when it is admitted, its snapshot is allowed, its state is the head and its permit is new. |
| `AuthStore.NoClaimWhileInactive` | koschei/durable_authorization_store_v1.py:320-339 | A subject whose head is not active gets no claim, however the run continues. |
| `AuthStore.NoClaimAfterStop` | koschei/durable_authorization_store_v1.py:277-339 | After a committed SUSPEND, REVOKE or EXPIRE no later claim for that subject succeeds. |
| `AuthStore.NoCommitAfterEnd` | koschei/durable_authorization_store_v1.py:244-275 | After a committed REVOKE or EXPIRE no later transition of that subject is accepted, in any run. |
| `AuthStore.Store.RegisterInitial` | koschei/durable_authorization_store_v1.py:231-242 | The transaction commits exactly when accepted, and otherwise changes no table. |
| `AuthStore.Store.CommitTransition` | koschei/durable_authorization_store_v1.py:244-275 | Head and transition row change together, or the head update is undone. |
| `AuthStore.Store.ClaimExecution` | koschei/durable_authorization_store_v1.py:277-339 | A claim row appears exactly when the state is the active head, the snapshot is allowed and the permit is new. |
| `AliasRotation.ReverseRestores` | koschei/epoch_alias_rotation_v1.py:299-304 | The reversed plan passes preflight on the rotated store and rotating by it gives exactly the original store, for swaps and longer cycles too. |
| `AliasRotation.RollbackExactly` | koschei/epoch_alias_rotation_v1.py:240-251 | After all moves were staged and some finalised, a rollback whose renames succeed restores the store if and only if no finalised move took the old alias of a later move. |
| `AliasRotation.StagingRollbackRestores` | koschei/epoch_alias_rotation_v1.py:219-255 | A failure at any staging step is undone for every plan. |
| `AliasRotation.SwapRollbackLosesAnAlias` | koschei/epoch_alias_rotation_v1.py:228-248 | For every swap that passes preflight, a failure after the first finalised move ends with an alias missing. |
| `AliasRotation.SwapStore` | koschei/epoch_alias_rotation_v1.py:202-255 | A concrete store and plan for which this happens. |
| `AliasRotation.Relocate` | koschei/epoch_alias_rotation_v1.py:219-232 | Renaming one object to a free name moves exactly that object and nothing else. |
| `AliasRotationStore.ObjectStore.CheckPlan` | koschei/epoch_alias_rotation_v1.py:171-199 | Preflight accepts exactly the safe, duplicate-free, collision-free plans whose sources exist, and records every object's contents. |
| `AliasRotationStore.ObjectStore.Stage` | koschei/epoch_alias_rotation_v1.py:219-226 | After any number of staged moves the store is the original with those objects under their temporary names. |
| `AliasRotationStore.ObjectStore.Finalise` | koschei/epoch_alias_rotation_v1.py:228-232 | After any number of finalised moves those objects are under their new aliases, the others still staged. |
| `AliasRotationStore.ObjectStore.Undo` | koschei/epoch_alias_rotation_v1.py:240-251 | The rollback loop computes `RollBack`, unless one of its renames fails. |
| `AliasRotationStore.ObjectStore.ApplyMoves` | koschei/epoch_alias_rotation_v1.py:202-255 | Success rotates exactly the planned objects; a rejected plan changes nothing; after an error with a complete rollback the store is the original if and only if no finalised move overlaps a later one; with fresh unused names it succeeds when no rename fails, rolls back after one failure, and is incomplete only after more. |
| `AliasRotationStore.ObjectStore.RotateStore` | koschei/epoch_alias_rotation_v1.py:258-313 | Published graph and store agree after success. When no rename fails and no temporary name collides, a failed publication ends with the original store, for swaps and cycles too; a broken state needs a failed rename; after an error with complete rollback the store is the original when no new alias is another object's old alias. |
| `Persistence.PersistCaps.Commit` | koschei/bounded_persistence_v1.py:219-345 | Unit or KS3423 means exactly the payload was installed and nothing else changed; any other error means no file changed, except that a temporary file whose removal failed stays with a prefix of the payload; every intermediate directory shows the old target or the whole payload; without faults and in time the answer is that of `CommitResult`. |
| `Persistence.PersistCaps.WriteAll` | koschei/bounded_persistence_v1.py:271-286 | For every pattern of short writes the temporary file ends with the whole payload, or holds a prefix when the loop stops. |
| `Persistence.PersistCaps.CreateTemp` | koschei/bounded_persistence_v1.py:247-269 | Exclusive creation never touches an existing name; exhaustion only when all sixteen names exist. |
| `Persistence.PersistCaps.Load` | koschei/bounded_persistence_v1.py:154-216 | For every pattern of partial reads the answer is that of `LoadResult`, unless a call failed or time ran out. |
| `Persistence.CommittedLoads` | koschei/bounded_persistence_v1.py:154-345 | What a commit that took effect stored is what a load returns, through UTF-8 in both directions. |
| `Persistence.LatestIsStored` | koschei/bounded_persistence_v1.py:219-345 | After any history of commits, whatever failed in them, a load returns the last value whose commit reported Unit or KS3423, and the target is untouched when there is none. |
| `EffectGraphs.ExactIffLeast` | koschei/effect_contracts_v1.py:225-234 | The assignment of reachable effects is the least one that contains the base effects and is closed under calls. |
| `EffectGraphs.ExactIsUnique` | koschei/effect_contracts_v1.py:225-234 | There is one exact result, so neither the order of iteration nor the implementation matters. |
| `EffectGraphs.PureIff` | koschei/effect_contracts_v1.py:260-272 | A function's inferred set is empty if and only if nothing it reaches has an effect of its own. |
| `EffectInference.InferContracts` | koschei/effect_contracts_v1.py:225-234 | The loop terminates for every call graph and order, and each function gets exactly the effects of the functions it reaches. |
| `EffectInference.InferEffects` | koschei/effects.py:50-62 | The second implementation terminates with the same exact result. |
| `EffectModules.BindImports` | koschei/effect_contracts_v1.py:212-223 | Base effects are the direct ones plus the summaries of imported functions; a missing summary is an effect of its own. |
| `EffectModules.CheckContracts` | koschei/effect_contracts_v1.py:251-272 | The module's report is exact, and it is rejected if and only if a pure function has an inferred effect. |
| `EffectModules.ModularIsWhole` | koschei/modules.py:252-263 | If the reports of the imported modules are faithful to reachability in the whole program, so is this module's. |
| `EffectModules.CheckGraph` | koschei/modules.py:220-263 | A graph is accepted if and only if no pure function of any module reaches, through local and imported calls, a function with an effect of its own or an unresolved import. |
| `ModuleOrder.InDependencyOrder` | koschei/modules.py:72-87 | For an acyclic graph loaded from its root the traversal lists every module once, after everything it imports. |
| `ModuleOrder.Visit` | koschei/modules.py:76-83 | Each visit appends what is missing below a module and then the module, keeping imports first. |
| `Int64.AddIsExact` | koschei/codegen_go.py:350-369 | Go addition reports overflow exactly when the exact sum is out of range and otherwise returns it. |
| `Int64.SubIsExact` | koschei/codegen_go.py:371-386 | The same for subtraction. |
| `Int64.GuardsStayInRange` | koschei/codegen_go.py:350-386 | The guards of both are themselves computed without wraparound. |
| `Int64.MulIsExact` | koschei/codegen_go.py:388-403 | The test by truncating division of the wrapped product detects every overflow and nothing else. |
| `Int64.QuotientTestIsExact` | koschei/codegen_go.py:395-402 | Without the special cases the test would be right everywhere but at `MIN * -1`. |
| `Int64.SpecialCaseIsNeeded` | koschei/codegen_go.py:395-401 | At `MIN * -1` the quotient test alone accepts a wrapped product. |
| `Int64.NegateIsExact` | koschei/codegen_go.py:337-348 | Negation overflows exactly at the minimum; the same range check as koschei/direct_mir_type_integrity_v1.py:147-154. |
| `OrderedMaps.SetInOrder` | koschei/container_runtime_v1.py:117-146 | The copying loop is assignment to an insertion-ordered map. |
| `OrderedMaps.AssignKeepsOrder` | koschei/container_runtime_v1.py:133-146 | An existing key keeps its position, a new key is appended. |
| `OrderedMaps.AssignLooksUp` | koschei/container_runtime_v1.py:100-115 | Afterwards the key has the new value and every other key its old one. |
| `OrderedMaps.MergeLooksUp` | koschei/ergonomics_daily_collections_v0103.py:142-155 | A merged map answers with the overlay's value, and the base's where the overlay has none. |
| `OrderedMaps.MergeKeepsOrder` | koschei/ergonomics_daily_collections_v0103.py:142-155 | Merging keeps the base's keys in place and appends the new ones in the overlay's order. |
| `OrderedMaps.AddLooksUp` | koschei/ergonomics_map_add_v0113.py:155-187 | After `add` the key has the exact sum, within the 64-bit range, or the delta when it was new; every other key is as before. |
| `GoMaps.PutIsAssign` | koschei/codegen_go.py:795-803 | Writing into key list and table keeps the representation invariant and is assignment to the ordered map. |
| `GoMaps.TableLookup` | koschei/codegen_go.py:776-780 | Table and ordered entries answer every lookup alike. |
| `GoMaps.NewMap` | koschei/codegen_go.py:184-204 | The literal gives the ordered map or the first fault of the interpreter's builder. |
| `GoMaps.BuildIsClean` | koschei/container_runtime_v1.py:38-68 | A map literal has distinct keys and carries no capability. |
| `GoMaps.MapGet` | koschei/codegen_go.py:767-781 | Lookup as in the ordered map, with the same errors. |
| `GoMaps.MapKeys` | koschei/codegen_go.py:806-816 | The keys in insertion order. |
| `GoMaps.MapSet` | koschei/codegen_go.py:783-804 | `set` simulates the ordered map, errors included. |
| `GoMaps.MapMerge` | koschei/ergonomics_daily_collections_v0103.py:186-212 | `merge` simulates the ordered map, errors included. |
| `GoMaps.MapAdd` | koschei/ergonomics_map_add_v0113.py:155-229 | `add` fails exactly when the interpreter's fails and otherwise simulates it; the kinds of error differ exactly when a capability is present and the key or the delta is malformed. |
| `GoMaps.RunGo` | koschei/codegen_go.py:783-816 | Any sequence of set, merge and add gives on the representation what it gives on the ordered map; on maps without capabilities, the same errors too. |
| `GoMaps.RunStaysClean` | koschei/codegen_go.py:783-804 | No sequence of operations puts a capability into a map. |
| `RingBuffer.BoundedQueue.TrySend` | koschei/bounded_queue.py:67-74 | Refused exactly when full; otherwise the value is appended to the FIFO sequence. |
| `RingBuffer.BoundedQueue.TryReceive` | koschei/bounded_queue.py:76-84 | The front value, or nothing when empty; the freed slot is cleared. |
| `RingBuffer.BoundedQueue.SnapshotItems` | koschei/bounded_queue.py:86-93 | The queued values in order. |
| `RingBuffer.BoundedQueue.Length` | koschei/bounded_queue.py:52-55 | The number of queued values. |
| `RingBuffer.BoundedQueue.IsFull` | koschei/bounded_queue.py:57-60 | True exactly when a send would be refused. |
| `RingBuffer.BoundedQueue.IsEmpty` | koschei/bounded_queue.py:62-65 | True exactly when a receive would give nothing. |
| `RingBuffer.NewQueue` | koschei/bounded_queue.py:36-50 | A queue exactly for capacities 1 to 65536. |
| `RingBuffer.Serve` | koschei/bounded_queue.py:36-93 | Any sequence of sends and receives on the ring is a run of the bounded FIFO. |
| `RingBuffer.FirstInFirstOut` | koschei/bounded_queue.py:67-84 | Over any run, what came out followed by what is queued is what went in, and at most `capacity` values are queued. |

## Left out

- AffineSoundness.AcceptedIsSafe: safety is proved under the hypothesis that no `while` condition moves a binding from before it, because without it the promise is false.
- AffinePrecision.ExactOnPlain: covers code without early exits; with them the pass is only conservative (`EarlyExitIsConservative`).
- EffectModules.CheckGraph: takes the effects and calls of each function body as given; the tables that classify call expressions are single lookups.
- AliasRotationStore.ObjectStore.RotateStore: writing and replacing the graph file is one step that may fail, and hashes of files are the file contents.
- Persistence.PersistCaps.Commit: errors of `os.close` outside the cleanup block, other processes changing the directory, and the opening of the parent directory are not modelled.
- Affine pass: `move_locations`, error texts, and the type inference that decides which types are affine.
- data/v1: error offsets and messages, Python values that are no JSON values, and dictionaries with keys that are not strings.
- Parallel map: the shared `ksDepth` call-depth counter, the static validation of workers (a worker is a deterministic function here), and Go's memory model below atomic steps.
- Authorization: HMAC and SHA computation, key checks, receipts and permit bindings (the flag `admitted` of a claim stands for them), SQLite pragmas and schema checks, and the normalisation of strings in constraint sets.
- Alias rotation: the derivation of new aliases, symbolic links, permissions; temporary names are assumed different from the plan's aliases, and object ids distinct.
- Maps: run-time tests that a receiver is a map at all, structs and enum values; float addition is an arbitrary function.
- Bounded queue: the lock; every method is one atomic step.
- Go text emission, module loading and parsing, diagnostics, the command line, manifests and the other subsystems of the repository, which would add many single-branch members.
