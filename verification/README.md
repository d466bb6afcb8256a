# Verified model of the Cashu Development Kit core

This project models five parts of the Cashu Development Kit in Dafny and proves what they promise:

1. **Amounts** (`Amount.dfy`, `AmountTheorems.dfy`): greedy splitting into keyset denominations,
   targeted splitting, and the split that still covers its amount after its own input fee.
2. **SQL statements** (`SqlParser.dfy`, `SqlRender.dfy`, `SqlMeaning.dfy`, `SqlAcceptance.dfy`,
   `Statement.dfy`, `StatementCache.dfy`): the placeholder parser, the renderer that numbers markers, and the cache
   of parsed and rendered texts that all callers share.
3. **Blind signatures and the signatory** (`PrimeField.dfy`, `BlindSignature.dfy`, `Issuance.dfy`,
   `IssuanceRules.dfy`, `KeysetStore.dfy`, `KeysetIds.dfy`, `KeysetTheorems.dfy`, `BootRules.dfy`,
   `DerivationIndices.dfy`, `SignatoryRuns.dfy`, `Signatory.dfy`, `IndexReuse.dfy`, `KeyLoss.dfy`, `ExampleRuns.dfy`): the
   exchange over a group of prime order, issuance of whole lists of proofs, and the life of keysets
   over boots, crashes, rotations and reloads.
4. **Connection pool** (`Pool.dfy`, `PoolTheorems.dfy`, `PoolObjects.dfy`): any number of clients
   interleaved step by step, with the lock, the late increment of the counter and the drop handlers.
5. **Transaction wrapper** (the same files): begin, commit, rollback and drop over pooled connections.

Code that changes fields or loops is a class or a method with loop invariants, proved against a
specification function; code made of expressions is a function. `dafny verify dfyconfig.toml` checks
everything.

## What the proofs found

Some promises hold only under a condition. The model keeps the code as it is, gives an input that
breaks the promise, and proves the condition.

- Greedy splitting is exact below twice the largest denomination if and only if the keyset starts
  at 1 and never more than doubles (`GreedyExactIffComplete`). Beyond that reach `split` silently
  loses the rest.
- `split_with_fee` can return `Ok` with parts that are worth less than the amount, also for amounts in
  reach: 7 over 1, 2, 4 with a fee of 1 for each proof comes back as 4 and 2 (`FeeSplitCanFallShort`).
  What decides is the total, the accepted amount with its fee: the parts are worth the total, and then
  cover the amount and their own fee, if and only if the total is below twice the largest denomination;
  otherwise they are worth one largest denomination and the remainder of the total, and whether that
  reaches the amount, or covers it, is decided exactly by these two numbers (`FeeSplitWorth`). An
  amount beyond the reach always comes back short (`OutOfReachNeverCovers`).
- The loop of a value target can run for ever. It ends if and only if its first passes, as many as the
  amount, reach the amount, or reach so much that the next addition overflows; then it ends in a panic
  (`TargetedHaltsIff`). For all but the largest targets it ends for every u64 amount above the target
  if and only if the target is above 0 and the smallest denomination is 1 (`TargetedAlwaysHaltsIff`).
  `SplitTargeted` is proved for every call that comes to an end.
- The comment on `SplitTarget::Values` asks that the values equal the amount; the code also accepts
  values that add up to less and splits the rest, and the model follows the code.
- The unchecked `+` in that loop panics exactly when `TargetedPanics` holds, never when amount and
  target fit together in u64 (`TargetedDoesNotPanic`), but for example for u64::MAX with target 2
  (`TargetedCanPanic`).
- Rendering keeps the words of a statement and their order if and only if its text has no `$` followed
  by a digit outside string literals; such a text takes a value meant for another marker.
- A cached text agrees with a fresh rendering exactly when a value is missing or every placeholder
  holds one value (`CachedAgreesIff`). So every text must always use the same names as lists; a
  text first rendered with a scalar keeps that rendering for a list (`WithoutTheRule`).
- A keyset id is a hash of the public keys in order of their amounts, without the amounts, and key i of
  a path does not depend on amount i. So on one path all ascending lists of one length have one id
  (`SameLengthSameId`), and a rotation on the path of a stored keyset can put other amounts behind its
  id. For every unit with a custom path there is a run, for example with a rotation to 1, 2 and then
  one to 1, 4, in which a proof is issued and later refused (`IssuedProofIsLost`); the key of each
  amount is then the key of the new amount in its place (`KeysMove`). A rotation keeps the keys behind
  every id if and only if it fails or the new id is not stored with other amounts
  (`RotateKeepsKeysIff`), a boot if and only if no stored id is chosen last with other amounts
  (`BootKeepsKeysIff`), and two states agree on every proof of a keyset if and only if they have the
  same amounts behind its id (`SameVerdictIff`). Issued proofs stay spendable in every run whose
  lists of equally many amounts are the same (`ProofsStaySpendable`), as are all those of
  `Mint::rotate_keyset` (`StandardIsUniform`); and, whatever the amounts, for every unit on default
  paths that every boot supports (`DefaultPathProofsStaySpendable`).
- A rotation takes an unused index if and only if the keyset of the unit with the highest index is
  active, or none is active and no stored index is above 0 (`RotationFreshIff`). So a unit that is
  booted, rotated, left out of the next boot and rotated again gets index 1 twice
  (`LeftOutIndexReused`, `LeftOutRunExists`). The auth unit, if it is not passed to a boot, starts
  again at index 0, and its next rotation takes index 1 whatever is stored (`AuthStartsAgain`,
  `AuthIndexReused`, `AuthRunExists`).
- Two rotations that both read before either writes end with two keysets that share an index and a
  path, or with one that overwrites the other and its amounts (`UnserialisedRotationsCollide`); the
  runner of the service excludes this (`RunnerNeverReusesIndices`).
- A configured number of amounts that differs from the stored one never takes effect: every boot
  makes another keyset with the old amounts and uses up an index (`BootActivates`).
- The pool can exceed its maximum: with n clients between the read of the counter and its increment it
  holds up to max_size + n - 1 connections, and this is reached for every size and n
  (`PoolSizeBound`, `PoolSizeBoundIsReached`). The read is under the lock and the unlock comes after
  it, so a window that starts at the unlock is too small: with n clients in that one the pool holds up
  to max_size + n, and this is reached too (`UnlockWindowBound`, `UnlockWindowBoundIsReached`).
  The sum read off the fields is one higher still while a connection is being returned, because
  the push comes before the decrement (`RawSizeBound`, `ReturnIsCountedTwice`).
- A creation that fails stays counted in `in_use`, so the drop of the pool ends without waiting if
  and only if no creation has failed (`DropEndsIffNoCreationFailed`).
- A queued connection has an open transaction if and only if the last COMMIT or ROLLBACK on it failed
  (`NoOpenTransactionIsRecycled`, `FailedCommitIsRecycled`).

## Assumptions

- Which characters are alphanumeric is a parameter; only that quotes and colons are not is used. The whitespace that
  `str::trim` removes is written out.
- SHA-256 and the reading of a hash as a point are parameters. secp256k1 is a group of prime order,
  written as the integers modulo a prime.
- The hash in a keyset id determines the list of public keys that is hashed (it is truncated in the
  program); in the index theorems no two derivation paths in use share a child key.
- The index theorems are about one unit with a default path. They ask that no keyset is empty (all
  empty keysets have the same id) and that no custom path of another unit is a default path of this
  one (the two units would share keys and ids).
- The order in which the database lists rows and in which hash maps are iterated is arbitrary: a
  parameter of the specifications and a ghost result of the methods.
- A `u32` or child number out of range is a panic, as in a build with overflow checks. A panic is an
  error of the call; the runs then go on, which covers more runs than the program has.
- Operations on the atomic counter of the pool are sequentially consistent.
- A failed COMMIT or ROLLBACK leaves its transaction open, and a failed BEGIN opens none. One direction
  of `NoOpenTransactionIsRecycled` rests on this.
- SQL comments are read as text. Trimming removes the newline that ends a line comment just before a
  name: "a --n", a newline and ":b" renders as "a --n $1", with the marker inside the comment.

## Model

| member | source | states |
|---|---|---|
| `Amount.TrySumIsTheSum` | crates/cashu/src/amount.rs:222-229 | stopping at the first checked addition that overflows is the same as testing the total, from any start |
| `Amount.SplitBelow` | crates/cashu/src/amount.rs:99-111 | parts are denominations, positive, and add up to at most the amount, for any keyset |
| `Amount.SplitExact` | crates/cashu/src/amount.rs:99-111 | every amount below twice the largest denomination of a complete keyset is split exactly |
| `Amount.SplitSharesPrefix` | crates/cashu/src/amount.rs:99-111 | an amount that agrees with another on its first parts and stays below the next one shares those parts |
| `Amount.SplitTargeted` | crates/cashu/src/amount.rs:114-173 | every call that returns or panics: the sorted plain split, the early unsorted return, the parts or the panic of the first pass at which the loop stops (over a complete keyset in closed form), and the values with their rest or the exact error |
| `Amount.TargetedLoop` | crates/cashu/src/amount.rs:126-149 | the nested loop stops at the first pass that reaches the amount or panics, with exactly its parts; over a complete keyset these are whole copies of the target and the split of what is left, and it panics exactly when an addition overflows |
| `Amount.TargetedPass` | crates/cashu/src/amount.rs:133-148 | one pass of the inner loop is the pass of the specification, and panics exactly when it does |
| `Amount.TargetedPart` | crates/cashu/src/amount.rs:134-145 | one part is added, or the split of what is missing; the sum never passes the amount |
| `Amount.TargetedPartsSum` | crates/cashu/src/amount.rs:114-150 | whatever the target, the targeted parts add up to the amount |
| `Amount.SortSorts` | crates/cashu/src/amount.rs:171-172 | sorting gives an ascending permutation with the same sum |
| `AmountTheorems.GreedyExactIffComplete` | crates/cashu/src/amount.rs:99-111 | splitting is exact below twice the largest denomination if and only if the smallest is 1 and each is at most double the one before |
| `AmountTheorems.SplitExactIffInReach` | crates/cashu/src/amount.rs:99-111 | a complete keyset splits an amount exactly if and only if it is below twice the largest denomination |
| `AmountTheorems.TargetedClosedForm` | crates/cashu/src/amount.rs:114-150 | for a target t in reach the parts are a / t copies of split(t) and split(a mod t), for every a |
| `AmountTheorems.TargetedDoesNotPanic` | crates/cashu/src/amount.rs:134-134 | no addition overflows when amount and target fit together in u64 |
| `AmountTheorems.TargetedCanPanic` | crates/cashu/src/amount.rs:134-134 | u64::MAX with target 2 panics |
| `AmountTheorems.TargetedHaltsIff` | crates/cashu/src/amount.rs:132-149 | for every amount, target and ascending keyset the loop ends if and only if its first passes, as many as the amount, reach the amount, or what they reach overflows with the largest part |
| `AmountTheorems.TargetedAlwaysHaltsIff` | crates/cashu/src/amount.rs:132-149 | the loop ends for every u64 amount above the target if the target is above 0 and the smallest denomination is 1, and, but for the last targets near the limit, only then |
| `AmountTheorems.TargetedCanHaltWithoutOne` | crates/cashu/src/amount.rs:132-149 | amount 4 with target 2 over the keyset 2 ends |
| `AmountTheorems.SplitLength` | crates/cashu/src/amount.rs:99-111 | over powers of two the number of parts is the number of one bits |
| `AmountTheorems.FewestProofs` | crates/cashu/src/amount.rs:386-388 | no list of denominations with the same sum is shorter than the split |
| `AmountTheorems.SplitDescends` | crates/cashu/src/amount.rs:99-111 | the parts of an ascending keyset are strictly descending |
| `AmountTheorems.SplitIsUnique` | crates/cashu/src/amount.rs:99-111 | over powers of two the split is the only strictly descending list of denominations with that sum |
| `AmountTheorems.FeeSplitAccepted` | crates/cashu/src/amount.rs:176-199 | a successful fee split was accepted at the first larger amount that is not retried |
| `AmountTheorems.AttemptInNumbers` | crates/cashu/src/amount.rs:176-199 | one attempt in plain arithmetic: overflow, the accepted parts of the total, or a retry |
| `AmountTheorems.FeeSplitOverflows` | crates/cashu/src/amount.rs:176-199 | a fee split fails only by overflow, at the first amount that is not retried or at u64::MAX |
| `AmountTheorems.FeeSplitBelow` | crates/cashu/src/amount.rs:176-199 | over any complete keyset: below an amount that pays its own fee, and while nothing overflows, the fee split succeeds, covers the amount and its fee, and retries no further |
| `AmountTheorems.FeeSplitSucceedsAndCovers` | crates/cashu/src/amount.rs:176-199 | over 2^0..2^(n-1): for every amount below 2^k and every fee in range the fee split succeeds after at most 2^k - 1 - a retries, and its parts pay the amount and their own fee |
| `AmountTheorems.FeeSplitWorth` | crates/cashu/src/amount.rs:176-199 | for every successful fee split over a complete keyset: worth the total if and only if the total is in reach, covering then, and the exact condition for being worth the amount and for covering it beyond the reach |
| `AmountTheorems.SplitWorth` | crates/cashu/src/amount.rs:99-111 | the parts of an amount at or above the largest denomination are worth that denomination and the remainder, however large the amount |
| `AmountTheorems.FeeSplitCanFallShort` | crates/cashu/src/amount.rs:176-199 | an amount in reach whose fee split is worth less than the amount |
| `AmountTheorems.FeeSplitCanCoverBeyondReach` | crates/cashu/src/amount.rs:176-199 | a total beyond the reach whose parts still cover the amount and their fee |
| `AmountTheorems.OutOfReachNeverCovers` | crates/cashu/src/amount.rs:176-199 | an amount beyond the reach of the keyset always comes back worth less than the amount |
| `AmountTheorems.FeeSplitWithoutFee` | crates/cashu/src/amount.rs:176-199 | without a fee it is the plain split, and covers the amount if and only if that is in reach |
| `SqlParser.SplitSqlParts` | crates/cdk-sql-common/src/stmt.rs:75-143 | the parser with its lookahead accepts the same inputs, with the same parts and errors, as a scanner without lookahead that remembers only which quote is open |
| `SqlParser.SkipLiteral` | crates/cdk-sql-common/src/stmt.rs:84-104 | the loop over a literal ends where the scanner closes it for good, or finds that it never does |
| `SqlParser.TakeName` | crates/cdk-sql-common/src/stmt.rs:114-129 | the longest name after a colon, or the error for an empty one |
| `SqlParser.PrintAfterScan` | crates/cdk-sql-common/src/stmt.rs:75-143 | printing the parts of an accepted input gives back the input |
| `SqlParser.ScanIsCanonical` | crates/cdk-sql-common/src/stmt.rs:75-143 | parsing gives only canonical part lists |
| `SqlParser.ScanAfterPrint` | crates/cdk-sql-common/src/stmt.rs:75-143 | parsing the print of a canonical part list gives back the list |
| `SqlParser.ParsingIsABijection` | crates/cdk-sql-common/src/stmt.rs:75-143 | an input parses to a list if and only if the list is canonical and prints as that input |
| `SqlAcceptance.ParserAccepts` | crates/cdk-sql-common/src/stmt.rs:75-143 | a text is accepted if and only if every literal is closed and a name follows every colon outside literals; a colon without a name is reported before an open literal |
| `SqlAcceptance.NamesAreLongest` | crates/cdk-sql-common/src/stmt.rs:114-129 | a name is the longest run of alphanumeric characters and underscores after its colon |
| `SqlAcceptance.TrimTakesWhiteSpace` | crates/cdk-sql-common/src/stmt.rs:245-245 | trimming takes white space off both ends of a raw part and nothing else |
| `SqlRender.ReadTrim` | crates/cdk-sql-common/src/stmt.rs:225-247 | trimming a raw part changes none of its words and no literal |
| `SqlRender.ReadRendered` | crates/cdk-sql-common/src/stmt.rs:221-248 | the rendered text has the words of the parts with their parameters numbered in order |
| `SqlMeaning.RenderingPreservesMeaning` | crates/cdk-sql-common/src/stmt.rs:221-260 | substituting value i for marker i gives, word by word, the text with each name replaced by its value or list, if and only if the text has no marker of its own; then the markers are 1..m in order for m values |
| `SqlMeaning.BareMarkerChangesMeaning` | crates/cdk-sql-common/src/stmt.rs:221-260 | a text with its own marker whose rendering means something else |
| `Statements.Statement.New` | crates/cdk-sql-common/src/stmt.rs:161-192 | a hit copies the cached entry, a miss caches the parsed parts, a parse error changes nothing |
| `Statements.Statement.Bind` | crates/cdk-sql-common/src/stmt.rs:265-283 | every placeholder of that name holds the value, and every other part is as before |
| `Statements.Statement.BindVec` | crates/cdk-sql-common/src/stmt.rs:290-311 | every placeholder of that name holds the list, and every other part is as before |
| `StatementCache.BindsFill` | crates/cdk-sql-common/src/stmt.rs:265-311 | after any bindings a placeholder holds the last value bound to its own name, or what it had if there is none |
| `StatementCache.LastBindingIsLast` | crates/cdk-sql-common/src/stmt.rs:265-311 | that value is the one of the last binding of the name |
| `Statements.Statement.ToSql` | crates/cdk-sql-common/src/stmt.rs:199-261 | the SQL and values or the first missing name, and the rendering kept in the cache exactly when there is no list and the statement parsed its own text |
| `Statements.CachedValues` | crates/cdk-sql-common/src/stmt.rs:200-219 | the loop over a cached statement collects the values in order, or the first missing name |
| `Statements.RenderLoop` | crates/cdk-sql-common/src/stmt.rs:221-248 | the loop with its running counter renders what the recursive specification renders, and finds whether a list was bound |
| `SqlAcceptance.MissingNameIsFirst` | crates/cdk-sql-common/src/stmt.rs:221-248 | a statement renders if and only if every placeholder has a value; otherwise the first name without one is reported |
| `SqlAcceptance.ToSqlReportsFirstMissing` | crates/cdk-sql-common/src/stmt.rs:199-261 | the same of `to_sql`, with or without a cached text |
| `StatementCache.ShapeAgreesIff` | crates/cdk-sql-common/src/stmt.rs:221-248 | a rendering is the one-marker-per-name text if and only if every placeholder holds one value |
| `StatementCache.CollectMatchesRender` | crates/cdk-sql-common/src/stmt.rs:200-248 | the cached and the uncached path find the same values and the same missing name |
| `StatementCache.CachedAgreesIff` | crates/cdk-sql-common/src/stmt.rs:200-219 | a cached text gives the fresh result if and only if a value is missing or every placeholder holds one value |
| `StatementCache.StepKeepsInv` | crates/cdk-sql-common/src/stmt.rs:161-261 | every atomic step of any caller keeps cache and statements consistent |
| `StatementCache.CacheIsTransparent` | crates/cdk-sql-common/src/stmt.rs:161-261 | in every interleaving that keeps the usage rule every `to_sql` gives what an empty cache gives, and every rejection is the parser's |
| `StatementCache.EveryOutputMeansItsStatement` | crates/cdk-sql-common/src/stmt.rs:161-311 | end to end: whatever other callers do, SQL and values mean the caller's text with each name replaced by the last value the caller bound to it, if and only if that text has no marker of its own |
| `StatementCache.WithoutTheRule` | crates/cdk-sql-common/src/stmt.rs:250-258 | a run that breaks the rule and sends two values for one marker |
| `BlindSignature.SearchPoint` | crates/cashu/src/dhke.rs:43-67 | the search loop computes the specification |
| `BlindSignature.FirstPointIsLeast` | crates/cashu/src/dhke.rs:43-67 | the point of the least counter that has one, or an error if none below 65536 has |
| `BlindSignature.PointOfMessage` | crates/cashu/src/dhke.rs:43-67 | the point of a message is that of the least counter below 2^16 for which the hash of the hash of separator and message, followed by the four bytes of the counter, lowest first, is a point |
| `BlindSignature.SeparatorIsText` | crates/cashu/src/dhke.rs:19-19 | the domain separator is its text, byte by byte |
| `BlindSignature.SignedMessageUnblinds` | crates/cashu/src/dhke.rs:87-169 | a blinded and signed message unblinds to kY whatever the blinding factor, and no point operation meets the identity |
| `BlindSignature.VerifiesExactlyUnderItsKey` | crates/cashu/src/dhke.rs:172-191 | kY verifies under k' if and only if k = k' |
| `BlindSignature.BlindingHidesPerfectly` | crates/cashu/src/dhke.rs:87-94 | a blinded point comes from a secret by exactly one nonzero factor if the secret's point differs from it, and by none if not |
| `Issuance.ConstructProofs` | crates/cashu/src/dhke.rs:117-158 | the loop gives one proof for each promise in order, or the first error, or the length error |
| `IssuanceRules.ProofListIff` | crates/cashu/src/dhke.rs:117-158 | lists of different lengths are refused; otherwise proof i has the amount and keyset of promise i, secret i and the point C - rK, or the first promise without a key or point decides the error |
| `Issuance.BlindSignAllOrNothing` | crates/cdk-signatory/src/db_signatory.rs:155-190 | signing succeeds if and only if each message can be signed, keeps order and length, signs only with active keysets, and otherwise gives the first error |
| `IssuanceRules.BlindSignIff` | crates/cdk-signatory/src/db_signatory.rs:155-190 | messages are signed if and only if each has a key of an active keyset; promise i is k times blinded point i with its amount and keyset; otherwise the first that has none decides the error |
| `IssuanceRules.VerifyProofsIff` | crates/cdk-signatory/src/db_signatory.rs:193-202 | a list of proofs verifies if and only if each names a known keyset and an amount with a key k there, and is k times the point of its secret; otherwise the first that does not decides the error |
| `Issuance.VerifyProofsIffEach` | crates/cdk-signatory/src/db_signatory.rs:193-202 | a list of proofs verifies if and only if each proof does |
| `Issuance.WholeIssuanceIsSound` | crates/cdk-signatory/src/db_signatory.rs:155-202 | once the messages are blinded, signing, unblinding and verification of the whole list succeed, and each proof carries the amount and secret asked for |
| `KeysetStore.HighestIsHighest` | crates/cdk-signatory/src/common.rs:44-52 | the first row after the sort has the highest index of its unit; there is none only if the unit has no rows |
| `KeysetIds.SamePubsIff` | crates/cashu/src/nuts/nut02.rs:194-223 | two rows with one id have the same public keys behind their amounts if and only if they have the same amounts |
| `KeysetIds.SameLengthSameId` | crates/cashu/src/nuts/nut02.rs:201-223 | on one path ascending lists of one length have one id, whatever their amounts |
| `KeysetIds.SameKeysSameId` | crates/cashu/src/nuts/nut02.rs:201-223 | the id is a function of the keys, however their amounts were listed |
| `KeysetIds.KeyOfAmount` | crates/cashu/src/nuts/nut02.rs:560-577 | amount i has the key of child i of the path, unless it is listed again later |
| `SignatoryRuns.ProofIsForItsAmount` | crates/cdk-signatory/src/db_signatory.rs:193-202 | if the children differ, a proof that verifies for one amount of a keyset is refused for every other amount |
| `KeysetTheorems.RotateKeepsKeysIff` | crates/cdk-signatory/src/db_signatory.rs:221-262 | a rotation keeps the keys behind every id if and only if it fails or the new id is not stored with other amounts |
| `KeysetTheorems.BootKeepsKeysIff` | crates/cdk-signatory/src/common.rs:15-120 | a boot that succeeds keeps them if and only if no stored id is chosen last with other amounts |
| `KeysetTheorems.BootKeepsKeys` | crates/cdk-signatory/src/common.rs:15-120 | if lists of equally many amounts are the same, a boot keeps them whatever its units, orders and failures, and between its transactions |
| `KeysetTheorems.RotateKeepsKeys` | crates/cdk-signatory/src/db_signatory.rs:221-262 | so does a rotation |
| `KeysetTheorems.StandardIsUniform` | crates/cdk/src/mint/keysets/mod.rs:74-86 | the lists 2^0 .. 2^(n-1) that the mint asks for keep that rule |
| `KeysetIds.SamePubsSameKeys` | crates/cashu/src/nuts/nut02.rs:552-590 | rows with the same public keys generate the same secret keys |
| `KeysetTheorems.BootOneActive` | crates/cdk-sql-common/src/mint/mod.rs:424-437 | a boot leaves at most one active keyset of each unit |
| `KeysetTheorems.RotateOneActive` | crates/cdk-sql-common/src/mint/mod.rs:424-437 | so does a rotation |
| `KeysetTheorems.MemoryAgreesWithStore` | crates/cdk-signatory/src/db_signatory.rs:114-133 | after a reload memory holds exactly the stored ids with their flags and keys, and the active map names exactly the active keysets |
| `DerivationIndices.HalfwayGrows` | crates/cdk-signatory/src/common.rs:36-117 | between the two transactions of a boot that supports the unit no index is reused and the highest is active |
| `DerivationIndices.BootGrows` | crates/cdk-signatory/src/common.rs:44-113 | a boot that supports the unit gives new keysets higher indices, changes no old one, and leaves the highest active |
| `DerivationIndices.BootActivates` | crates/cdk-signatory/src/common.rs:63-112 | for a unit with stored keysets: the configured fee, always the stored amounts; the same index if and only if fee and number of amounts match, otherwise the next one |
| `DerivationIndices.BootActivatesIffSupported` | crates/cdk-signatory/src/common.rs:63-63 | a unit with stored keysets has an active one after a boot if and only if the boot supports it |
| `DerivationIndices.RotateGrows` | crates/cdk-signatory/src/db_signatory.rs:221-262 | a rotation gives its unit a higher index and leaves every other unit alone |
| `DerivationIndices.RotationTakesNextIndex` | crates/cdk-signatory/src/db_signatory.rs:222-235 | the new index is the highest one plus one, or 1 for a unit without keysets |
| `DerivationIndices.RotationFreshIff` | crates/cdk-signatory/src/db_signatory.rs:222-235 | the new index is above all others if and only if the highest keyset is active, or none is active and every index is 0 |
| `DerivationIndices.AuthStartsAgain` | crates/cdk-signatory/src/db_signatory.rs:56-60 | a boot without the auth unit activates an auth keyset with index 0, whatever is stored |
| `SignatoryRuns.MemoryAlwaysAgrees` | crates/cdk-signatory/src/db_signatory.rs:37-133 | in every state of every run the memory of a live signatory agrees with the store and each unit has at most one active keyset |
| `SignatoryRuns.KeysNeverChange` | crates/cdk-signatory/src/db_signatory.rs:37-262 | in every run whose lists of equally many amounts are the same, no keyset disappears or changes its keys between any two states |
| `SignatoryRuns.ProofsStaySpendable` | crates/cdk-signatory/src/db_signatory.rs:114-202 | in those runs a proof of a known keyset is verified with the same result after any later boots, crashes and rotations, though an inactive keyset signs nothing more |
| `SignatoryRuns.DefaultPathProofsStaySpendable` | crates/cdk-signatory/src/db_signatory.rs:114-202 | the same in every run, whatever amounts are asked for, for a unit on default paths that every boot supports |
| `SignatoryRuns.IssuedThenSpent` | crates/cdk-signatory/src/db_signatory.rs:155-202 | in the runs of the rule, what any live state issues every later live state accepts |
| `KeyLoss.RotationOverwrites` | crates/cdk-signatory/src/db_signatory.rs:236-256 | a rotation on the path of a stored keyset with equally many amounts overwrites it, and keeps its keys if and only if the amounts are the same |
| `KeyLoss.KeysMove` | crates/cashu/src/nuts/nut02.rs:560-577 | amount k of both lists has the key of child k |
| `KeyLoss.SameVerdictIff` | crates/cdk-signatory/src/db_signatory.rs:193-202 | two live states verify every proof of a keyset alike if and only if they have the same amounts behind its id |
| `ExampleRuns.IssuedProofIsLost` | crates/cdk-signatory/src/db_signatory.rs:221-262 | for every custom path and any two ascending lists of one length a run in which a proof is issued and, after the second rotation, refused |
| `SignatoryRuns.IndicesNeverReused` | crates/cdk-signatory/src/embedded.rs:60-92 | from the empty store, for a unit that every boot supports: in every run each new keyset has an index above all earlier ones and an active keyset has the highest |
| `SignatoryRuns.RunnerNeverReusesIndices` | crates/cdk-signatory/src/embedded.rs:60-92 | whatever is asked of the runner, a rotation is answered with an index above every one its unit had at any earlier request |
| `IndexReuse.UnserialisedRotationsCollide` | crates/cdk-signatory/src/db_signatory.rs:221-262 | two rotations that both read before either writes: two new keysets with one index and path, so no growth, or, exactly if their public keys in order of amount are the same (for ascending lists: exactly if they are equally long), one overwritten with the amounts of the other |
| `IndexReuse.UninterruptedIsRotate` | crates/cdk-signatory/src/db_signatory.rs:221-262 | a read and a write without interruption are the rotation of the model |
| `IndexReuse.LeftOutIndexReused` | crates/cdk-signatory/src/common.rs:36-113 | every run of a boot, a rotation, a boot without the unit and a rotation ends with index 1 and its path used twice, for two keysets or, under the same condition, for one with the amounts of the second |
| `ExampleRuns.LeftOutRunExists` | crates/cdk-signatory/src/common.rs:36-113 | there is such a run for every unit on default paths and any amounts |
| `IndexReuse.AuthIndexReused` | crates/cdk-signatory/src/db_signatory.rs:56-60 | after a boot without the auth unit its rotation takes index 1, whatever is stored |
| `ExampleRuns.AuthRunExists` | crates/cdk-signatory/src/db_signatory.rs:56-60 | a run of boots that do not name the auth unit in which two of its rotations take index 1 |
| `BootRules.DefaultPaths` | crates/cashu/src/nuts/nut00/mod.rs:581-590 | each unit has its own branch of default paths, and custom units have none |
| `BootRules.NewInfoIff` | crates/cdk-signatory/src/common.rs:125-169 | a keyset is made with the unit, index, amounts, fee and path that were asked for; it fails for a unit without a path, and panics for an index or a number of amounts that is too large |
| `BootRules.ActivateRows` | crates/cdk-sql-common/src/mint/mod.rs:384-437 | the keyset is stored as active, the other keysets of its unit become inactive, nothing else changes |
| `BootRules.RotationIndexIs` | crates/cdk-signatory/src/db_signatory.rs:222-235 | the index after that of the active keyset, 2 if that has none, 1 if no keyset is active |
| `BootRules.RotationCreates` | crates/cdk-signatory/src/db_signatory.rs:221-262 | a rotation leaves one active keyset of the unit, new, with the index, amounts, fee and path; all other rows keep everything but the flag; a failure changes nothing |
| `BootRules.SupportedUnits` | crates/cdk-signatory/src/db_signatory.rs:56-56 | the units of a boot are those passed in, with the auth unit added as one amount without a fee |
| `BootRules.BootCreates` | crates/cdk-signatory/src/db_signatory.rs:57-91 | a supported unit without stored keysets has exactly one active keyset after a boot, with index 0, the configured fee, the amounts 2^0 .. 2^(n-1) and its path, if no other unit gets its id |
| `BootRules.BootCreatesOnDefaultPath` | crates/cdk-signatory/src/db_signatory.rs:57-91 | the same without that condition for a unit on default paths |
| `BootRules.BootContinues` | crates/cdk-signatory/src/common.rs:44-113 | a supported unit with stored keysets has exactly one active keyset after a boot: the highest one, if it is as configured, or a new one with the next index, the configured fee and the same amounts |
| `BootRules.BootSucceedsIff` | crates/cdk-signatory/src/db_signatory.rs:37-105 | a boot succeeds if and only if every stored supported unit is as configured or has a path for the next index, and every other supported unit has a path and at most 64 amounts |
| `BootRules.FailedBootLeaves` | crates/cdk-signatory/src/db_signatory.rs:45-91 | a failed boot leaves the store before it, or that after its first transaction |
| `Signatory.DbSignatory.New` | crates/cdk-signatory/src/db_signatory.rs:37-105 | the store is that of the two phases of a boot, also after a failure, and memory agrees with it after success |
| `Signatory.DbSignatory.ReloadKeys` | crates/cdk-signatory/src/db_signatory.rs:114-133 | memory is rebuilt to agree with the store |
| `Signatory.DbSignatory.RotateKeyset` | crates/cdk-signatory/src/db_signatory.rs:221-262 | the store is rotated, memory agrees with it, and the answer is the loaded keyset; an error changes nothing |
| `Signatory.RunPhase` | crates/cdk-signatory/src/db_signatory.rs:57-91 | the choices of a phase are all committed, or none |
| `Signatory.FillMaps` | crates/cdk-signatory/src/db_signatory.rs:120-130 | the loop over the rows fills both maps as specified |
| `Signatory.Runner` | crates/cdk-signatory/src/embedded.rs:60-92 | requests are answered in order, each on exactly the store and memory that the one before it left |
| `Pool.StepInv` | crates/cdk-sql-common/src/pool.rs:103-242 | every step of any client keeps mutual exclusion, the counter equation, ownership of connections and of transactions |
| `PoolTheorems.ConnectionsAreExclusive` | crates/cdk-sql-common/src/pool.rs:187-242 | in every run no connection is in two hands, or in a hand and in the queue |
| `PoolTheorems.AccountingIsConserved` | crates/cdk-sql-common/src/pool.rs:103-242 | `in_use` never underflows and is the number of handles and of creations counted but not returned |
| `PoolTheorems.StaleIsNeverHandedOut` | crates/cdk-sql-common/src/pool.rs:194-207 | a connection that goes stale in the queue is never handed out again |
| `PoolTheorems.WokenTakesConnection` | crates/cdk-sql-common/src/pool.rs:193-238 | whenever a client waits, the lock is free and the last queued connection is usable, the client can wake, pop, unlock and be counted, and holds it |
| `PoolTheorems.WokenWithoutConnection` | crates/cdk-sql-common/src/pool.rs:193-238 | with nothing usable it goes on to create a connection if there is room, and otherwise waits again |
| `PoolObjects.DropPool` | crates/cdk-sql-common/src/pool.rs:249-268 | the queue is emptied at first and after every wake-up, every queued connection is dropped once, and the loop ends at the first round with nothing in use, or waits after the last wake-up |
| `PoolTheorems.DropEndsIffNoCreationFailed` | crates/cdk-sql-common/src/pool.rs:249-268 | with no client left nothing is in use if and only if no creation has failed |
| `PoolTheorems.NoOpenTransactionIsRecycled` | crates/cdk-sql-common/src/database.rs:61-111 | in every run a queued connection has an open transaction if and only if the last COMMIT or ROLLBACK on it failed |
| `PoolTheorems.FailedIsLastFinish` | crates/cdk-sql-common/src/database.rs:74-111 | the failure mark of a connection is what the history of the run says |
| `PoolTheorems.FailedCommitIsRecycled` | crates/cdk-sql-common/src/database.rs:74-83 | from every state of the invariant a failed COMMIT or ROLLBACK puts an open transaction into the queue |
| `PoolTheorems.PoolSizeBound` | crates/cdk-sql-common/src/pool.rs:187-242 | with at most n clients between the read of the counter (the unlock, if they reuse a connection) and the increment, queued, used and about-to-be-used connections never exceed max_size + n - 1, whenever connections go stale |
| `PoolTheorems.RawSizeBound` | crates/cdk-sql-common/src/pool.rs:103-126 | the same for the sum of the fields whenever the lock is free, and one more at most while a connection is being returned |
| `PoolTheorems.ReturnIsCountedTwice` | crates/cdk-sql-common/src/pool.rs:108-111 | between push and decrement a returned connection is counted twice |
| `PoolTheorems.LiveConnectionsBound` | crates/cdk-sql-common/src/pool.rs:187-242 | so the connections that exist never exceed it, and callers served one at a time never exceed max_size |
| `PoolTheorems.PoolSizeBoundIsReached` | crates/cdk-sql-common/src/pool.rs:197-211 | for every size and every n some run ends with max_size + n - 1 existing connections |
| `PoolTheorems.UnlockWindowBound` | crates/cdk-sql-common/src/pool.rs:209-211 | with at most n clients between the unlock and the increment the bound is max_size + n |
| `PoolTheorems.UnlockWindowBoundIsReached` | crates/cdk-sql-common/src/pool.rs:209-211 | and for every size and every n some run ends with that many existing connections |
| `PoolObjects.ConnectionPool.GetTimeout` | crates/cdk-sql-common/src/pool.rs:187-242 | the loop takes the last connection that is not stale, or makes a new one while there is room, or gives up after a round for the first try and one for each wake-up, each of which found the queue empty or its last connection stale; every change is a step of the model |
| `PoolObjects.ConnectionPool.ReturnHandle` | crates/cdk-sql-common/src/pool.rs:107-126 | the connection is queued and no longer counted, by steps of the model |
| `PoolObjects.ConnectionWithTransaction.New` | crates/cdk-sql-common/src/database.rs:67-70 | the wrapper holds the connection with a transaction, or the connection is back in the queue as it was |
| `PoolObjects.ConnectionWithTransaction.Finish` | crates/cdk-sql-common/src/database.rs:74-96 | the connection is taken out once and returned, with its transaction ended exactly if the statement succeeds; a second call finds none |
| `PoolObjects.ConnectionWithTransaction.Drop` | crates/cdk-sql-common/src/database.rs:99-111 | an unfinished transaction is rolled back and its connection returned; a finished wrapper does nothing |
| `PoolObjects.LeadsInv` | crates/cdk-sql-common/src/pool.rs:103-242 | whatever the calls on the objects do, the invariants of every interleaving hold |

## Left out

- Pool and wrapper under interleaving are a state machine over values; the objects of `PoolObjects.dfy` model a call that nobody interrupts, so sharing of one object between running calls is seen only in the state machine.
- Timeouts, fairness of the condition variable, mutex poisoning and metrics of the pool: waiting is a step that may end or fail at any time.
- The forwarding of statements by the wrapper, and cancellation of its futures: easy, or outside the repository.
- DLEQ proofs, SHA-256, point encoding, BIP32 and the two formats of a keyset id: foreign cryptography; only determinism, injectivity and group laws are used.
- The clock, expiry dates and `max_order` of a keyset row: stored and never read by the modelled code.
- Case folding of custom unit names, and database errors other than a failed transaction: I/O and library code.
- FeeSplitSucceedsAndCovers: stated for the fee range in which no step overflows; outside it the split may fail with the overflow error, or succeed without covering the amount, and `FeeSplitWorth` says exactly when.
- TargetedAlwaysHaltsIff: the only-if half is for targets with t + 2 * Sum(split(t)) below u64::MAX; nearer to the limit some amounts end in the panic instead, and `TargetedHaltsIff` decides each amount.
- Unit conversion, formatting and parsing of amounts, value conversions of SQL columns, quotes and their state tables: easy members.
- Lightning backends, HTTP routers, configuration, command line, bindings, metrics, web page, migrations and drivers: plumbing over network and foreign engines.
