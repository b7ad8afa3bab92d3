# Verification of Railbase's core logic

Railbase is a Go backend over PostgreSQL. This project models six of its
components in Dafny and proves what they are for. It sits beside the code:
`dafny verify dfyconfig.toml` checks all of it.

- **Filter compiler** (`Filter*.dfy`, `Sql*.dfy`). A filter string is lexed,
  parsed and compiled to a parameterised SQL condition. The model has the
  source's loops and cursor object, each proved equal to a specification
  function; a printer; a reader for SQL with PostgreSQL's own precedences; and
  two meanings, one for filters and one for SQL, both three-valued. Parsing
  undoes printing; the parser accepts exactly the layouts of the phrases of a
  grammar written apart from it, and blames the first token with which no phrase can
  go on; and the emitted text, read back and evaluated, means what the filter means.
- **Cache** (`Cache*.dfy`, `FilterCache.dfy`). The pointer structure of a shard
  refines a list in recency order. Over whole runs the order is the order of last
  use, a hit is the latest value stored and in time, and a live key is lost only to a
  full shard of keys used since. The concurrent load protocol is a step machine
  that, under any interleaving, is one run of a shard.
- **Audit chains** (`Audit*.dfy`). Canonical JSON, the columns that are hashed
  and how they are stored and read back, the legacy, site and tenant chains under
  any interleaving, and range seals.
- **Approval workflows** (`Authority*.dfy`). Pools of approvers with roles and
  one-hop delegation, votes, and the inbox.
- **Job queue and cron** (`Job*.dfy`, `Cron*.dfy`, `Calendar.dfy`). Row
  transitions with workers that crash or report late, and the crontab matcher.
- **Log buffer** (`Logs.dfy`).

How to read it. A `string` stands for the bytes of the source (for JSON, for its
Unicode characters). Every SQL statement is one atomic step on an in-memory
table. The clock, generated ids, the success of an insert, the hash function, the
text form of a time, and what a handler or loader returns are parameters, so the
theorems hold for all of them. SHA-256 is any function with 32-byte values:
instead of assuming that it is injective, which no such function is, tamper
evidence hands over the two colliding inputs, or the input that hashes to the
zero genesis, that a forger would have needed.

Where the code and its comments differ, the code is modelled. The cases found:

- A relation from a collection to itself: the subquery at
  `internal/filter/sql.go:332` names one table inside and outside, so it is not
  tied to the row (`FilterPreserved.HopMeansRelated`, `SelfHopStrays`).
- `~` is documented as a substring test (`internal/filter/ast.go:171`); it is one
  exactly when the operand has none of `%`, `_` and backslash
  (`FilterLike.LikeIsSubstringExactly`).
- `internal/jobs/store.go:173` says a row that keeps crashing fails once its
  attempts are used up. The sweep never fails a row and neither does a claim: a row
  ends failed exactly when some worker reports a permanent error, a missing handler,
  or an error under an attempt number at or past the maximum, while the row is
  running (`JobFailure.FailsIff`, and over runs `EndsFailedIff`). A row whose workers
  all crash is offered again after every sweep (`JobTight.AllSwept`).
- An audit row whose time is not past the last range end when it is written, such
  as the second of two rows in one microsecond with a seal between them, is never
  sealed (`AuditSeal.TieIsLost`). `AuditSealOnce.SelectedIff` says exactly when the
  next call selects a row, and `EachSealedOnceIff` exactly which runs seal every row
  once.
- The inbox ignores the tenant of role assignments and compares UUID text, and does
  not mind an entry that cannot be read, so it can show a workflow whose vote is
  refused, and miss one whose vote is accepted (`AuthorityInbox.StrangerInInbox`,
  `UnreadableEntryInInbox`, `CapitalsAreMissed`). `NoneShownWronglyIff` and
  `NoneMissedIff` give the exact conditions.
- A gap in a matrix's level numbers, which `internal/api/adminapi/authority.go:432`
  lets pass, completes a workflow early (`AuthorityGap.GapEndsEarly`);
  `AuthorityRuns.EveryLevelPassedIff` says exactly when.
- A cron step so large that adding it to the first value leaves 64 bits stops the
  parser with an index out of range (`CronParser.HugeStepCrashes`; exactly then by
  `CronParser.Mark`).
- `internal/jobs/cron_parser.go:145` expects every valid schedule to find a time.
  `0 0 1 1 1`, midnight of a 1 January that is a Monday, finds none from 1 January
  2018 on (`CronCycle.NewYearMondayIsMissed`), and 29 February alone finds none from
  1 March 2096 on (`CronNext.NeverFires`). `CronCycle.FiresIffGapless` gives the exact
  condition, which one 400-year cycle of the calendar decides; with every weekday
  allowed it comes down to a real date other than 29 February
  (`CronNext.AlwaysFiresIff`).

## Model

| member | source | states |
|---|---|---|
| FilterLexer.Lex | internal/filter/lexer.go:44-163 | The byte loop yields the token list, or the first positioned error, of the lexing function |
| FilterLexer.LexStringQuoted | internal/filter/lexer.go:175-206 | Reads up to the matching quote and undoes its escapes, or finds the string unterminated |
| FilterLexer.LexMagic | internal/filter/lexer.go:212-235 | Takes the longest run of name characters and dots after `@` |
| FilterLexer.LexNumber | internal/filter/lexer.go:238-251 | Digits, and one optional dot with more digits, make an integer or a decimal |
| FilterLexer.LexIdent | internal/filter/lexer.go:255-261 | Takes the longest identifier |
| FilterParser.Parser.ParseOr | internal/filter/parser.go:84-98 | The cursor and tree agree with the left-associative descent for disjunction |
| FilterParser.Parser.ParseAnd | internal/filter/parser.go:101-115 | The same for conjunction, which binds tighter |
| FilterParser.Parser.ParseCompare | internal/filter/parser.go:124-205 | At most one comparison, BETWEEN, IN or IS test; comparisons do not chain |
| FilterParser.Parser.ParsePrimary | internal/filter/parser.go:208-273 | Literals, paths, magic variables and parentheses, with the source's error positions |
| FilterParser.ParseUncached | internal/filter/parser.go:40-54 | Gives the tree of the whole input, or the first error; nothing may follow the expression |
| FilterPrinter.PrintParses | internal/filter/parser.go:84-273 | A minimally parenthesised printing, read at its own level, gives the tree back |
| FilterRoundTrip.LexUndoesRender | internal/filter/lexer.go:44-206 | For every legal spacing, lexing printed lexemes gives exactly those tokens at their positions |
| FilterRoundTrip.ParseUndoesPrint | internal/filter/parser.go:40-273 | For every well-formed tree and every layout, parsing the printed text returns the tree |
| FilterAccepted.AcceptedExactly | internal/filter/parser.go:40-273 | A tree is what some source parses to if and only if it is well formed |
| FilterAccepted.Normalise | internal/filter/parser.go:40-273 | Printing what a source parsed to and parsing again gives the same tree |
| FilterGrammar.TokensParseIff | internal/filter/parser.go:40-273 | A token list parses to a tree if and only if it spells a phrase of the grammar that denotes the tree, and then ends |
| FilterSpelling.LexesExactly | internal/filter/lexer.go:44-263 | A source lexes to given tokens if and only if it is a layout of words that spell them: keywords in any letter case, strings in either quote, any white space |
| FilterSpelling.ParsesExactly | internal/filter/parser.go:40-273 | A source parses to a tree if and only if it writes a phrase of the grammar, redundant parentheses included, that denotes the tree; every other source is refused |
| FilterSpelling.SpellingIsFree | internal/filter/lexer.go:44-263 | Two sources with the same lexemes have the same trees, whatever the letter case of keywords, the quotes and the white space |
| FilterSpelling.ChainRefused | internal/filter/parser.go:50-52 | Whatever follows a comparison or test, other than a connective, is refused where it stands: chains and forgotten connectives |
| FilterErrors.BlamedIsFirst | internal/filter/parser.go:40-273 | The blamed token is the first with which no phrase can go on: what stands before it begins some phrase, and nothing that begins with it included does; the reason fits it; an empty IN list is blamed one token late |
| FilterErrors.UnreadIsFirst | internal/filter/lexer.go:44-163 | The lexer blames the first byte at which no word can stand; what is before it is a layout of words |
| FilterSql.Compile | internal/filter/sql.go:50-56 | The compiler object produces the text, arguments and next parameter of the emission function, or its first error |
| FilterColumns.VariablesBind | internal/filter/sql.go:430-443 | Both names of the auth id bind the id of whoever asks, the collection name their collection |
| FilterColumns.ColumnAllowedIff | internal/filter/sql.go:445-491 | A column may be named if and only if it is a system column the collection has, other than the credentials, or a declared scalar field |
| FilterColumns.HasUuidIff | internal/filter/sql.go:401-425 | The UUID columns are the id, the tenant and parent where there are any, and relations |
| FilterColumns.HopIff | internal/filter/sql.go:301-323 | One hop leads where the first relation field of that name and the resolver lead, or nowhere |
| FilterColumns.DeniedIff | internal/filter/sql.go:340-390 | A comparison is denied if and only if nobody is signed in and it sets the auth id against a UUID column here or one hop away, on either side |
| FilterColumns.AnonymousIsFalse | internal/filter/sql.go:175-185 | Such a comparison is FALSE on every row for every operator, and compiles to `(false)` |
| FilterSql.Compiler.EmitNode | internal/filter/sql.go:75-138 | Appends to text and arguments exactly what the node emits from the current parameter |
| FilterSql.Compiler.EmitComparison | internal/filter/sql.go:140-232 | The null rewrite, the anonymous short-circuit, the pattern operators and the plain ones, in that order |
| FilterSql.Compiler.EmitBetween | internal/filter/sql.go:239-254 | Appends one parenthesised BETWEEN over the three operands |
| FilterSql.Compiler.EmitInList | internal/filter/sql.go:256-272 | Appends one parenthesised IN list |
| FilterSql.Compiler.Bind | internal/filter/sql.go:68-72 | Appends the next placeholder and its argument, and advances the number |
| SqlReadBack.ReadBack | internal/filter/sql.go:75-337 | Reading the spelling of an expression with SQL precedences gives that expression |
| FilterCorrect.CompiledTextReads | internal/filter/sql.go:75-337 | The emitted text reads as the intended SQL tree, and the arguments are the filter's leaves in order |
| FilterCorrect.CompilesExactly | internal/filter/sql.go:75-337 | Compilation succeeds if and only if every column resolves, every operator is known, and null stands only where it may |
| FilterPreserved.CompilePreservesMeaning | internal/filter/sql.go:50-337 | For every row and database, the emitted text read and evaluated with its arguments has the filter's own three-valued value |
| FilterPreserved.HopMeansRelated | internal/filter/sql.go:274-337 | The one-hop subquery denotes the related record's cell everywhere if and only if the related collection is not the current one |
| FilterPreserved.SelfHopStrays | internal/filter/sql.go:332 | A record of the table whose relation to its own collection is null picks up another record of it |
| FilterPreserved.InListIsMember | internal/filter/sql.go:256-272 | IN is true on a true member, unknown when none is true and one is unknown, else false |
| FilterNumbering.PlaceholdersInOrder | internal/filter/sql.go:50-72 | The placeholders read back are start, start + 1 and so on, each once, left to right, one per argument |
| FilterNumbering.EveryColumnAllowed | internal/filter/sql.go:274-491 | Every column the text names is allowed on its collection |
| FilterColumns.NoCredentialNamed | internal/filter/sql.go:461-465 | No compiled text names a credential column, but for a relation field declared under its name |
| FilterNumbering.LiteralsStayOut | internal/filter/sql.go:68-138 | Two filters that differ only in literal values compile to one text |
| FilterLike.LikeIsSubstringExactly | internal/filter/sql.go:217-232 | The pattern test is the case-folding substring test on every text if and only if the operand has no pattern character |
| FilterCache.AstCache.Parse | internal/filter/parser.go:29-34 | Through the cache a lone caller gets what the uncached parser gives; an error is not kept; the empty source gives no filter |
| FilterCache.ParseIsTransparent | internal/filter/cache.go:77-81 | With any number of callers, purges, evictions and any interleaving, every call returns what the uncached parser gives for its source |
| CacheShard.Shard.PushFront | internal/cache/cache.go:389-399 | Prepends an entry to the linked list, which stays doubly linked and without repeats |
| CacheShard.Shard.RemoveNode | internal/cache/cache.go:401-413 | Takes one entry out, leaves the others threaded in order, and clears its pointers |
| CacheShard.Shard.Promote | internal/cache/cache.go:415-421 | Moves an entry to the front and keeps the order of the rest |
| CacheShard.Shard.Get | internal/cache/cache.go:118-141 | Refines a lookup in the recency list: a live slot moves to the front, an expired one goes |
| CacheShard.Shard.SetLocked | internal/cache/cache.go:153-180 | Refines a store: overwrite in front, or evict the last slot of a full shard and insert in front |
| CacheShard.Shard.Delete | internal/cache/cache.go:183-191 | Removes exactly the slot of the key, if there is one |
| CacheShard.Shard.Found | internal/cache/cache.go:374-387 | The map and the list hold the same entries under the same keys, one per key |
| Cache.Cache.constructor | internal/cache/cache.go:87-114 | Defaults, a power of two of shards, at least the count asked for and less than twice it, and max(4, capacity / shards) slots a shard |
| Cache.NextPow2 | internal/cache/cache.go:427-433 | A power of two, at least the argument and less than twice it |
| Cache.IsPow2Exactly | internal/cache/cache.go:425 | The bit test recognises exactly the powers of two |
| Cache.MaskSelects | internal/cache/cache.go:316-326 | Masking with the shard count less one stays in range and can reach every shard |
| Cache.Cache.Get | internal/cache/cache.go:118-141 | Touches the key's own shard and leaves every other one as it was |
| Cache.Cache.Set | internal/cache/cache.go:146-151 | Stores in the key's own shard and leaves every other one as it was |
| Cache.Cache.Purge | internal/cache/cache.go:194-202 | Empties every shard |
| Cache.Cache.Len | internal/cache/cache.go:222-230 | Counts every slot, at most shards times the slots of one |
| CacheRuns.OrderIsLastUse | internal/cache/cache.go:118-202 | In every run: one slot per key, at most the capacity, ordered by last use |
| CacheRuns.HitIsLatest | internal/cache/cache.go:118-202 | In every run: a hit is the latest store, not deleted, purged or expired, and a live key is missed only after the capacity in keys was used since it |
| CacheTrace.HitInTime | internal/cache/cache.go:118-180 | On the trace of operations alone: a hit comes from a store of the key that nothing has ended since, no later than the time to live after it, and a stored key still in time is missed only when outrun |
| CacheRuns.EvictedIff | internal/cache/cache.go:145-180 | A store reports an eviction exactly when a key held before is no longer held: at most one, never the one stored |
| CacheRuns.VictimOutrun | internal/cache/cache.go:161-171 | The evicted slot is the least recently used; the others and the new one were all used since |
| CacheInclusion.TraceIncluded | internal/cache/cache.go:239-290 | On one trace of successful loads without deadline, the list of capacity c is the first c keys of the list of capacity c + 1 |
| CacheInclusion.LargerHitsToo | internal/cache/cache.go:239-290 | Every hit of a shard is a hit of any larger one |
| CacheFlight.RunSound | internal/cache/cache.go:239-290 | In every interleaving: one loader per key at a time, and everyone who joined a flight returns that flight's outcome |
| CacheFlight.CallerLeaves | internal/cache/cache.go:257-290 | A parked caller leaves only by waking, with its flight's outcome; a loader only by landing its own flight |
| CacheFlight.LoadsIff | internal/cache/cache.go:250-270 | A caller starts loading if and only if it finds nothing live under the lock and nobody loads the key; it parks behind whoever does |
| CacheFlight.WaiterIsServed | internal/cache/cache.go:257-263 | A parked caller's flight has landed or its loader is running |
| CacheFlight.LoadsAccountedFor | internal/cache/cache.go:250-290 | Loads begun plus outside stores equal failures plus lost slots plus the load in the air plus the slot held, for every key and run |
| CacheFlight.LoadsOnlyWhenMissing | internal/cache/cache.go:250-290 | In every interleaving without outside stores of a key, nothing live is held for it from the moment a load of it begins until it lands |
| CacheFlight.CachingIsInvisible | internal/cache/cache.go:239-290 | If loaders compute a function of the key, everything held, landed or returned is that function's answer |
| CacheConcurrent.RunIsTrace | internal/cache/cache.go:118-290 | Under any interleaving the slots are those of a shard that did the steps' lookups, stores and removals in order, so every theorem over runs of a shard holds of the concurrent machine |
| CacheConcurrent.HitIsLastStore | internal/cache/cache.go:239-290 | Under any interleaving a caller answered without a load gets the latest value stored for the key, in time and not removed since |
| AuditJson.MarshalSorted | internal/audit/audit.go:646-692 | Whatever order an object's keys come in, at every depth, the output is the one canonical text |
| AuditJson.SortStrings | internal/audit/audit.go:653 | The keys in ascending order, the same keys |
| AuditJson.AscendingIsUnique | internal/audit/audit.go:649-653 | The sorted order depends on the set of keys alone |
| AuditJsonRead.CharReads | internal/audit/audit.go:660-663 | Each escaped character is read back by section 7 of RFC 8259, and never ends the string |
| AuditJsonRead.CanonReadsBack | internal/audit/audit.go:631-692 | Reading the canonical text as JSON gives the value back |
| AuditJsonRead.CanonIsInjective | internal/audit/audit.go:631-692 | Two values have one canonical text if and only if they are equal |
| Ids.UuidTextReads | internal/audit/audit.go:711-720 | Reading the text form of a UUID gives it back |
| AuditRow.ReadsBackWritten | internal/audit/audit.go:698-722 | For every column, what the verifier hashes after NULL folding is what the writer hashed |
| AuditRow.ReadBackIsInjective | internal/audit/audit.go:343-354 | Two cells are hashed alike if and only if they are equal up to NULL folding |
| AuditRow.RowObjectIsInjective | internal/audit/store_hash.go:31-75 | Distinct column names make the hashed object determine every column value |
| AuditChain.ComputeHash | internal/audit/audit.go:615-626 | The hash of the previous hash followed by the canonical text of the row |
| AuditChain.Verify | internal/audit/audit.go:341-387 | Accepts exactly the linked chains; otherwise stops at the first row that does not link, and says whether its link or its hash is wrong |
| AuditChain.AppendKeeps | internal/audit/audit.go:160-237 | A write, stored or failed, keeps the chain linked and the head in memory equal to the last row's hash |
| AuditChain.SameBody | internal/audit/audit.go:631-722 | Two rows hash the same text if and only if they agree in every hashed column |
| AuditChain.TamperEvident | internal/audit/audit.go:341-387 | Two accepted chains with one head agree in length and in every hashed column of every row, or a collision or a preimage of genesis is exhibited |
| AuditSystem.ChainIsTamperEvident | internal/audit/store_verify.go:34-221 | The same for the legacy chain, the site chain and every tenant's chain |
| AuditSystem.MaxSeqCounts | internal/audit/store.go:347-351 | The next tenant sequence number counts the tenant's rows, so ordering by it is insertion order |
| AuditSystem.MaxSeqIsMax | internal/audit/store.go:340-350 | In any table the tenant's greatest sequence number, or 0 |
| AuditSystem.StepAdds | internal/audit/store.go:188-461 | One step adds to a chain what it writes there and changes no other chain |
| AuditSystem.ChainsAreIndependent | internal/audit/store.go:188-461 | In every run each chain is what its own successful writes alone would have made it |
| AuditSystem.ChainsAlwaysVerify | internal/audit/store_verify.go:34-221 | In every run of writes, failed inserts and restarts, all chains are linked |
| AuditContents.AppendAdds | internal/audit/audit.go:160-237 | A successful write adds one row that links to the head, carries the hash of the head and of what was written, and reads back as that; a failed one adds nothing |
| AuditContents.ChainReadsAsWritten | internal/audit/store.go:188-461 | In every run a chain holds one row per successful write of its own, in order, each reading back as it was written |
| AuditContents.QuoteClean | internal/audit/audit.go:660-663 | No string of the canonical text holds a raw control character, angle bracket, ampersand or line separator; a text without such characters is written as it is |
| AuditEvents.LegacyWho | internal/audit/audit.go:160-218 | Column by column: actor, tenant, time and name of a legacy event |
| AuditEvents.LegacyWhat | internal/audit/audit.go:160-218 | Column by column: outcome, payloads, error and origin of a legacy event |
| AuditEvents.SiteWho | internal/audit/store.go:188-274 | Column by column: the actor of an event |
| AuditEvents.SiteWhat | internal/audit/store.go:188-274 | Column by column: outcome, payloads, error and origin of an event, with the defaults |
| AuditEvents.TenantColumns | internal/audit/store.go:279-383 | A tenant's row has the same columns and the tenant |
| AuditEvents.TakenIff | internal/audit/store.go:188-300 | Which events the site log and a tenant's log take, and for which reason the others are refused |
| AuditEvents.ForwardedKeeps | internal/audit/audit.go:252-325 | What a forwarded event keeps, and which kind of actor it names |
| AuditEvents.CopyGoesTo | internal/audit/audit.go:252-292 | The copy goes to the log of the tenant named, else to the site log |
| AuditStore.Audit.Restart | internal/audit/audit.go:136-151 | The heads come from the last rows; tenant heads are forgotten |
| AuditStore.Audit.WriteLegacy | internal/audit/audit.go:160-218 | One write step of the legacy chain |
| AuditStore.Audit.Write | internal/audit/audit.go:160-286 | After its own insert succeeds, and only then, one copy goes to the tenant's or the site chain |
| AuditStore.ForwardingRefusesOnlyTheUnnamed | internal/audit/audit.go:252-325 | The forwarded copy is refused if and only if the event has no name |
| AuditStore.Audit.WriteSite | internal/audit/store.go:188-274 | The refusals in order, the default outcome and error code, and one write step |
| AuditStore.Audit.WriteTenant | internal/audit/store.go:279-383 | The refusals in order, and one write step on the tenant's own chain |
| AuditStore.Audit.TenantChainFor | internal/audit/store.go:426-461 | The head is read from the newest row of the tenant once, and kept |
| AuditStore.Audit.VerifyLegacy | internal/audit/audit.go:341-387 | Accepts all rows the process ever wrote |
| AuditStore.Audit.VerifySite | internal/audit/store_verify.go:34-122 | Accepts all rows the process ever wrote |
| AuditStore.Audit.VerifyTenant | internal/audit/store_verify.go:127-221 | Accepts all of the tenant's rows |
| AuditStore.Audit.VerifyAllTenants | internal/audit/store_verify.go:236-266 | Visits every tenant with a row once; all pass |
| AuditSeal.Sealer.SealUnsealed | internal/audit/seal.go:132-206 | Seals the rows later than the last range end, in log order; nothing when there are none or storing fails |
| AuditSeal.SealsPartitionTheLog | internal/audit/seal.go:132-206 | With strictly increasing times the seals cut the sealed prefix into abutting pieces with the right counts and heads |
| AuditSeal.SealTiles | internal/audit/seal.go:132-206 | A successful call seals everything; one with nothing new changes nothing |
| AuditSeal.CoveredByTime | internal/audit/seal.go:144-154 | A row belongs to a seal's piece if and only if its time falls in the seal's range |
| AuditSealOnce.SelectedIff | internal/audit/seal.go:132-154 | Whatever is written and whatever fails in between, the next call selects a row if and only if its time was past the last range end when it was written |
| AuditSealOnce.EachSealedOnceIff | internal/audit/seal.go:132-206 | A run ending in a successful call has sealed every row exactly once if and only if every row was past the range ends before it and every earlier successful call ended with its latest row |
| AuditSealOnce.CountsAddUp | internal/audit/seal.go:156-178 | In every run the row counts of the seals add up to how often rows were sealed |
| AuditSealOnce.LastEndIsMax | internal/audit/seal.go:137-142 | The range starts from the latest range end, or the epoch |
| AuditSealOnce.NewSealIs | internal/audit/seal.go:185-203 | The start, end, count and head of a new seal |
| AuditSeal.SealedOnceIff | internal/audit/seal.go:132-206 | The next call selects none of the rows just sealed if and only if the last of them is the latest |
| AuditSeal.TieIsLost | internal/audit/seal.go:144-154 | Two rows in one microsecond with a seal between: one of the two is never sealed |
| AuthorityPool.SortUuids | internal/authority/selector.go:294-304 | Sorts in place, keeping every element |
| AuthorityPool.ResolveApprovers | internal/authority/selector.go:119-290 | The ascending list of exactly the users the entries name, holders of a role within the tenant's scope included, or the fault of the first faulty entry |
| AuthorityPool.ResolveApproversWithDelegation | internal/authority/selector.go:188-236 | Also exactly those a member delegates to, one hop, under the filters of tenant, action, amount and time |
| AuthorityGrants.DelegationCounts | internal/authority/selector.go:200-215 | A delegation adds its delegatee if and only if it is active, in its window, of the tenant, for the action and the amount, and its delegator is in the base pool |
| AuthorityGrants.RefusedAddsNobody | internal/authority/selector.go:200-215 | Taking away any other delegation leaves every pool as it is |
| AuthorityGrants.RoleNamesIff | internal/authority/selector.go:251-290 | A role names a user if and only if they have it everywhere or in the workflow's tenant; without a tenant any row will do |
| AuthorityStore.EvalLevelSatisfaction | internal/authority/workflow.go:675-733 | One approval, enough approvals, or one from everyone in a non-empty base pool |
| AuthorityStore.Store.RecordDecision | internal/authority/workflow.go:246-411 | The refusals in order, the vote, the veto, advance or completion; roles and delegations may change between its two queries |
| AuthorityStore.Store.CreateWorkflow | internal/authority/workflow.go:76-150 | Starts at level 1 unless the matrix is empty or the target already has a running workflow |
| AuthorityStore.Store.CancelWorkflow | internal/authority/workflow.go:416-442 | Only a running workflow is cancelled; otherwise missing or terminal |
| AuthorityStore.Store.MarkConsumed | internal/authority/workflow.go:613-626 | Succeeds once, on a completed workflow |
| AuthorityStore.Store.ReapWorkflows | internal/jobs/builtins.go:953-967 | Exactly the overdue running workflows expire |
| AuthorityStore.Store.CreateMatrix | internal/authority/store.go:62-155 | Refuses unsupported approvers and levels the tables reject |
| AuthorityStore.Store.UpdateDraftMatrix | internal/authority/store.go:254-353 | Replaces the levels of a draft and of nothing else |
| AuthorityStore.Store.ApproveMatrix | internal/authority/store.go:360-379 | Only a draft becomes approved |
| AuthorityStore.Store.RevokeMatrix | internal/authority/store.go:386-414 | Only an approved matrix becomes revoked |
| AuthorityStore.Store.DeleteDraftMatrix | internal/authority/store.go:490-508 | Only an unused draft is deleted |
| AuthorityRuns.ApprovalIsSound | internal/authority/workflow.go:246-411 | In every run: levels passed in order by votes that met their mode, cast by distinct members of the pool, no rejection if completed and exactly one, the last, if rejected, levels unchanged |
| AuthorityVotes.LevelsTakePeople | internal/authority/workflow.go:675-733 | In every run each level passed was approved, at that level and by then, by enough different people for its mode: one, the threshold, or the whole non-empty base pool; and while a workflow runs, an any level has no approval and a threshold level too few |
| AuthorityVotes.ConsumedOnce | internal/authority/workflow.go:613-626 | Over every run a workflow is consumed at most once, and is marked so exactly then |
| AuthorityOutcome.AcceptedIff | internal/authority/workflow.go:246-333 | A vote is accepted if and only if the workflow runs on the level named, it can be resolved, and the voter is in its pool and has not voted there |
| AuthorityOutcome.VoteDoes | internal/authority/workflow.go:314-411 | What an accepted vote leaves: the vote, and a rejection, an unchanged level, the next level or completion, each exactly when due |
| AuthorityOutcome.MatrixChangesIff | internal/authority/store.go:254-508 | A matrix is approved, revoked, given levels or deleted exactly by that step in the right status |
| AuthorityOutcome.OpensIff | internal/authority/workflow.go:76-150 | A workflow appears exactly by being opened on a matrix with levels for a free target, at level 1 |
| AuthorityOutcome.StopsIff | internal/authority/workflow.go:416-442 | A running workflow is cancelled exactly when asked and expires exactly when reaped after its time |
| AuthorityOutcome.FaultIsFirst | internal/authority/selector.go:126-160 | The fault reported is that of the first faulty entry |
| AuthorityRuns.EveryLevelPassedIff | internal/authority/workflow.go:380-405 | A completed workflow passed every declared level if and only if the level numbers have no gap |
| AuthorityGap.GapEndsEarly | internal/authority/workflow.go:380-394 | With levels 1 and 3 one approval at level 1 completes the workflow |
| AuthorityRuns.TerminalIsFinal | internal/authority/workflow.go:284-286 | A terminal workflow changes only by being consumed, once |
| AuthorityRuns.EndedDelegationStays | internal/authority/delegations.go:162-190 | A revoked or reaped delegation never grants again |
| AuthorityInbox.InboxIsSitewidePool | internal/authority/workflow.go:457-528 | The query's test is membership in the pool with every role assignment made site-wide |
| AuthorityInbox.InboxCoversPool | internal/authority/workflow.go:457-528 | Whoever may vote now finds the workflow in the inbox |
| AuthorityInbox.NoneShownWronglyIff | internal/authority/workflow.go:457-528 | When every entry can be read, everyone the workflow is shown to may vote if and only if those whom role rows of other tenants bring in have voted or are in the pool anyway; when one cannot, if and only if everyone the query could show it to has voted |
| AuthorityInbox.NoneMissedIff | internal/authority/workflow.go:457-528 | Everyone who may vote is shown the workflow if and only if some entry cannot be read, or those whom references in another form bring in have voted or are found by another entry |
| AuthorityInbox.InboxIsExact | internal/authority/workflow.go:457-528 | With readable entries in the usual form and no strangers in the base pool the inbox holds exactly the workflows whose vote would be accepted |
| AuthorityInbox.StrangerInInbox | internal/authority/workflow.go:489-496 | A role in another tenant shows a workflow whose vote is refused |
| AuthorityInbox.UnreadableEntryInInbox | internal/authority/selector.go:130-137 | One reference that is no UUID: the workflow is shown and every vote on it fails |
| AuthorityInbox.CapitalsAreMissed | internal/authority/workflow.go:487 | A user reference with a capital digit is in the pool but not in the inbox |
| JobStore.Store.Enqueue | internal/jobs/store.go:33-74 | One new pending row without attempts or lock, with the default queue, maximum and time where none is given, and no other row touched; a kind is required |
| JobModel.NewRowIsDue | internal/jobs/store.go:33-74 | A new row can be claimed from its own queue exactly from its time on, with its whole budget before it |
| JobStore.Store.Claim | internal/jobs/store.go:84-123 | Takes a due row of the queue that has waited longest, counts the attempt, sets the lease; nothing if none is due |
| JobStore.Store.Complete | internal/jobs/store.go:127-137 | Completes a running row and no other |
| JobStore.Store.Fail | internal/jobs/store.go:142-165 | Back to pending with backoff below the reported maximum, else failed; running rows only |
| JobStore.Store.Recover | internal/jobs/store.go:178-195 | Frees exactly the running rows whose lease is over, and counts them |
| JobStore.Store.Cancel | internal/jobs/store.go:233-245 | Cancels pending and running rows, and says whether it did |
| JobStore.Store.Reset | internal/jobs/store.go:213-229 | Failed and cancelled rows start again with no attempts |
| JobStore.Store.Process | internal/jobs/runner.go:143-188 | Records the outcome under the claim's own attempt numbers; unknown kinds and permanent errors end the job |
| JobModel.BackoffDoubles | internal/jobs/jobs.go:166-182 | Thirty seconds doubled each attempt, never beyond an hour, never decreasing |
| JobRuns.AttemptBound | internal/jobs/store.go:84-195 | In every run without a reset, attempts never exceed the maximum plus the times the sweep freed the row, late reports or not |
| JobOutcome.SweepCounts | internal/jobs/store.go:178-195 | The sweeps counted for a row are those that found it running after its lease, one each |
| JobRuns.StepPays | internal/jobs/store.go:142-195 | Each return to pending costs a sweep or an attempt number not reported before |
| JobTight.BoundIsReached | internal/jobs/store.go:171-195 | For every maximum and number of sweeps some run reaches the bound with the row still running |
| JobTight.AllSwept | internal/jobs/store.go:171-195 | For any number of crashed claims, beyond any maximum, the sweep offers the row again |
| JobFailure.FailsIff | internal/jobs/store.go:142-165 | A step fails a row if and only if it is a report on it while it is running, of a permanent error, a missing handler, or an error under an attempt number at or past the maximum |
| JobFailure.EndsFailedIff | internal/jobs/store.go:84-229 | Over every run a row ends failed if and only if some such report failed it and no reset came after |
| JobOutcome.CompletesIff | internal/jobs/store.go:127-137 | A step completes a row if and only if it is a report of success on it while it is running; then the lock is gone and nothing else has changed |
| JobOutcome.EndsCompletedIff | internal/jobs/runner.go:143-188 | Over every run a row ends completed if and only if some worker reported success on it while it was running |
| JobOutcome.StartsIff | internal/jobs/store.go:84-123 | A step starts a row if and only if it is a claim of it while it is due; one attempt more, and the lease from now |
| JobOutcome.CancelsIff | internal/jobs/store.go:233-245 | A step cancels a row if and only if it is asked to while the row is pending or running |
| JobOutcome.ReturnsIff | internal/jobs/store.go:142-229 | A row comes back to pending exactly by a sweep after its lease, an error below the maximum, or a reset; only a reset gives attempts back |
| JobLease.LeasedIff | internal/jobs/store.go:84-245 | A step keeps every lease if and only if time stays within the leases of those at work and no cancelled row is reset under its worker |
| JobLease.RunLeasedIff | internal/jobs/store.go:84-245 | All along a run every lease is kept if and only if all its steps are like that |
| JobLease.OneWorkerPerJob | internal/jobs/runner.go:100-188 | In such runs no job has two workers and the sweep frees only rows nobody works on |
| JobLease.CompletedIsFinal | internal/jobs/store.go:127-245 | In any run a completed row never changes again |
| JobLease.ResetLetsTwoIn | internal/jobs/store.go:213-245 | Cancelling and resetting a job under its worker lets a second one in |
| JobLease.OverrunLetsTwoIn | internal/jobs/store.go:135 | A worker that outlives its lease is no longer alone with the job |
| CronParser.Mark | internal/jobs/cron_parser.go:83-122 | Sets exactly the values of the span; an index out of range if and only if the first value plus the step exceeds 64 bits |
| CronParser.ParseField | internal/jobs/cron_parser.go:69-80 | A slot is set if and only if it was or some comma atom contains its value; otherwise the first troubled atom |
| CronParser.ParseCron | internal/jobs/cron_parser.go:40-65 | The schedule compiled from the five words, or the first error; CronAtoms.ExprExactly says what the words mean |
| CronAtoms.AtomExactly | internal/jobs/cron_parser.go:83-122 | A value, range or star with a positive step is accepted if and only if its bounds lie in order within the field's, and stands for every step-th value from its low end to its high end, both included |
| CronAtoms.FieldExactly | internal/jobs/cron_parser.go:69-80 | A comma list is accepted if and only if all its atoms are, and contains what one of them does |
| CronAtoms.FieldsExactly | internal/jobs/cron_parser.go:41 | A text has given words if and only if it is those words, free of white space, with white space between each two |
| CronAtoms.ExprExactly | internal/jobs/cron_parser.go:40-65 | Any layout of five fields of valid atoms is accepted, with exactly the slots its atoms stand for |
| CronAtoms.OfficeHours | internal/jobs/cron_parser.go:40-65 | `0 9-17 * * 1-5` allows the hours 9 to 17 and the days Monday to Friday, no others |
| CronAtoms.RefusedFor | internal/jobs/cron_parser.go:83-117 | Why an atom is refused, the first reason that applies |
| CronAtoms.FieldBlamed | internal/jobs/cron_parser.go:59-63 | The error names the first troubled field |
| CronParser.SomethingIsAllowed | internal/jobs/cron_parser.go:115-121 | A field without error allows at least one value of its range |
| CronParser.HugeStepCrashes | internal/jobs/cron_parser.go:118-120 | One expression with a positive step in 64 bits stops the parser with an index out of range |
| CronNext.Next | internal/jobs/cron_parser.go:132-148 | The least matching minute strictly after the input inside four 366-day years, or nothing if and only if there is none |
| CronNext.AlwaysFiresIff | internal/jobs/cron_parser.go:132-160 | With every weekday allowed a time is always found if and only if some real date other than 29 February is allowed |
| CronNext.NeverFires | internal/jobs/cron_parser.go:138-147 | Whatever the weekdays, without such a date the search from 1 March 2096 finds nothing |
| CronCycle.FiresIffGapless | internal/jobs/cron_parser.go:132-160 | For any weekdays a time is found from every moment if and only if some time of day and some day of the 400-year cycle are allowed, and each allowed day of the cycle is followed by another within the span of the search |
| CronCycle.ParsedAlwaysFiresIff | internal/jobs/cron_parser.go:40-160 | An accepted expression always finds a time exactly then; with `*` as its last word, exactly when it allows a real date other than 29 February |
| CronCycle.NewYearMondayIsMissed | internal/jobs/cron_parser.go:138-147 | `0 0 1 1 1` is accepted and names a date of every year, and the search from 1 January 2018 finds nothing |
| Calendar.DateOfDay | internal/jobs/cron_parser.go:154-160 | The day counted to a real date has that date |
| Calendar.WeekdayOfDate | internal/jobs/cron_parser.go:126-137 | The weekday of every date, by the rule that counts leap days in years starting in March |
| Calendar.DatesRepeat | internal/jobs/cron_parser.go:154-160 | 400 years on the date has the same month and day and falls on the same weekday |
| Logs.Sink.constructor | internal/logs/logs.go:127-154 | Starts empty with the default capacity and batch size |
| Logs.Sink.Enqueue | internal/logs/logs.go:229-247 | A full buffer gives up its oldest record and no other; the flusher is woken once a batch is full |
| Logs.Sink.Swap | internal/logs/logs.go:270-279 | The whole buffer becomes the batch, in order |
| Logs.Sink.Finish | internal/logs/logs.go:281-289 | The batch is written whole or lost whole, and counted |
| Logs.Sink.Conservation | internal/logs/logs.go:229-289 | At every moment accepted equals written plus lost plus dropped plus buffered plus in flight |
| Logs.Sink.RowsInOrder | internal/logs/logs.go:229-289 | Stored rows are an in-order subsequence of the accepted records |

## Left out

- Floats in filters are decimals with a scale; binary64 rounding is not modelled.
- Bytes that are not valid UTF-8 inside filter strings and JSON strings.
- Filter trees that no source parses to, such as a hand-built empty IN list: the meaning and round-trip theorems are about well-formed trees.
- The error PostgreSQL raises when a scalar subquery finds two rows: ids are taken from the first match, and collection and column names are assumed to be plain SQL names that are not keywords.
- FilterPreserved.CompilePreservesMeaning: asks that no one-hop path leads back to the current collection, because there the code does not have the meaning; HopMeansRelated says exactly when.
- The wording of parser and compiler errors: positions and reasons are modelled, message texts are not.
- Cache statistics counters, `Clear`'s reset of them, and the quality of the FNV hash, which is any function.
- CacheFlight.RunSound: models closing a flight together with the locked section before it; between the two only the waiters' wake-up moves.
- A `GetOrLoad` whose loader never returns or panics, and cancellation of its context.
- Redaction of audit payloads, and numbers in them: payloads are redacted values whose numbers are already in canonical text.
- The text form of an audit row's time is a parameter; rows are compared by it.
- AuditStore.Audit.TenantChainFor: the first head load of a tenant is taken to succeed; when it fails, a writer that already holds the chain object goes on from a zero hash.
- A legacy writer without an attached store, several processes writing one chain, archives and dropped partitions.
- Signing of seals and their verification.
- AuditSystem.ChainsAlwaysVerify: an insert that commits and still reports an error is not modelled; the head in memory would stay behind, and the next row would fork the chain.
- AuthorityPool.ResolveApproversWithDelegation: its role and delegation queries see one state of the tables; the code sends them one after the other.
- AuthorityStore.Store.CreateWorkflow: takes the matrix object it is given to have the levels that are stored.
- Forms of UUID text other than the hyphenated one: how references are read is a parameter, and the examples read hexadecimal digits of either case.
- AuthorityRuns.ApprovalIsSound: workflows are opened on matrices that have left draft, as the selector returns them; `CreateWorkflow` itself does not look.
- Matrix selection by amount and currency, matrix versions, escalation hours, notes and snapshots of roles on votes.
- The inbox's limit of 100 rows and its order.
- Error texts of failed jobs, `RunNow`, listing, the worker's polling loop and payloads.
- JobRuns.AttemptBound: runs with `Reset` are left out, since it restarts the budget.
- Cron outside UTC and white space other than ASCII.
- The level filter and attributes of log records, and `Close`.
- Hooks, HTTP, mail, documents, configuration and the admin interface.
