# Kalita in Dafny

Kalita executes a compiled definition over an append-only journal. Every mutation appends events and, by
separate hand-written code, updates an in-memory projection; a restart rebuilds the projection by folding the
journal. This project models that machine and proves what it promises:

- the hash-chained journal, its checkpoints, and the reference store (`EventStore`, `Checkpoints`);
- the engine, twice: as exact step functions on values (`Steps`, with `Records`, `Permissions`, `Serial`), and as a
  class with mutable fields, loops and a store it appends to (`Engine`), each method proved to move fields and
  journal exactly as its step function says (`Restart` runs a node and starts a second one over its journal);
- whole-run safety over any run of calls: replay equals live (`Replay`), human approval (`Approvals`), declared
  edges (`Edges`), task leases (`Leases`), integrity of stored data (`Integrity`), serial numbers (`Numbering`),
  definition history (`Definitions`), periodic rules (`Periodic`). These go through one relation, `Protocol.Legal`,
  which says when an entry may follow a journal; `Conformance` proves that every operation commits runs of legal
  entries;
- what an entry of a journal means, read off rules, types and transitions and not off the checks that let it in: who
  was entitled to it (`Rights`, `Authority`), what it rests on (`Grounds`), what values it may hold (`StoredTypes`),
  which links hold (`Links`), what progress counts (`Progress`), what was signed (`Signatures`);
- three hand-written languages: conditions (`Conditions`, `Spelling`, `ConditionMeaning`, `Comparisons`), computed
  fields (`Arithmetic`, `ArithmeticMeaning`, `Computed`, `Rollups`, `ComputedMeaning`), and the definition language's
  field and transition lines (`DslLexer`, `DslParser`, `DslLengths`, `DslRoundTrip`, `DslWords`);
- the permission index and the queries it narrows (`Index`, `Scope`, `QuotedTerms`, `Queries`), dashboards
  (`Dashboard`), business time (`Calendar`) and the actor directory (`Registry`).

A run is *admissible* (`Conformance.Admissible`) when keys are used as the journal expects: Update and Act pass no
key or a new one, Create repeats only a key whose record exists, a proposal carries sources, and the prototype
model swap is not used. Where a promise fails outside such use, a lemma says exactly when; `Gates` holds
runs in which it does.

What the code does that its comments do not promise, each stated by lemmas of the table:

- a repeated key on Update and on Act moves the live projection away from the journal;
- an auto transition ignores `requires approval`;
- the role a transition names in `requires approval` is recorded and never compared: any role that may approve the
  action grants;
- finishing a task looks at the actor's id alone, so one id under two roles finishes under a foreign one;
- a periodic rule's key names its file and line, so a rule that moves to another's line is passed over that day;
- a transition checks no uniqueness, so a unique state field and a unique tuple that contains one may be broken;
- array[enum] options may shrink although the additive check passes;
- conditions lose the blanks next to dots inside quoted literals, so `name = "J. Smith"` does not find J. Smith;
- the permission index answers with the complement under `not`, and loses a row whose scope field is missing when
  the actor's value is the field's own name, or whose clause only quotes a term;
- serial widths above 1,000,000 and a year inside a width break the number's round trip, and the same number is
  handed out again;
- a default or computed text whose brackets do not close, or a format that is a single bracket, swallows the clauses
  after it, and a modifier keyword outside brackets ends the text; a clause keyword ends a transition's guard;
- a named action called `auto` is read as an automatic transition;
- business time stops counting after 4000 dates and loses split minutes.

## Model

| member | source | states |
|---|---|---|
| EventStore.VerifyChain | internal/eventstore/chain.go:72-93 | the walk accepts exactly the journals whose every link holds, and otherwise names the first event that breaks one |
| EventStore.TamperEvidence | internal/eventstore/chain.go:45-93 | two verified journals with one equal hash agree on every hashed field of all events up to it, or exhibit a digest collision |
| EventStore.AppendKeepsChain | internal/eventstore/build.go:11-37 | an event built on the head extends a verified chain |
| EventStore.AppendKeepsIndex | internal/eventstore/memstore.go:53-81 | the key index still lists, for every key, the one event stored under it |
| EventStore.MemStore.Append | internal/eventstore/memstore.go:53-81 | an event without an actor is refused; a repeated key changes nothing and answers with the stored event; otherwise one built event is appended and the chain stays valid |
| EventStore.MemStore.Since | internal/eventstore/memstore.go:103-112 | exactly the events with a greater number, in order |
| EventStore.MemStore.ByIdemKey | internal/eventstore/memstore.go:93-101 | finds an event exactly when the key is in the journal, and it is that event |
| EventStore.MemStore.Head | internal/eventstore/memstore.go:115-124 | number and hash of the last event |
| Values.SortedIdsSorted | internal/engine/engine.go:389-397 | records are visited in the lexicographic order of their ids |
| Values.LexLeIs | internal/engine/engine.go:389-397 | the first difference decides the order; without one the shorter id comes first |
| Checkpoints.BigEndianInjective | internal/eventstore/checkpoint.go:25-31 | eight bytes determine the sequence number |
| Checkpoints.SealMessageInjective | internal/eventstore/checkpoint.go:25-31 | a signed message names one sequence number and one hash |
| Checkpoints.Seal | internal/eventstore/checkpoint.go:37-56 | appends a checkpoint of the current head, and nothing on an empty journal |
| Checkpoints.VerifyCheckpoints | internal/eventstore/checkpoint.go:61-94 | accepts exactly the journals that hold a checkpoint and whose every checkpoint verifies |
| Checkpoints.CheckpointPinsPrefix | internal/eventstore/checkpoint.go:61-94 | a verified checkpoint of one journal inside another pins the entire prefix, or a collision is exhibited |
| Checkpoints.AppendKeepsCheckpoints | internal/eventstore/checkpoint.go:37-94 | appending keeps every checkpoint valid |
| Projection.FoldAppend | internal/engine/engine.go:116-123 | replaying one event more is applying it to what was replayed |
| Projection.FoldSplit | internal/engine/engine.go:116-246 | replay may stop and go on anywhere |
| Projection.Rebuild | internal/engine/engine.go:92-120 | the restart loop computes the fold of the whole journal from the genesis model |
| Engine.Engine.constructor | internal/engine/engine.go:92-120 | a new engine's fields are the fold of the journal it is given |
| Engine.Engine.ApplyEvent | internal/engine/engine.go:123-246 | updating the fields in place is the fold step, kind by kind |
| Engine.Engine.ApplyTransition | internal/engine/workflow.go:248-266 | journal, state field and state-entry time after a transition; on a repeated key the record still moves |
| Engine.Engine.FirstAuto | internal/engine/workflow.go:283-298 | the loop finds the first enabled auto transition |
| Engine.Engine.RunAutoTransitions | internal/engine/workflow.go:272-306 | at most ten hops, then the work the settled state calls for |
| Engine.Engine.CreateTask | internal/engine/tasks.go:68-97 | one task per key: a repeated key neither journals nor projects a second one |
| Engine.Engine.EnsureWorkflowTasks | internal/engine/tasks.go:270-290 | queues exactly the assignees' tasks of the current state, once per state entry |
| Engine.Engine.FireActions | internal/engine/automation.go:89-116 | a rule's actions become tasks under their own keys |
| Engine.Engine.RunEventTriggers | internal/engine/automation.go:70-86 | fires exactly the enabled rules of the record's entity, each seeing what the earlier ones left |
| Engine.Engine.FillSerials | internal/engine/serial.go:22-53 | unset serial fields take the next number, set ones are kept |
| Engine.Engine.FillDefaults | internal/engine/validate.go:40-60 | absent fields take their defaults in declaration order |
| Engine.Engine.Create | internal/engine/records.go:19-107 | whole new state and error of a creation, retries included |
| Engine.Engine.Update | internal/engine/records.go:124-194 | whole new state and error of an update |
| Engine.Engine.Act | internal/engine/workflow.go:72-146 | whole new state and error of an action: moved, parked for approval, or refused |
| Engine.Engine.Decide | internal/engine/workflow.go:151-232 | whole new state and error of a decision, the approved move included |
| Engine.Engine.ExpireIfDue | internal/engine/tasks.go:239-250 | returns a task to the pool exactly when its lease is over |
| Engine.Engine.TakeTask | internal/engine/tasks.go:152-180 | whole new state and error of taking a task |
| Engine.Engine.CountActorEvents | internal/engine/tasks.go:253-266 | counts the actor's record events in the whole journal |
| Engine.Engine.ReportProgress | internal/engine/tasks.go:185-201 | whole new state and error of a progress report with its fact count |
| Engine.Engine.FinishTask | internal/engine/tasks.go:213-236 | whole new state and error of completing or failing a task |
| Engine.Engine.Tick | internal/engine/automation.go:21-66 | whole new state after rules and lease sweep |
| Engine.Engine.ProposeChange | internal/engine/proposals.go:59-104 | whole new state and error of a proposal |
| Engine.Engine.DecideProposal | internal/engine/proposals.go:109-185 | whole new state and error of a definition decision and the swap |
| Engine.Engine.ApplyAdditive | internal/engine/engine.go:259-279 | whole new state and error of the prototype swap |
| Engine.Engine.Link | internal/engine/links.go:31-72 | whole new state and error of linking, in canonical orientation |
| Engine.Engine.Unlink | internal/engine/links.go:75-106 | whole new state and error of unlinking |
| Restart.Serve | internal/engine/engine.go:92-279 | any run of calls on the live engine is the run of the step functions |
| Restart.ServeAndRestart | internal/engine/engine.go:92-120 | a node started over the journal of any admissible run has the live node's projection, and the journal's chain verifies |
| Authority.EveryEntryIsAuthorised | internal/engine/permissions.go:31-163 | over every admissible run, read off the rules in force: no creation, update or link touches a field that a deny item forbids or no item permits; no named move, request, grant or rejection is by a role that a deny item bars or no item licenses; definition changes are decided by a human approver |
| Rights.CanIsEntitled | internal/engine/permissions.go:31-129 | a right over a field is an item of the role that permits it and none that forbids it, conditions included; core entities are read by all and written by the approver |
| Rights.CanNamedIsLicensed | internal/engine/workflow.go:319-349 | a role may act or approve exactly when an item lists the action and no deny item does |
| Rights.OneMoreRule | internal/engine/workflow.go:319-349 | one more deny rule takes exactly the actions it lists, one more rule of the verb gives exactly those it lists and nobody bars |
| Grounds.EveryEntryIsGrounded | internal/engine/workflow.go:72-316 | over every admissible run every entry has a basis; every move and request is a declared transition out of the record's state whose guard holds, for the actor, for nobody in an auto transition, or a grant's; every task is called for by a rule on its day, by a rule whose state the record has been in since it was placed there for the days, hours or minutes written, by a write that passes the rule's condition, or by an assignee's transition |
| Grounds.LongStayIsQueued | internal/engine/automation.go:44-60 | a record that has been in a rule's state for as long as written gets at the next tick exactly one task per action for that stay, the one the rule asks for unless the key was used before |
| Grounds.ScheduledIsQueued | internal/engine/automation.go:28-43 | a rule for the day queues at every tick, once a day, its tasks for each record that passes |
| Grounds.SettlesWithinTen | internal/engine/workflow.go:272-306 | auto transitions move a record at most ten times in a row |
| Grounds.AutoRunStops | internal/engine/workflow.go:272-306 | after fewer hops than allowed, no auto transition that may be taken is left |
| StoredTypes.EveryWriteBelongs | internal/engine/validate.go:16-163 | over every admissible run a creation stores what was given, each value null or of its declared type, and required fields filled; an update journals only real changes, from the stored value to one of the field's type |
| StoredTypes.StoredValuesBelong | internal/engine/validate.go:73-255 | over every admissible run under one definition, each stored value is of its field's type, its default, or the state a declared transition leads to |
| StoredTypes.TypeIs | internal/engine/validate.go:73-255 | what each type takes: a declared option, a whole number, an amount with a currency of three capitals, a file with a hash, and so on |
| Links.LinksAreFacts | internal/engine/links.go:31-106 | over every admissible run, a link holds exactly when it was added and not removed since |
| Links.LinkKeyInjective | internal/engine/engine.go:223-232 | two facts never share a key |
| Links.EveryLinkIsDeclared | internal/engine/links.go:31-106 | a link is added once, between existing records, from either end by a declared name, in the link's direction |
| Progress.ProgressCountsDeeds | internal/engine/tasks.go:185-266 | over every admissible run a progress entry is by the task's holder and counts the holder's own events on the task's record so far |
| Signatures.DecisionIsVouched | internal/engine/workflow.go:171-190 | a decision that changes anything passes by a signature of its approval and verdict, or without one only where none is required |
| Signatures.DefinitionDecisionIsVouched | internal/engine/proposals.go:109-140 | so does a decision about a definition |
| Signatures.UnsignedIsRefused | internal/engine/workflow.go:171-190 | where signatures are required, an unsigned decision is refused and changes nothing |
| Signatures.SignedIsInjective | internal/engine/workflow.go:67-69 | a signed message fits no other verdict, id or kind of decision |
| Conformance.CommitKeepsGood | internal/engine/engine.go:123-246 | a legal entry keeps the invariant: ids drawn, task keys answered, keys unique, sources compilable |
| Conformance.CreateConforms | internal/engine/records.go:19-107 | a creation commits legal entries only |
| Conformance.UpdateConforms | internal/engine/records.go:124-194 | an update commits legal entries only |
| Conformance.ActConforms | internal/engine/workflow.go:72-146 | an action commits legal entries only |
| Conformance.DecideConforms | internal/engine/workflow.go:151-232 | a decision commits legal entries only |
| Conformance.TickConforms | internal/engine/automation.go:21-66 | a tick commits legal entries only |
| Conformance.DecideProposalConforms | internal/engine/proposals.go:109-185 | a definition decision commits legal entries only, and the live swap is what replay makes of it |
| Conformance.StepConforms | internal/engine/engine.go:92-279 | every admissible call commits a run of legal entries and keeps the invariant |
| Conformance.RunConforms | internal/engine/engine.go:92-279 | so does every admissible run |
| Replay.ReplayEqualsLive | internal/engine/engine.go:92-246 | after every admissible run all eight parts of the live projection equal the fold of the journal |
| Replay.UpdateReplaysIff | internal/engine/records.go:166-193 | a changing update keeps replay equal to live exactly when its key is absent or new |
| Replay.CreateReplaysIff | internal/engine/records.go:27-107 | when a creation under a repeated key keeps replay equal to live, exactly |
| Replay.ActRequestReplaysIff | internal/engine/workflow.go:115-139 | a parked action keeps replay equal to live exactly when its key is absent or new |
| Replay.ActMoveReplaysIff | internal/engine/workflow.go:141-145 | a moving action keeps replay equal to live exactly when its key is new, or an auto transition moves the record on, or nothing changed |
| Replay.DecideProposalReplaysIff | internal/engine/proposals.go:165-184 | applying a proposal replays exactly when the proposal carries sources |
| Gates.RepeatedUpdateParts | internal/engine/records.go:166-193 | a run after which the live record holds the second update under one key, and a restart brings back the first |
| Gates.RepeatedCreateParts | internal/engine/records.go:27-107 | a run in which a creation under a parked action's key makes a live record that replay does not |
| Gates.RepeatedMoveParts | internal/engine/workflow.go:248-266 | a run in which a move under another record's key opens the live record alone |
| Approvals.HumanApproval | internal/engine/workflow.go:72-232 | over every admissible run: a gated move rests on its own request and an earlier grant by a role that may approve it, no approval is decided twice, none moves two records |
| Approvals.GatedMoveIsBacked | internal/engine/workflow.go:151-232 | the entry of a gated move is preceded by its grant and its request |
| Approvals.AutoIgnoresApproval | internal/engine/workflow.go:283-298 | an enabled auto transition moves the record whatever approval role it declares |
| Approvals.GrantRoleIff | internal/engine/workflow.go:161-170 | a pending approval can be granted by the role its transition declares alone, exactly when no other role may approve the action |
| Approvals.GrantedByItsRole | internal/engine/workflow.go:151-232 | over every admissible run under one definition who grants may approve the action, so every grant is by the declared role where no other may |
| Gates.ForeignRoleGrants | internal/engine/workflow.go:151-232 | a run in which the gate names one role, another grants, and the record moves |
| Edges.MovesAlongDeclaredEdges | internal/engine/workflow.go:248-316 | over every admissible run each record's moves chain from its creation state along declared edges to its stored state |
| Edges.UpdateKeepsState | internal/engine/records.go:111-121 | no update moves the state field |
| Edges.BornInDefaultState | internal/engine/records.go:51-60 | over every admissible run, every record of a workflow's entity was created with its state field at the default, whatever the caller passed |
| Leases.LifecycleExtends | internal/engine/tasks.go:152-250 | a task's events stay in the lease language exactly when the next event fits its phase |
| Leases.LeaseProtocol | internal/engine/tasks.go:152-250 | over every admissible run each task's events spell the lease protocol and the projected task shows its phase: one holder, finishing by the holder strictly before the lease ends, terminal states final |
| Leases.TickSweeps | internal/engine/automation.go:60-66 | after a tick every task still held has time left on its lease |
| Leases.FinishRoleIff | internal/engine/tasks.go:152-236 | over every admissible run a task is finished by the actor who took it under the task's role; the finish is by that role exactly when the finisher still acts under it |
| Leases.FinishedByItsRole | internal/engine/tasks.go:213-236 | where each actor id acts under one role, every task is completed or failed by an actor of the task's role |
| Leases.ForeignRoleFinishes | internal/engine/tasks.go:213-236 | a run in which one id takes a task under its role and completes it under another |
| Integrity.StoredDataIntact | internal/engine/records.go:46-189 | over every admissible run: unique values and tuples that no transition moves, existing references, singletons |
| Integrity.CommitKeepsIntact | internal/engine/validate.go:257-313 | each legal entry keeps the stored data intact |
| Integrity.MoveKeepsUniqueIff | internal/engine/workflow.go:248-266 | a transition keeps unique values and tuples, the state field's included, exactly when no other record holds the value or tuple it moves onto |
| Integrity.StateTuplesUniqueIff | internal/engine/validate.go:257-313 | over any admissible run under one definition: all unique values and tuples hold throughout exactly when no transition moved a record onto another's |
| Integrity.MovesBreakUniqueness | internal/engine/workflow.go:248-266 | a run of legal moves after which two records share a unique state and a unique tuple |
| Definitions.DefinitionHistory | internal/engine/proposals.go:109-245 | over any run that uses keys as the journal expects, prototype swaps included: later models grow from earlier ones, versions count applied changes, each applied change was based on the version it replaced, no version is replaced twice |
| Definitions.EveryDefinitionFits | internal/engine/proposals.go:59-185 | a proposal is for the version in force and compiles to a model that keeps every entity and field with its type; an applied one was approved right before |
| Definitions.AdditiveExtends | internal/engine/proposals.go:214-245 | the additive check passes exactly where every entity and field is kept with its type, enum options appended only |
| Definitions.AdditiveTransitive | internal/engine/proposals.go:214-245 | the additive check composes over versions |
| Definitions.GrownAccepts | internal/engine/validate.go:73-136 | a value accepted for a field stays accepted under every later version, array[enum] aside |
| Definitions.MultiEnumStaysAcceptedIff | internal/engine/proposals.go:225-242 | array[enum] values stay accepted exactly when no option was dropped |
| Definitions.MultiEnumMayShrink | internal/engine/proposals.go:235-241 | a dropped option passes the additive check and invalidates a stored value |
| Periodic.FiresExactlyOnce | internal/engine/automation.go:21-116 | over every admissible run, a rule due at a tick leaves exactly one task under its key for the record, action and day or state entry: the one this rule asks for, unless the key was used before the tick; under a fixed definition always this rule's |
| Periodic.RelinedRuleIsPassedOver | internal/engine/automation.go:25-43 | a run that changes the definition: the rule now on the line is due the same day and gets no task |
| Periodic.FiresOnlyWhenDue | internal/engine/automation.go:21-116 | a task under a periodic key was created by a rule that was due, on the day the key names |
| Periodic.OneTaskPerKey | internal/eventstore/memstore.go:60-80 | one entry per key, however many ticks |
| Serial.NextSerial | internal/engine/serial.go:37-53 | the scan finds one more than the largest number stored |
| Serial.FormatRenders | internal/engine/serial.go:56-70 | formatting prints every piece of the format in place |
| Serial.PrintedInWidth | internal/engine/serial.go:56-70 | a number printed in a width is its digits with zeros in front up to the width |
| Serial.DecimalIs | internal/engine/serial.go:56-70 | the digits have the number's value and no leading zero |
| Serial.TokenPrints | internal/engine/serial.go:56-70 | a bare sequence token prints the number, one with a width prints it in that width; a width above a million is complained about |
| Serial.RoundTrip | internal/engine/serial.go:56-109 | every format with one sequence token reads back the number it printed exactly when no width has a year in it and the formatter accepts the width, and reads back nothing otherwise |
| Serial.NextIsFresh | internal/engine/serial.go:37-53 | the next number, printed, equals no stored value and moves the scan on, for a readable format; for any other the same number is handed out again |
| Serial.YearWidthTakesBrace | internal/engine/serial.go:56-70 | in any format with a year inside a width, formatting takes a closing brace of the format for a token's |
| Numbering.AssignedIsFresh | internal/engine/serial.go:22-53 | a number that creation assigns, in a readable format, differs from every number the field then holds |
| Numbering.NumbersDiffer | internal/engine/serial.go:22-53 | over every admissible run under one definition: numbers of a readable format that creations assign differ pairwise, unless an update changed the earlier one |
| Model.FindTransition | internal/engine/workflow.go:308-316 | finds a named transition exactly when one leaves the state |
| Permissions.DenyRuleHides | internal/engine/permissions.go:31-156 | deny over allow: one more deny rule removes exactly the fields it hits from what an actor sees, whatever else is granted |
| Permissions.AllowRuleShows | internal/engine/permissions.go:31-156 | default deny: one more granting rule adds exactly the fields it hits that no deny rule hides; a rule that does not grant reading adds nothing |
| Conditions.LexExpr | internal/engine/expr.go:70-122 | the lexer loop computes the lexer function, failures included |
| Conditions.ExprParser.ListItems | internal/engine/expr.go:281-293 | the in-list loop over the moving position computes the list function |
| Conditions.ExprParser.AndExpr | internal/engine/expr.go:201-212 | the loop builds the left-associated conjunction and stops where the function stops |
| Conditions.ExprParser.OrExpr | internal/engine/expr.go:188-199 | the loop builds the left-associated disjunction; parsing ends on every token list |
| Conditions.Where | internal/engine/expr.go:42-61 | trimming, lexing, parsing and evaluating compute the verdict; what does not parse does not hold |
| Spelling.LexText | internal/engine/expr.go:70-122 | spelled tokens lex back to themselves, quoted strings with any blanks included |
| Spelling.CollapseText | internal/engine/expr.go:48-49 | collapsing blanks at dots changes the quoted strings of a spelled text and nothing else |
| ConditionMeaning.ParseToks | internal/engine/expr.go:188-306 | a tree printed for any precedence level parses back to that tree, in front of anything that may follow |
| ConditionMeaning.PrintParses | internal/engine/expr.go:16-61 | printing by the grammar, collapsing and parsing gives the tree with its quoted literals collapsed: the same tree exactly when no quoted literal has a blank next to a dot |
| ConditionMeaning.PrintKeepsMeaning | internal/engine/expr.go:42-61 | evaluating the printed text is evaluating the collapsed tree, and so the tree itself when its literals are spared |
| ConditionMeaning.QuotedComparisonIff | internal/engine/expr.go:42-61 | a field compared with a quoted literal keeps its meaning in every context exactly when the literal has no blank next to a dot |
| ConditionMeaning.QuotedListIff | internal/engine/expr.go:42-61 | a field asked for in a list of literals keeps its meaning in every context exactly when no quoted literal has a blank next to a dot |
| ConditionMeaning.SelfComparisonKeepsMeaning | internal/engine/expr.go:48-49 | a literal compared with itself keeps its meaning although it loses blanks: the condition is not needed for arbitrary trees |
| ConditionMeaning.InitialIsLost | internal/engine/expr.go:48-49 | name = "J. Smith" fails for a record whose name is J. Smith |
| Comparisons.NumbersCompare | internal/engine/expr.go:310-368 | a field that holds a number or an amount, compared with a numeral: each of the six operators is its relation on the two numbers |
| Comparisons.NoNumberNoOrder | internal/engine/expr.go:310-368 | a field without a number is in no order with a numeral, and differs from it |
| Comparisons.NullAsksForPresence | internal/engine/expr.go:370-391 | comparing with null asks whether the field has a value |
| Comparisons.EqualityDecides | internal/engine/expr.go:393-473 | equality with the actor, an attribute, the record, the clock, a truth value, a bare word, a quoted text or a numeral compares with what that stands for |
| Comparisons.MembershipDecides | internal/engine/expr.go:310-368 | an in-list holds exactly when an operand of the list stands for the field's value |
| Comparisons.FlagDecides | internal/engine/expr.go:310-368 | a field alone holds where its value is true |
| Comparisons.PathsCompare | internal/engine/expr.go:310-409 | what a dotted path leads to compares with a numeral as a field does: each of the six operators is its relation on the two numbers |
| Comparisons.LostPathFails | internal/engine/expr.go:310-409 | a path that leads nowhere fails every comparison with an operand that is not null, the unequal one included, every in-list and the path alone |
| Comparisons.PathPresence | internal/engine/expr.go:310-409 | comparing a path with null asks whether it leads to a value; a path alone holds where it leads to true |
| Comparisons.CompoundsCrash | internal/engine/expr.go:448-458 | comparing two lists or two objects without amounts stops the program |
| Comparisons.NamesAreFields | internal/engine/expr.go:124-135 | letters, digits and underscores name a field |
| Comparisons.DigitsAreNumerals | internal/engine/expr.go:70-122 | digits with a sign or a fraction are numerals |
| Comparisons.NoConditionHolds | internal/engine/expr.go:42-61 | an empty or blank condition holds |
| Comparisons.BlanksAround | internal/engine/expr.go:42-61 | blanks around a condition make no difference |
| Comparisons.UnreadableFails | internal/engine/expr.go:42-61 | an unknown sign, or a comparison without a right side, makes a condition fail |
| ConditionMeaning.DecidedIsClassical | internal/engine/expr.go:158-186 | where every leaf is decided, short-circuit evaluation is classical logic |
| ConditionMeaning.NegationFailsClosed | internal/engine/expr.go:181-186 | a condition and its negation never both hold, and both fail exactly in the undecided case |
| Arithmetic.Evaluator.Expr | internal/engine/computed.go:78-100 | the one-pass sum loop over the moving position computes the sum function |
| Arithmetic.Evaluator.Term | internal/engine/computed.go:102-127 | the product loop computes the product function; a zero divisor fails |
| Arithmetic.Evaluator.Factor | internal/engine/computed.go:129-154 | parentheses, minus, numerals and atoms |
| Arithmetic.Evaluator.FunctionTerm | internal/engine/computed.go:182-223 | a function term's body runs to the parenthesis that closes it |
| Arithmetic.EvalComputed | internal/engine/computed.go:50-61 | the value of the whole text, failing when text is left over |
| ArithmeticMeaning.EvaluatePrinted | internal/engine/computed.go:78-154 | a printed tree evaluates to its value at every precedence level, or fails if it is broken |
| ArithmeticMeaning.OnePassIsTreeValue | internal/engine/computed.go:50-223 | one pass over the printed expression, function terms included, gives the real value of the tree, and fails exactly when a path is unresolved or no number, a numeral is malformed, a function term fails, or a divisor is zero |
| Computed.Accumulate | internal/engine/computed.go:330-385 | one accumulator yields count, sum, average, least and greatest of the related rows |
| Computed.AcyclicTerminates | internal/engine/computed.go:313-385 | if computed fields depend on one another without a cycle, evaluation returns, with one value at every sufficient depth |
| Computed.ComputedRecordExists | internal/engine/computed.go:27-41 | then every record has its computed fields |
| Computed.StoredFieldsKept | internal/engine/computed.go:27-41 | computing never changes a stored field |
| ComputedMeaning.FieldIsItsExpression | internal/engine/computed.go:27-223 | a computed field's text evaluates as its expression over the record and its world |
| ComputedMeaning.ReaderReads | internal/engine/computed.go:168-223 | numerals by the parser, paths through the records, elapsed time by the six names; any other function has no value |
| ComputedMeaning.NamesAreReadable | internal/engine/computed.go:157-179 | letters, digits and underscores name a field or a path in an expression; digits with or without a fraction are numerals |
| ComputedMeaning.PathLeads | internal/engine/computed.go:390-425 | a path resolves to the value it leads to, through one record after another by the ids their fields hold |
| ComputedMeaning.RollupFieldTotals | internal/engine/computed.go:313-385 | a roll-up field totals the records whose reference names the record, each once, by its stored value or its own computed one |
| Rollups.CountIsReferers | internal/engine/computed.go:313-385 | a count is the number of records whose reference names the record |
| ComputedMeaning.ComputedInTurn | internal/engine/computed.go:27-41 | each computed field has the value of its expression over the fields before it, where that has one |
| Scope.TermsHit | internal/engine/index.go:29-29 | every term the pattern yields stands at a place where the pattern matches |
| Scope.HitIsTokens | internal/engine/index.go:29-29 | in any text the lexer accepts, every match is a field, an equals sign and the actor, three whole tokens, unless a quoted text holds a term |
| Scope.TermIsNecessary | internal/engine/index.go:122-128 | in a clause without not, its disjunctions visible and no term quoted, every term found must hold for the clause to hold, for a stored field |
| Scope.AttributeClauseIsPlain | internal/dsl/parser.go:577-579 | an attribute clause as the compiler spaces it, with blanks around the dot, is such a clause: one term, one comparison |
| Scope.PrintedClauseIsPlain | internal/engine/expr.go:42-61 | so is every condition without not and without a quoted term that is printed by the grammar, blanks at dots aside |
| QuotedTerms.QuotedClauseIs | internal/engine/index.go:29-29 | the pattern finds a term in a clause that only quotes it: the clause is a comparison with a text |
| Scope.OrIsSeen | internal/engine/index.go:119-121 | a clause spelled with single blanks that parses to a disjunction is recognised by its text |
| Index.Build | internal/engine/index.go:62-80 | the nested loops file exactly the records of the entity under their values, field by field |
| Index.DropKeepsCoherent | internal/engine/index.go:85-89 | writing one entity and dropping its index leaves every cached index exact |
| Engine.Engine.GetIndex | internal/engine/index.go:55-81 | the index returned, cached or rebuilt, is exact |
| Engine.Engine.CandidateIds | internal/engine/index.go:98-139 | the union of the buckets of the actor's read items, or none if one of them cannot be narrowed |
| Queries.CandidatesCover | internal/engine/index.go:93-97 | every readable record is a candidate, where the terms found are necessary |
| Queries.IndexAgreesWithScan | internal/engine/records.go:243-274 | then the query from candidates lists the rows of the full scan, in the same order |
| Queries.IndexNeverLeaks | internal/engine/index.go:15-18 | whatever ids are tried, every row returned is readable and a row of the full scan |
| Queries.SelectedRowsShow | internal/engine/records.go:250-288 | whatever ids are tried, a row's fields are exactly those of the full record that an item of the actor's role permits reading and none forbids, with their values |
| Queries.ForbiddenFieldIsInNoRow | internal/engine/permissions.go:148-156 | a field that an item forbids to read without a condition is in no row |
| Queries.UnpermittedFieldIsInNoRow | internal/engine/permissions.go:148-156 | nor is one that no item permits |
| Queries.ListedIff | internal/engine/records.go:250-313 | a record tried is listed exactly when the actor may read it and it passes filter, condition and search |
| Queries.PageIs | internal/engine/records.go:277-287 | a page is the stretch of rows from the offset, no longer than the limit |
| Queries.PlainClausesAreServed | internal/engine/index.go:98-159 | clauses without not and without a quoted term, as the compiler stores them, over stored fields meet the condition |
| Queries.NarrowsIff | internal/engine/index.go:33-139 | an index narrows a role's queries exactly when the role reads the entity by items that each have a condition without a visible disjunction in which a term is found |
| Queries.NarrowedAgreesIff | internal/engine/records.go:243-274 | narrowing changes no query, whatever its options, exactly when every readable record is a candidate |
| Queries.NegatedTermIsInverted | internal/engine/index.go:98-159 | under not over stored strings, a record is readable exactly when it is no candidate, so every query through the index is empty |
| Queries.MissingFieldIsLostIff | internal/engine/expr.go:393-402 | a readable record without the scope field is no candidate exactly when the actor's value is the field's own name, and then the query differs from the scan |
| Queries.QuotedTermIsLostIff | internal/engine/index.go:98-159 | under a clause that only quotes a term, a record is readable and no candidate exactly when it holds the quoted text and its term's field renders unlike the actor's value, and then the query differs from the scan |
| Engine.Engine.Query | internal/engine/records.go:233-288 | the query is the paged, sorted scan, in every state reached, where the terms are necessary; every row it returns, for an order that permutes, is masked to what the actor may read |
| Dashboard.ComputeTile | internal/engine/dashboard.go:72-163 | the bucket loop computes the aggregate of the readable, matching rows, per group in name order |
| Dashboard.CountIsQueryLength | internal/engine/dashboard.go:98-113 | a count tile is the length of the scan query with its condition |
| Dashboard.CellsOfRows | internal/engine/dashboard.go:98-175 | a tile looks at exactly the rows its query lists, at its field and the group of each full record |
| Dashboard.GroupsAddUp | internal/engine/dashboard.go:98-163 | count and sum groups add up to the ungrouped total |
| Dashboard.GroupedTileConserves | internal/engine/dashboard.go:72-163 | a grouped count or sum tile conserves what the ungrouped tile shows |
| Calendar.BusinessMinutesBetween | internal/engine/calendar.go:121-145 | the day loop adds each date's clipped window in whole minutes, for at most 4000 dates |
| Calendar.WholeMinutesExact | internal/engine/calendar.go:121-145 | between whole minutes it counts exactly the working minutes up to the horizon |
| Calendar.BusinessMinutesAre | internal/engine/calendar.go:111-145 | between whole minutes, business time is the number of minutes in working hours of dates that are no holiday and on a working weekday or an extra date, of 4000 dates |
| Calendar.SplitMinutes | internal/engine/calendar.go:121-145 | splitting a whole-minute interval anywhere: the parts exceed the whole by the working minutes between the two horizons |
| Calendar.MinutesAddIff | internal/engine/calendar.go:121-145 | consecutive intervals add up exactly when no working minute lies between the two horizons |
| Calendar.SplitAnywhere | internal/engine/calendar.go:121-145 | splitting at any second, horizon included: what the parts lose and what they count more than the whole |
| Calendar.SplitAddsIff | internal/engine/calendar.go:138-140 | within the horizon the parts add up exactly when the leftover seconds of the split date do not make a minute |
| Calendar.BusinessDaysBetween | internal/engine/calendar.go:148-163 | counts the working dates after the first date up to the last, at most 4000 |
| Calendar.BusinessDaysAre | internal/engine/calendar.go:111-163 | business days are the work dates after the first up to the last, of 4000 dates |
| Calendar.SplitDays | internal/engine/calendar.go:148-163 | consecutive day counts exceed the whole by the working dates past its 4000 |
| Calendar.DaysAddIff | internal/engine/calendar.go:148-163 | they add up exactly when there are none |
| Registry.Registry.All | internal/identity/registry.go:195-239 | folding only what is newer than the watermark gives the directory of the whole journal |
| Registry.Registry.Register | internal/identity/registry.go:103-125 | only a human registers, only a new actor, with exactly these facts |
| Registry.Registry.EnsureActor | internal/identity/registry.go:131-160 | the token is issued or replaced; everything else about a known actor, the disabled flag included, stays |
| Registry.Registry.RotateKey | internal/identity/registry.go:242-259 | only the public key changes |
| Registry.Registry.Disable | internal/identity/registry.go:263-277 | only a human disables, only a known actor |
| Registry.Registry.Authenticate | internal/identity/registry.go:177-192 | the first carrier of the token hash decides |
| Registry.AuthenticationIs | internal/identity/registry.go:177-192 | success names an active carrier, unknown means nobody carries the hash |
| Registry.Interleave | internal/identity/registry.go:195-239 | whatever others append between reads, the answers are those of a registry that folds the whole journal anew at every read |
| Registry.DisabledForever | internal/identity/registry.go:226-230 | once disabled, disabled through every later event |
| Registry.DisabledNeverAuthenticates | internal/identity/registry.go:177-192 | a disabled actor authenticates under no token, old or newly issued |
| Registry.DisabledTokenIsRefused | internal/identity/registry.go:183-189 | a token only a disabled actor carries is answered as disabled |
| DslLexer.TokenizeLine | internal/dsl/lexer.go:63-122 | the lexer loop computes the lexer function, errors and comments included |
| DslWords.MarksRead | internal/dsl/lexer.go:63-122 | each mark of the language and each of its four pairs is one token; other signs are errors |
| DslWords.LineEnds | internal/dsl/lexer.go:63-90 | a number sign ends the line, an open quote is an error |
| DslWords.NamesAndNumbersRead | internal/dsl/lexer.go:59-103 | a name of letters, digits, underscores and dollar signs is one token; so is a number with its unit |
| DslParser.ReadBracketIdents | internal/dsl/parser.go:269-298 | the bracket loop reads the names and the tokens they take |
| DslParser.ReadBracketDotted | internal/dsl/parser.go:301-318 | the dotted-name loop |
| DslParser.ExprUntilKeyword | internal/dsl/parser.go:370-393 | text up to the next modifier keyword outside brackets |
| DslParser.ReadModifiers | internal/dsl/parser.go:322-363 | the modifiers loop sets the declaration's fields |
| DslParser.ExprUntilStop | internal/dsl/parser_blocks.go:131-147 | text up to the next clause keyword |
| DslParser.ReadClauses | internal/dsl/parser_blocks.go:61-128 | the clauses loop sets the declaration's fields |
| DslWords.ScalarFieldReads | internal/dsl/parser.go:153-266 | a field of each of the eighteen scalar types reads as declared |
| DslWords.OtherWordIsNoType | internal/dsl/parser.go:172-266 | any other word names no type |
| DslWords.WordEndsText | internal/dsl/parser.go:365-393 | each of the seven modifier keywords ends a default or computed text |
| DslWords.BracketsHideWords | internal/dsl/parser.go:376-384 | inside brackets a keyword is text |
| DslWords.OnDeleteWords | internal/dsl/parser.go:349-355 | on_delete takes three words and reports any other |
| DslWords.LabelReads | internal/dsl/parser.go:347-348 | a field's label is its quoted text |
| DslWords.WordEndsGuard | internal/dsl/parser_blocks.go:131-147 | each of the three clause keywords ends a guard |
| DslWords.ClauseLabelReads | internal/dsl/parser_blocks.go:61-128 | a transition's label is its quoted text |
| DslRoundTrip.FieldRoundTrip | internal/dsl/compose.go:136-174 | a rendered field line tokenizes without error, and parses back to its name, type, flags, texts, format and on_delete exactly when every text ends where its clause does: no modifier keyword outside brackets, and brackets that close unless nothing follows |
| DslRoundTrip.ParseTypeToks | internal/dsl/parser.go:172-266 | every rendered type parses back to that type |
| DslRoundTrip.TransitionRoundTrip | internal/dsl/compose.go:176-192 | a rendered transition line tokenizes without error, and parses back to its ends, action, guard, agent and approval role exactly when a named action is not called auto and the guard holds no clause keyword |
| DslRoundTrip.SpacingKeepsTokens | internal/dsl/parser.go:370-393 | free text that went through the parser, quotes included, has the same tokens; only blanks between them differ |
| DslRoundTrip.BracketSwallows | internal/dsl/parser.go:376-384 | a default, computed text or format that is a single bracket, quoted or not, swallows the on_delete clause after it |
| DslRoundTrip.QuotedBracketIsLost | internal/dsl/compose.go:136-174 | the field line of a default that quotes a bracket is read without its on_delete |
| DslLengths.ModifiersBound | internal/dsl/parser.go:322-363 | reading modifiers yields a declaration with no more text than the tokens held |
| DslLengths.ClausesBound | internal/dsl/parser_blocks.go:61-128 | reading clauses yields no more text than the tokens held, and never changes whether a transition is automatic |

## Left out

- HTTP, MCP, the web UI, SDK, workers, command line, demo data and file blobs: no state property of their own.
- PostgreSQL, transactions and JSON encoding: payloads are typed values, and the in-memory store is the reference.
- SHA-256 and Ed25519: any hash function of one output size and any verification predicate; tamper evidence therefore yields agreement or an explicit collision.
- Locking and concurrency: operations run one at a time, as the engine's one lock makes them; the store's and the engine's clock give one instant per call.
- Aliasing: approvals, tasks, proposals and records are values in maps, so a pointer handed out by the source is not modelled.
- Ids: the n-th journal position draws the n-th id of an injective supply, for the uuid library.
- Idempotency keys: typed, so the engine's own keys and clients' keys do not coincide, although the source builds both as text.
- Map iteration order: changes of one update, unique checks that would panic, and the lease sweep are taken in one fixed order.
- Engine environment: condition, computed-field and default evaluation, compilation and format checks are functions of the environment; the theorems hold for any. `Queries.UsesConditions` ties conditions to the language modelled here.
- ImportRecord, comments, long polling, invites, rate limits, metadata and error texts.
- Reading one record, its links or the pending approvals: the queries' permissions and masks without their selection.
- Signatures.DecisionIsVouched: speaks of one call; journal entries carry no signature in the model.
- Links.LinksAreFacts: excludes link names and ids that hold a bar, which the key is joined with.
- Comparisons.EqualityDecides: excludes lists and objects on the right, and objects whose amount is an object.
- Proposal plan texts: they are display only.
- Replay.ReplayEqualsLive: excludes ApplyAdditive, which journals no sources, so replay relies on being started with the new model.
- Engine.Engine.Tick: a stuck rule whose entity has no workflow is skipped; in the source it would stop with a nil dereference, and the compiler rejects such a rule.
- Duration texts: digits and one unit; a sign and integer overflow are not modelled.
- Conditions.Eval: floats are reals and the float parser is a function; infinities and NaN are not modelled. Comparing two lists or two objects is a verdict of its own, for the source's panic.
- Queries.MatchesFilter: compares values, where the source panics on two lists or objects; text search folds ASCII case only; the sort is a function of the rows.
- Queries.IndexAgreesWithScan: excludes core.* entities, whose read permission packs do not grant.
- Computed: elapsed-time terms are a function of name, body and record; an aggregate visits its rows in id order.
- Calendar.WholeMinutesExact: excludes, as the lemmas on splitting do, windows that cross midnight; dates are day numbers.
- Dashboard.ComputeTile: dashboards' labels and lookup by name are left out.
- Registry.Registry.Authenticate: actors are tried in id order, where the source's order is arbitrary; `Registry.AuthenticationIs` holds for any order. Token generation is left out.
- DslRoundTrip.FieldRoundTrip: excludes free text that is blank, holds a comment, or holds a character the lexer refuses, which no parsed text does, and a format with a quote in it.
- DslRoundTrip.TransitionRoundTrip: excludes the same guards.
- ConditionMeaning.QuotedComparisonIff: states the condition for one comparison of a field, as `QuotedListIff` does for one list; for arbitrary trees it is enough (`PrintKeepsMeaning`) but not needed, as `SelfComparisonKeepsMeaning` shows.
- Scope.TermIsNecessary: excludes objects among the compared values, which are compared by their amounts.
- Numbering.NumbersDiffer: excludes a serial field that is the workflow's state field.
- DslParser: labels are parsed but never rendered; the remaining blocks of the language and its compiler are left out.
