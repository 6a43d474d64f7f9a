# Verification of cassiopeia's core

Dafny models of the parts of cassiopeia where a result depends on an order, a tree, or a boundary,
and proofs of what they promise. `dafny verify dfyconfig.toml` checks the whole project.

## What is modelled

- **The instrumented channel.** `ChannelProtocol` is a transition system with one program counter per
  thread, in which every atomic operation is one step; a run is any interleaving. `ChannelEndings` proves
  how its operations end and when they wait. `Channel` is the same code as a class, for operations that
  do not overlap, with a clock, and `ChannelWindows` proves that such runs of the protocol rest where the
  class does.
- **Mappings, their compiler, and the record expander.** `Templates` and `Mappings` are the data model
  and what a template reads; `Compiler` compiles a mapping and records its source reads, and
  `CompiledForms` says of a mapping's structure what that comes to; `Minting` and
  `Expansions` specify identifiers, links, and fragments, and prove what each key of the main fragment
  holds; `ExpansionLosses` proves what fails a record and what it records as lost; `GenericExpander` is
  the router and the expander's loops, proved against that specification; `ReadSoundness` and
  `CompiledMappings` connect the compiler with the expander.
- **CSV tables.** `CsvAutomaton` is the record state machine (section 2 of RFC 4180, with an escape
  byte, doubled quotes, and skipped blank lines), over which `RecordSkipping` skips records in arbitrary
  buffers and `TableReading` opens and reads a table. `CsvWriting` is a writer that knows nothing of the
  machine, whose files are read back.
- **Dialect statements.** `DialectStatement` parses, checks, and prints a manifest's dialect object.
- **Bytes and encodings.** `EncodingEvidence`, `BomlessUtf16`, and `CapturedBodies`.
- **Diagnostics.** `Diagnostics` builds identities, `ReasonTally` counts them into the reason table, and
  `ReasonOrder` proves when that table ignores the order of the records.
- **The temporal aggregator**, in `TemporalAggregation`.

Code this repository only calls appears as parameters: the templating engine and JSON printing are the
functions of `Templates.Engine`, identifier cleaning, URN and scope validation, and instant parsing those
of `Minting.Env`, the encoding tables `DialectStatement.Encodings`, and decoding a function argument. The
one law asked of the engine, `ReportsItsReads`, is that a rendering depends on nothing but the keys the
engine reports, the names a template assigns, and, where `this` is reported, the whole record. The
laws asked of a mapping, `AsLoaded`, `IsLoaded`, and `Keyed`, are what loading one establishes.

## Where the code and its documentation differ

- The depth is documented as the number of messages waiting. It is raised after the push, so a receiver
  that overtakes the sender lowers it at zero and it stays one too high for good: `DepthDrifts` is such a
  run, `QuietDepth` the law, and `DepthHoldsUnlessLoweredAtZero` the exact condition.
- The capacity marker is documented to be zero while the queue is not full. A sender interrupted between
  finding the queue full and marking it can leave a quiet, empty channel marked (`MarkerOutlivesFullness`);
  `MarkerFitsUnlessWrittenLate` is the exact condition, and without overlap it holds (`SerialMarker`).
- Truncating a body is documented never to discard more than three bytes. Stray continuation bytes make
  it discard any number; `GivesUpMoreThanThree` says exactly when, `StrayBytesCostTheCapture` gives one.
- The reason table is documented to be reproducible in any recording order. The headline, which is
  outside the identity, can make a row's example depend on it (`UnexplainedDependsOnOrder`). The table is
  reproducible exactly when every key has an identity that was only ever recorded with the key's least
  explanation (`ReproducibleExactly`), so whenever every identity carries a cause or a Detail.
- Sorting defining fields is documented to make the identity insensitive to their order. The stable sort
  does so across kinds and not within one (`SameIdentity`, `OneKindOrderSplits`).
- A field a mapping does not read is documented to change no entity it emits, and only an entity's own
  identity, scope, and expiry to fail its record. A synthetic entity's reads are not recorded, and its
  scope or expiry fails the whole record (`UnrecordedReadsCanCostTheRecord`); `OnlyFaultsFail` says
  exactly what fails one. An agreeing record is lost exactly to a synthetic entity made of it, and is
  the same entity otherwise (`LostExactlyToSynthetics`, `ReadsSuffice`); with the synthetic entities'
  reads added nothing is left out (`ReadsDecideEverything`).
- `complete_records` is documented to reach to the terminator of its last record. Under CRLF the state
  machine completes a record at the carriage return, and a line feed that follows is left out
  (`CompleteCutsCrlf`, `LineFeedIsLeftOut`).

## Model

| member | source | states |
|---|---|---|
| `ReadSoundness.ReadsSuffice` | crates/cassiopeia-mapping/src/source_reads.rs:27-31 | when a record expands under a compiled mapping, any record agreeing with it on the recorded source reads expands exactly when no synthetic entity made of it fails, and then to the same URN, scope, expiry, and edges, in order |
| `ReadSoundness.LostExactlyToSynthetics` | crates/cassiopeia-expander/src/generic.rs:269-275 | of two agreeing records of which one expands, the other is lost exactly when a synthetic entity made of it, once its relationship’s source names a target, has a faulty identity or a failing scope or expiry |
| `ReadSoundness.ReadsDecideEverything` | crates/cassiopeia-expander/src/generic.rs:119-196 | adding the reads of the synthetic entities made of the record itself, agreeing records expand alike in every fragment, every lost link, and every failure |
| `ReadSoundness.UnrecordedReadsCanCostTheRecord` | crates/cassiopeia-mapping/src/source_reads.rs:27-31 | a concrete mapping and two records that agree on its recorded reads, of which one expands and one fails through its synthetic entity’s scope |
| `ReadSoundness.AttributeLinksAlike` | crates/cassiopeia-expander/src/generic.rs:132-179 | an attribute that yields for two records agreeing on its reads yields both the same links, whichever branch it takes |
| `Expansions.KeysHoldTheirDeclarations` | crates/cassiopeia-expander/src/generic.rs:119-196 | under every key, path or instance, the main fragment holds exactly what minting the one declaration the key names yields, in minting order |
| `Expansions.NestedKeysHold` | crates/cassiopeia-expander/src/generic.rs:299-339 | the objects under a multi-segment path are those the declaration at that path mints, for every tree of sub-attributes keyed by name |
| `Expansions.GateChangesNothing` | crates/cassiopeia-expander/src/generic.rs:181-189 | the has-nested gate changes no outcome: a mapping with nothing nested yields what the ungated walk yields |
| `Expansions.MainHoldsItsMembers` | crates/cassiopeia-expander/src/generic.rs:119-129 | the main entity carries the identity, the scope, and the expiry its mapping gives the record with the run’s variables in reach, and no parent |
| `Expansions.SelectsByLabel` | crates/cassiopeia-expander/src/router.rs:34-42 | one mapping serves every record; of several the label alone decides, and a missing label is told from one with no mapping |
| `Expansions.FragmentsFollowDeclarations` | crates/cassiopeia-expander/src/generic.rs:119-196 | an expanded record’s fragments are, in declaration order, what each declaration emits and then the main one, whose links to a token-fed declaration are that declaration’s entities, in order |
| `Expansions.LinksFollowEntities` | crates/cassiopeia-expander/src/generic.rs:209-244 | for one list of tokens, the edges and the fragments emitted are in step, both in order one for each token the synthetic identity names, each fragment over its own token |
| `Expansions.InstanceKeysHold` | crates/cassiopeia-expander/src/generic.rs:137-150 | the objects under instance i are exactly those instance i mints, whatever the other instances drop |
| `ExpansionLosses.OnlyFaultsFail` | crates/cassiopeia-expander/src/generic.rs:112-118 | a record fails exactly when its own identity, scope, or expiry does or a declaration is at fault: never for a link whose source names nothing or fails to render |
| `ExpansionLosses.LossesNameTheirDeclarations` | crates/cassiopeia-expander/src/generic.rs:59-78 | under every path an expanded record records exactly the template failures of the declaration the path names, in order |
| `ExpansionLosses.AttributeLoses` | crates/cassiopeia-expander/src/generic.rs:132-179 | an attribute fails the record exactly on a fault of its branch, and else loses exactly the links whose templates fail |
| `ExpansionLosses.KeepLoses` | crates/cassiopeia-expander/src/generic.rs:58-78 | only a fault fails a link, and only a template failure is recorded |
| `GenericExpander.Expander.Expand` | crates/cassiopeia-expander/src/generic.rs:361-367 | a record expands under the mapping its collection selects to the specified fragments or error, or fails when none is bound or it has no label, recording exactly the specified losses |
| `GenericExpander.Expander.ExpandUnder` | crates/cassiopeia-expander/src/generic.rs:119-196 | under one mapping the imperative expander comes to the specified fragments or error and losses |
| `GenericExpander.Expander.TakeSteps` | crates/cassiopeia-expander/src/generic.rs:132-179 | the loop over attributes, instances, tokens, or sub-attributes collects what each step makes until one fails, and records every loss up to it |
| `GenericExpander.Expander.ExpandAttribute` | crates/cassiopeia-expander/src/generic.rs:132-178 | the branch an attribute’s declaration selects yields its specified links and fragments |
| `GenericExpander.Expander.ExpandSyntheticTargets` | crates/cassiopeia-expander/src/generic.rs:209-244 | tokens become links and entities, a token that names none costing neither the rest nor the record |
| `GenericExpander.Expander.ExpandSyntheticEntity` | crates/cassiopeia-expander/src/generic.rs:254-287 | the one synthetic entity is emitted, with its parent, when both its relationship’s source and its identity name a target |
| `GenericExpander.Expander.MintNestedRelationships` | crates/cassiopeia-expander/src/generic.rs:299-339 | the recursive walk mints every nested relationship under its whole path |
| `GenericExpander.KeepLink` | crates/cassiopeia-expander/src/generic.rs:66-78 | an empty identifier costs the link, a template failure costs it and is recorded, any other failure fails the record |
| `GenericExpander.StepsOf` | crates/cassiopeia-expander/src/generic.rs:132-189 | taking the steps of a loop in order comes to the recursive specification of the whole |
| `CompiledMappings.CompiledKeysHold` | crates/cassiopeia-expander/src/generic.rs:119-196 | the same as KeysHoldTheirDeclarations for the mapping the compiler hands over, from what loading guarantees |
| `CompiledMappings.LoadedCompiles` | crates/cassiopeia-mapping/src/mapping.rs:239-242 | compiling keeps the nested-relationship flag true to the tree and every declaration keyed |
| `Compiler.CompileMapping` | crates/cassiopeia-expander/src/compiler.rs:45-74 | compilation yields the compiled mapping, or names the first template in document order, a synthetic entity’s included, that does not compile |
| `Compiler.CompileAttribute` | crates/cassiopeia-expander/src/compiler.rs:81-115 | an attribute’s templates compile in order, with their reads absorbed and a synthetic entity’s reads left out |
| `Compiler.CompileEntries` | crates/cassiopeia-expander/src/compiler.rs:93-105 | the declarations of a list are compiled in place, with the first failure reported under its own or the given key |
| `Compiler.CompileInstances` | crates/cassiopeia-expander/src/compiler.rs:106-137 | each instance’s source and properties compile in place under the attribute’s path |
| `Compiler.CompileSource` | crates/cassiopeia-expander/src/compiler.rs:143-176 | a source is a template, a list of templates and literals, or a literal; an empty list is no source |
| `Compiler.CompileScope` | crates/cassiopeia-expander/src/compiler.rs:50-61 | one scope template or several compile in order |
| `Compiler.CompileTemplate` | crates/cassiopeia-expander/src/compiler.rs:180-195 | a template that compiles adds what it reads, and one that does not is reported with its declaration |
| `Compiler.RejectsTheFirst` | crates/cassiopeia-expander/src/compiler.rs:37-39 | nothing is rejected exactly when every template compiles, and a rejection is of the first that does not |
| `CompiledForms.MappingCompiles` | crates/cassiopeia-expander/src/compiler.rs:37-74 | a mapping is accepted exactly when every template in it compiles, at any depth and of derived entities too, and then each stands compiled in its place with everything else unchanged |
| `Compiler.PathGrows` | crates/cassiopeia-mapping/src/attribute/declaration_trail.rs:55-80 | the path of a declaration is that of the one it is nested in with its own name added among the sub-attributes or among the members, as it is nested |
| `Compiler.ReportedWhereWritten` | crates/cassiopeia-expander/src/compiler.rs:81-137 | a template that fails is reported under the sub-attribute or member it is written in, and that of a language or an instance under its attribute |
| `Compiler.ReadsAreRecorded` | crates/cassiopeia-mapping/src/mapping.rs:104-109 | the recorded source reads are those of the mapping’s own compiled templates |
| `Compiler.MappingCompilesOnce` | crates/cassiopeia-expander/src/compiler.rs:45-74 | compiling a compiled mapping gives it back |
| `Templates.ResolvesAlike` | crates/cassiopeia-mapping/src/template/resolver.rs:43-52 | a template resolves alike, failures included, over records that agree on what it reads |
| `Templates.SourcesResolveAlike` | crates/cassiopeia-mapping/src/template/resolver.rs:86-146 | so do the joined identifier and the tokens of a whole source |
| `Templates.HeadIsLookedUpFirst` | crates/cassiopeia-mapping/src/template/field_path.rs:31-57 | the key a path is recorded as reading is the first key its lookup asks for |
| `Templates.AbsorbInAnyGrouping` | crates/cassiopeia-mapping/src/source_reads.rs:89-95 | absorbing reads is associative, with no reads as its unit |
| `Templates.Tokens` | crates/cassiopeia-mapping/src/template/resolver.rs:130-146 | tokens are never empty and hold no separator |
| `Templates.TokensOfSpread` | crates/cassiopeia-mapping/src/template/resolver.rs:130-146 | a text made of any tokens, with any white space and commas between and around them, splits into exactly those tokens in order |
| `Templates.TokensInOrder` | crates/cassiopeia-mapping/src/template/resolver.rs:139-146 | the tokens of several templates are those of each in order, up to the first that fails |
| `Templates.CompositeIsItsText` | crates/cassiopeia-mapping/src/template/resolver.rs:64-72 | a composite is there exactly when each of its fields is neither absent, null, nor empty and its text is not empty, and is then its parts in order |
| `Templates.ExpressionBetweenPadding` | crates/cassiopeia-mapping/src/template/resolver.rs:174-200 | an expression is what is rendered between its white space, decoded, and null where nothing is |
| `Templates.CompositeReadsItsFields` | crates/cassiopeia-mapping/src/source_reads.rs:49-58 | a composite reads exactly the keys its fields start at, and everything where one is the whole record |
| `Templates.EngineTemplateReads` | crates/cassiopeia-mapping/src/source_reads.rs:60-86 | an engine template reads exactly the reported and the assigned names, and everything where it reads `this` or names an engine variable anywhere in its text |
| `Templates.FirstAbsenceDecides` | crates/cassiopeia-mapping/src/template/resolver.rs:79-98 | the first template of an identifier that is absent or fails decides the whole, and with none the identifier is all of them in order |
| `Templates.NestedFieldIsRead` | crates/cassiopeia-mapping/src/template/field_path.rs:31-57 | a value at any depth of objects is read by the dotted path of their keys |
| `Minting.MembersAlike` | crates/cassiopeia-expander/src/urn/generator.rs:52-93 | identity, scope, and expiry depend on nothing the mapping does not read |
| `Minting.MintsAlike` | crates/cassiopeia-expander/src/urn/generator.rs:105-122 | a relationship’s objects and identifiers depend on nothing its source does not read |
| `Minting.TargetsAreMinted` | crates/cassiopeia-expander/src/urn/generator.rs:193-202 | a list fails exactly when some identifier fails otherwise than by naming nothing, and else mints every identifier that names a target, in order |
| `Minting.OneUrnPerIdentifier` | crates/cassiopeia-expander/src/urn/generator.rs:235-241 | two identifiers mint one URN exactly when they clean to one identifier and the entity types are the same |
| `Minting.MintedOfTheSource` | crates/cassiopeia-expander/src/urn/generator.rs:52-58 | an identity mints a URN exactly when its source resolves whole and cleans to something a URN can be built of, and is empty exactly when it resolves or cleans to nothing |
| `Minting.ScopedByItsTexts` | crates/cassiopeia-expander/src/urn/generator.rs:72-93 | a scope is the set of the non-empty texts its templates yield, none if there is no such text, and fails exactly when a template fails or yields text that is no scope |
| `Minting.ExpiresAsItsValueReads` | crates/cassiopeia-expander/src/expiry_resolver.rs:29-62 | an expiry fails exactly when its template does, and is set exactly when the value is there and reads as an instant |
| `Minting.ListOfOneIsTheOne` | crates/cassiopeia-expander/src/urn/generator.rs:181-202 | a list relationship over a source of one identifier links to what a plain one over it does |
| `Minting.InstanceMintsAsItsOwn` | crates/cassiopeia-expander/src/urn/generator.rs:136-170 | an instance links to what its attribute would with the instance’s source |
| `Minting.LiteralMintsAsCompiled` | crates/cassiopeia-expander/src/urn/generator.rs:105-122 | a literal source that was not compiled names what the static template of its text names, and a source that is no scalar names nothing |
| `ChannelProtocol.StepKeepsInv` | crates/cassiopeia-common/src/channel.rs:47-122 | every atomic step of any thread keeps the queue FIFO and within its bound, every counter accounted for to the threads that owe it, and the peak tracked |
| `ChannelProtocol.EveryRunKeepsInv` | crates/cassiopeia-common/src/channel.rs:47-122 | those hold at every moment of every interleaving of any number of senders and receivers |
| `ChannelProtocol.QuietDepth` | crates/cassiopeia-common/src/channel.rs:271-279 | with nothing in flight the depth is the queue length plus the decrements that found zero, and equals the queue length exactly when there were none |
| `ChannelProtocol.PeakNeverDrops` | crates/cassiopeia-common/src/channel.rs:282-290 | the peak never falls over a run |
| `ChannelProtocol.HighestIsHeld` | crates/cassiopeia-common/src/channel.rs:59-63 | the highest depth of a run was held at some moment of it |
| `ChannelProtocol.HighestBounds` | crates/cassiopeia-common/src/channel.rs:59-63 | no moment of a run held a higher depth than its highest |
| `ChannelProtocol.SettledPeakIsHighest` | crates/cassiopeia-common/src/channel.rs:282-290 | once no sender is in the compare-exchange loop the peak is the highest depth ever held, under any spurious failures and interleaving |
| `ChannelProtocol.DepthHoldsUnlessLoweredAtZero` | crates/cassiopeia-common/src/channel.rs:271-273 | with nothing in flight the depth is the queue length exactly when no turn of the run lowered it at zero |
| `ChannelProtocol.DepthDrifts` | crates/cassiopeia-common/src/channel.rs:184-185 | a concrete run that ends quiet with an empty queue and a depth of one |
| `ChannelProtocol.SerialNeverFloors` | crates/cassiopeia-common/src/channel.rs:271-279 | when operations do not overlap no decrement finds zero |
| `ChannelProtocol.SerialDepthIsLength` | crates/cassiopeia-common/src/channel.rs:184-185 | so the depth is then the queue length and sent minus received |
| `ChannelWindows.SerialMarker` | crates/cassiopeia-common/src/channel.rs:263-280 | after every run of the protocol without overlap that is at rest, the marker is set exactly when the depth, which is the queue’s length, is the capacity |
| `ChannelWindows.SerialWindows` | crates/cassiopeia-common/src/channel.rs:255-280 | on a clock that does not go back such a run leaves what the class leaves: the marker holds when the queue became full, the full time is the sum of the closed full windows read off the run’s resting states, and the peak is the highest depth it rested at |
| `ChannelMarker.MarkerFitsUnlessWrittenLate` | crates/cassiopeia-common/src/channel.rs:197-200 | at rest after any interleaving the marker is set exactly when the queue is full if it was last set on a full queue or last cleared on one that was not, and otherwise exactly if fullness has changed since |
| `ChannelMarker.MarkerOutlivesFullness` | crates/cassiopeia-common/src/channel.rs:263-269 | a concrete interleaving of one send and one receive leaves a quiet, empty channel marked as full |
| `ChannelMarker.NextSendRepairsMarker` | crates/cassiopeia-common/src/channel.rs:52-54 | a send begun on a full queue without a marker sets it before it waits for room |
| `ChannelEndings.EveryOperationEndsOnce` | crates/cassiopeia-common/src/channel.rs:47-122 | under every interleaving, the operations begun are those that sent, received, or were counted disconnected, and those that did not wait and found nothing |
| `ChannelEndings.ClosedStaysClosed` | crates/cassiopeia-common/src/channel.rs:42-46 | nothing enters or leaves the queue once the receiver is gone, and nothing enters it once the senders are |
| `ChannelEndings.DisconnectedOnceDrained` | crates/cassiopeia-common/src/channel.rs:93-108 | a receive that reports disconnection does so only once every value ever pushed has been popped, in whatever order the threads ran |
| `ChannelEndings.BlockedThreadsAgree` | crates/cassiopeia-common/src/channel.rs:42-46 | threads blocked at once all wait for room in a full queue with a receiver, or all for a value in an empty one with senders, so no run deadlocks |
| `Channel.Channel.Send` | crates/cassiopeia-common/src/channel.rs:47-75 | a send appends the value and updates every counter, the wait, the blocked sends of a bounded channel, the peak, and the marker, or returns the value when no receiver is left |
| `Channel.Channel.Recv` | crates/cassiopeia-common/src/channel.rs:97-108 | a receive takes the first value with every counter, or reports disconnection, and adds its wait either way |
| `Channel.Channel.TryRecv` | crates/cassiopeia-common/src/channel.rs:115-122 | a non-blocking receive takes the first value, or tells empty from disconnected |
| `Channel.Channel.UpdatePeak` | crates/cassiopeia-common/src/channel.rs:282-290 | the weak compare-exchange loop, whatever its spurious failures, leaves the maximum |
| `Channel.Channel.DecrementDepth` | crates/cassiopeia-common/src/channel.rs:271-279 | the depth is lowered, and a full window is closed and added when the depth was at capacity |
| `Channel.PerformAll` | crates/cassiopeia-common/src/channel.rs:47-122 | for every run of operations that do not overlap on a monotone clock: what is received and queued is what was sent, in order, the peak is the highest depth, the marker is set exactly at capacity, and time at capacity is the full windows read off the operations alone, within the time they span |
| `Channel.CapacityLaws` | crates/cassiopeia-common/src/channel.rs:259-279 | the time at capacity stays below the elapsed time |
| `Channel.FullTimeWithinElapsed` | crates/cassiopeia-common/src/channel.rs:271-279 | the full windows of a monotone timeline never exceed the time it spans |
| `CsvAutomaton.FirstEndConcat` | crates/cassiopeia-csv-dialect/src/record_end.rs:27-43 | where the first record of a concatenation ends is decided by its parts, so chunking does not matter |
| `CsvAutomaton.FirstEndSplits` | crates/cassiopeia-csv-dialect/src/record_end.rs:27-43 | reading splits at the first record’s end into that one record and what a fresh reader reads of the rest |
| `CsvAutomaton.NoEndNoRecord` | crates/cassiopeia-csv-dialect/src/record_end.rs:11-19 | input without an end holds no terminated record and at most one cut off |
| `CsvAutomaton.FreshReadsAlike` | crates/cassiopeia-csv-dialect/src/dialect.rs:74-76 | the state left at a record boundary reads what a new reader reads |
| `CsvWriting.WrittenReadsBack` | crates/cassiopeia-csv-dialect/src/dialect.rs:133-170 | records written under a dialect with distinct bytes, each field quoted, bare, or both, with blank lines between and with or without a last line end, are read back byte for byte |
| `CsvWriting.QuotedReadsBack` | crates/cassiopeia-csv-dialect/src/dialect.rs:133-170 | in quotes, records of any bytes at all are read back, whatever the terminator and the escape |
| `CsvWriting.WrittenTableReadsBack` | crates/cassiopeia-csv-dialect/src/dialect.rs:67-82 | a written table with as many fields in every line below its preamble gives one row per data line, each field as it was written |
| `RecordSkipping.CoreReader.ReadRecord` | crates/cassiopeia-csv-dialect/src/record_end.rs:28-41 | a call of the state machine stops at a record’s end, the buffer’s end, or a full scratch space, having stepped over exactly what it consumed |
| `RecordSkipping.SkipRecord` | crates/cassiopeia-csv-dialect/src/record_end.rs:27-43 | exactly one record is consumed, for any buffers and scratch space, or the whole input when none ends |
| `RecordSkipping.SkipPreamble` | crates/cassiopeia-csv-dialect/src/preamble.rs:39-41 | skipping n records leaves the state and input the specification leaves |
| `RecordSkipping.ReadAfterSkip` | crates/cassiopeia-csv-dialect/src/dialect.rs:74-82 | the records after a skipped preamble of n are the records of the whole input without the first n, for every delimiter, quote, escape, and terminator |
| `RecordSkipping.SkipTwice` | crates/cassiopeia-csv-dialect/src/preamble.rs:39-41 | skipping a records and then b is skipping a + b |
| `RecordSkipping.FreshSkipTwice` | crates/cassiopeia-csv-dialect/src/preamble.rs:39-41 | so is skipping them with two fresh readers |
| `RecordSkipping.CompleteRecords` | crates/cassiopeia-csv-dialect/src/dialect.rs:120-130 | the scan terminates with the prefix up to the last terminated record |
| `RecordSkipping.CompleteEndsAtLast` | crates/cassiopeia-csv-dialect/src/dialect.rs:112-118 | that prefix ends a record and no record ends after it |
| `RecordSkipping.CompleteHoldsTerminated` | crates/cassiopeia-csv-dialect/src/dialect.rs:112-118 | it holds exactly the terminated records of the sample |
| `RecordSkipping.CompleteCutsCrlf` | crates/cassiopeia-csv-dialect/src/dialect.rs:112-118 | the prefix ends inside its last record’s terminator exactly when records end with CRLF, its last byte is a carriage return, and a line feed follows |
| `RecordSkipping.LineFeedIsLeftOut` | crates/cassiopeia-csv-dialect/src/dialect.rs:112-118 | a concrete sample of one CRLF record and a byte, cut before the line feed |
| `RecordSkipping.CompleteGrows` | crates/cassiopeia-csv-dialect/src/dialect.rs:112-118 | for a longer sample it only grows |
| `RecordSkipping.CompleteIsIdempotent` | crates/cassiopeia-csv-dialect/src/dialect.rs:120-130 | cutting it again changes nothing |
| `TableReading.WidthOf` | crates/cassiopeia-csv-dialect/src/table_reader.rs:43-49 | the width is the record’s field count, and the least is its fields up to the last non-blank one |
| `TableReading.Fit` | crates/cassiopeia-csv-dialect/src/table_reader.rs:54-67 | a record is cut or filled in place exactly when it fits |
| `TableReading.FittedKeepsValues` | crates/cassiopeia-csv-dialect/src/table_reader.rs:51-67 | a fitted row has the table’s width and every non-blank field in its column |
| `TableReading.MisfitLosesValues` | crates/cassiopeia-csv-dialect/src/table_reader.rs:51-67 | a record is misshapen exactly when it stops short of a required field or no row of the width holds its values |
| `TableReading.WidthSetterFits` | crates/cassiopeia-csv-dialect/src/table_reader.rs:38-42 | the record that sets the width fits it unchanged |
| `TableReading.TableReader.NextRow` | crates/cassiopeia-csv-dialect/src/table_reader.rs:133-152 | each data record yields one row or one misshapen report, numbered by what lies above it |
| `TableReading.TableReader.Rows` | crates/cassiopeia-csv-dialect/src/table_reader.rs:128-130 | a whole run yields one outcome per record, in order, all of one width |
| `TableReading.JoinedHeader` | crates/cassiopeia-csv-dialect/src/dialect.rs:91-110 | stacked header records join per column into the non-blank cells, top to bottom |
| `TableReading.CellExtends` | crates/cassiopeia-csv-dialect/src/dialect.rs:98-107 | one header record more extends each name it reaches by its cell |
| `TableReading.StackedHeaderSetsWidth` | crates/cassiopeia-csv-dialect/src/dialect.rs:85-110 | a stacked header makes the table as wide as its first record, and the last column a row must reach is the last one any header record names |
| `TableReading.Open` | crates/cassiopeia-csv-dialect/src/dialect.rs:74-82 | opening skips the preamble, reads the header, and leaves the data records below with the width their header or first record sets |
| `TableReading.OutcomesAreNumbered` | crates/cassiopeia-csv-dialect/src/misshapen_row.rs:26-32 | a report’s row number is one past the preamble, header, and data records above, saturating |
| `TableReading.ReadTable` | crates/cassiopeia-csv-dialect/src/table_reader.rs:83-153 | reading a file under a dialect gives the table of its records, from bytes to outcomes |
| `DialectStatement.DialectRoundTrip` | crates/cassiopeia-csv-dialect/src/statement.rs:107-145 | a dialect stated, printed, and parsed comes back whole, its escape normalised when quoting is off, exactly when its bytes are distinct and its encoding is readable, and is refused otherwise |
| `DialectStatement.StatementRoundTrip` | crates/cassiopeia-csv-dialect/src/statement.rs:176-233 | every accepted statement survives printing and parsing |
| `DialectStatement.WholeDialectIsSound` | crates/cassiopeia-csv-dialect/src/statement.rs:107-122 | the whole dialect of an accepted statement has distinct bytes and states that statement again |
| `DialectStatement.AcceptedExactly` | crates/cassiopeia-csv-dialect/src/statement.rs:176-233 | a statement is accepted exactly when each member reads on its own and no two clash, and says what each says |
| `DialectStatement.HeaderIsAsStated` | crates/cassiopeia-csv-dialect/src/header_statement.rs:13-28 | a stated count is the header with or without a flag, and a flag alone is a header to be found or none |
| `DialectStatement.ReadTextsAreWritten` | crates/cassiopeia-csv-dialect/src/statement.rs:147-174 | a text read as a delimiter, quote, escape, terminator, or separator is the text that value is written as |
| `DialectStatement.NormalisedReadsAlike` | crates/cassiopeia-csv-dialect/src/statement.rs:131-136 | leaving out an escape under disabled quoting changes no record that is read |
| `DialectStatement.MembersSurvive` | crates/cassiopeia-csv-dialect/src/statement.rs:147-174 | every raw member, read from what it is written as, is itself |
| `EncodingEvidence.LineAlignedSegments` | crates/cassiopeia-encoding-detection/src/encoding_evidence.rs:39-55 | the closure’s segments are the specified ones |
| `EncodingEvidence.SegmentsCover` | crates/cassiopeia-encoding-detection/src/encoding_evidence.rs:37-55 | the segments are as many as asked and concatenate to the input |
| `EncodingEvidence.SegmentsSplitNoLine` | crates/cassiopeia-encoding-detection/src/encoding_evidence.rs:37-55 | the lines of the segments, in order, are the lines of the file |
| `EncodingEvidence.SegmentsAreFair` | crates/cassiopeia-encoding-detection/src/encoding_evidence.rs:37-55 | no segment exceeds an equal share by more than a line or the remainder, and the first k hold at least k equal shares together |
| `EncodingEvidence.LinesAreWhole` | crates/cassiopeia-encoding-detection/src/encoding_evidence.rs:9-15 | the lines are all of the bytes, and each ends at its one LF or CR or at the end |
| `EncodingEvidence.EvidenceLines` | crates/cassiopeia-encoding-detection/src/encoding_evidence.rs:23-35 | the evidence is what each segment gives within its share |
| `EncodingEvidence.EvidenceIsSubsequence` | crates/cassiopeia-encoding-detection/src/encoding_evidence.rs:17-22 | it is an in-order subsequence of the whole file’s non-ASCII lines |
| `EncodingEvidence.NonAsciiLines` | crates/cassiopeia-encoding-detection/src/encoding_evidence.rs:17-21 | the lines kept are exactly those with a byte of 0x80 or above |
| `EncodingEvidence.EverySegmentSpeaks` | crates/cassiopeia-encoding-detection/src/encoding_evidence.rs:5-7 | every segment with such a line gives its first, however many the segments before it have |
| `EncodingEvidence.EvidenceIsCapped` | crates/cassiopeia-encoding-detection/src/encoding_evidence.rs:17-22 | its total is at most the budget plus one longest line per segment |
| `EncodingEvidence.EvidenceOmitsNothing` | crates/cassiopeia-encoding-detection/src/encoding_evidence.rs:17-35 | nothing is omitted exactly when, in every segment, the non-ASCII lines before the last stay below the share |
| `BomlessUtf16.DetectSwapped` | crates/cassiopeia-encoding-detection/src/bomless_utf16.rs:64-81 | exchanging the bytes of every unit flips the detected order, for every even-length input |
| `BomlessUtf16.LatinIsDetected` | crates/cassiopeia-encoding-detection/src/bomless_utf16.rs:54-81 | every non-empty text that within the window is printable Latin-1, tabs, and line ends is detected in the order it was encoded (section 3.1 of RFC 2781) |
| `BomlessUtf16.LinesAreDetected` | crates/cassiopeia-encoding-detection/src/bomless_utf16.rs:54-63 | so is any text that within the window shows a line end and neither control characters nor U+0A00 or U+0D00 |
| `BomlessUtf16.DetectsExactly` | crates/cassiopeia-encoding-detection/src/bomless_utf16.rs:40-81 | an order is detected exactly when the length is even, the window holds a unit below U+0100 and no control character in it, and the other order does not or shows fewer line ends, or as many and fewer such units |
| `BomlessUtf16.DetectsNothingExactly` | crates/cassiopeia-encoding-detection/src/bomless_utf16.rs:49-81 | nothing is detected exactly when the length is odd, neither order reads as text, or both do and show as much |
| `CapturedBodies.Capture` | crates/cassiopeia-common/src/captured_body.rs:46-61 | for any bytes the capture is a prefix within the cap, with the true length |
| `CapturedBodies.CharBoundary` | crates/cassiopeia-common/src/captured_body.rs:124-132 | the walk-back loop ends at the specified boundary |
| `CapturedBodies.CappedIsLongestPrefix` | crates/cassiopeia-common/src/captured_body.rs:41-44 | for valid UTF-8 (section 4 of RFC 3629) the capture is the longest valid prefix within the cap and gives up at most three bytes |
| `CapturedBodies.Utf8IsEncoded` | crates/cassiopeia-common/src/captured_body.rs:124-132 | well-formed bytes are the encoding of some sequence of Unicode scalar values |
| `CapturedBodies.EncodedIsUtf8` | crates/cassiopeia-common/src/captured_body.rs:124-132 | the encoding of any such sequence is well-formed |
| `CapturedBodies.EchoOfCapped` | crates/cassiopeia-common/src/captured_body.rs:74-93 | cutting twice is cutting once at the smaller cap, true length included, for all bytes |
| `CapturedBodies.EchoTwice` | crates/cassiopeia-common/src/captured_body.rs:80-93 | echoing an echo is echoing at the smaller cap, for every captured body |
| `CapturedBodies.GivesUpMoreThanThree` | crates/cassiopeia-common/src/captured_body.rs:43-44 | more than three bytes are given up exactly when four continuation bytes stand at the cap and what the walk reaches is valid |
| `CapturedBodies.StrayBytesCostTheCapture` | crates/cassiopeia-common/src/captured_body.rs:122-123 | a concrete body that loses five of five bytes |
| `ReasonTally.ReasonTally.Record` | crates/cassiopeia-diagnostic/src/reason_tally.rs:45-62 | a record is a first sighting exactly when its identity is new this cycle, and the tally accounts for it |
| `ReasonTally.ReasonTally.Drain` | crates/cassiopeia-diagnostic/src/reason_tally.rs:80-104 | the drained table is the report of everything recorded, and the tally is empty |
| `ReasonTally.FoldEntries` | crates/cassiopeia-diagnostic/src/reason_tally.rs:81-95 | folding by severity and code sums with saturation and keeps the least example, in any map order |
| `ReasonTally.CountsAreConserved` | crates/cassiopeia-diagnostic/src/reason_tally.rs:80-104 | short of saturation the counts of the table add up to every occurrence recorded |
| `ReasonTally.ReportsWorstFirst` | crates/cassiopeia-diagnostic/src/reason_tally.rs:80-104 | errors come before warnings, louder rows before quieter, and equally loud ones by code |
| `ReasonOrder.ReproducibleExactly` | crates/cassiopeia-diagnostic/src/reason_tally.rs:75-78 | all reports of all orders of a recording are one table exactly when, for every key recorded, some identity was only ever recorded with the least explanation of the key |
| `ReasonOrder.ReportIgnoresOrder` | crates/cassiopeia-diagnostic/src/reason_tally.rs:75-78 | in particular when every identity carries a cause or a Detail |
| `ReasonOrder.ReportExists` | crates/cassiopeia-diagnostic/src/reason_tally.rs:80-104 | every recording has a report |
| `ReasonOrder.UnexplainedDependsOnOrder` | crates/cassiopeia-diagnostic/src/reason_tally.rs:76-78 | two diagnostics of one unexplained identity give different tables in the two orders |
| `ReasonTally.FirstExactlyOnce` | crates/cassiopeia-diagnostic/src/reason_tally.rs:40-44 | each identity is First exactly once per cycle, the first time |
| `ReasonTally.RecordAll` | crates/cassiopeia-diagnostic/src/reason_tally.rs:45-62 | a cycle’s sightings are those the specification gives |
| `Diagnostics.DiagnosticBuilder.WithContext` | crates/cassiopeia-diagnostic/src/diagnostic_builder.rs:52-58 | a field is kept with the defining or the incidental ones by its role |
| `Diagnostics.DiagnosticBuilder.Build` | crates/cassiopeia-diagnostic/src/diagnostic_builder.rs:105-112 | the built diagnostic is a function of the fields, causes, and count given, in order |
| `Diagnostics.SameIdentity` | crates/cassiopeia-diagnostic/src/diagnostic_identity.rs:38-49 | two builds with the same severity, code, and causes share an identity exactly when their defining fields agree kind by kind, whatever the rest |
| `Diagnostics.OneKindOrderSplits` | crates/cassiopeia-diagnostic/src/diagnostic_identity.rs:22-24 | two defining fields of one kind in two orders make two identities |
| `Diagnostics.FieldsThatDistinguish` | crates/cassiopeia-diagnostic/src/field_role.rs:20-42 | a field more makes another identity unless it is of one of the six kinds that name an occurrence |
| `Diagnostics.NoFieldIsLost` | crates/cassiopeia-diagnostic/src/diagnostic_builder.rs:52-58 | every field given is kept exactly once, defining or incidental |
| `Diagnostics.ExplanationIsTheIdentitys` | crates/cassiopeia-diagnostic/src/diagnostic.rs:73-86 | the explanation is the identity’s alone exactly when it carries a cause or a Detail |
| `Diagnostics.BuiltExplains` | crates/cassiopeia-diagnostic/src/diagnostic.rs:73-86 | a built diagnostic is explained by its first cause, or else the first Detail it was given, or else its headline |
| `StableSort.SortLaws` | crates/cassiopeia-diagnostic/src/diagnostic_identity.rs:40-40 | the sort is ordered by key and keeps the order within each key |
| `StableSort.SortedIsUnique` | crates/cassiopeia-diagnostic/src/diagnostic_identity.rs:40-40 | a sequence sorted so is the only one |
| `TemporalAggregation.TemporalAggregator.Offer` | crates/cassiopeia-aggregator/src/temporal_aggregator.rs:29-40 | an observation joins the open group of its id, or emits that group and opens its own |
| `TemporalAggregation.TemporalAggregator.Flush` | crates/cassiopeia-aggregator/src/temporal_aggregator.rs:42-44 | the open group is emitted once and a second call emits none |
| `TemporalAggregation.AggregateAll` | crates/cassiopeia-aggregator/src/temporal_aggregator.rs:28-45 | the entities emitted for a whole stream are its finished runs, in order, with the runs’ ids, and exactly one per id in first-seen order exactly when each id’s observations are contiguous |
| `TemporalAggregation.RunsAreRuns` | crates/cassiopeia-aggregator/src/temporal_aggregator.rs:28-45 | the runs concatenate to the stream, hold one id each, and are maximal |
| `TemporalAggregation.OneEntityPerId` | crates/cassiopeia-aggregator/src/temporal_aggregator.rs:37-39 | the ids of the runs are the ids of the stream, each once, in first-seen order, exactly when each id’s observations are contiguous |
| `TemporalAggregation.FinishedGroup` | crates/cassiopeia-ngsi-ld/src/entity/temporal_aggregate.rs:103-179 | a finished group has its first observation’s members and per name the stable time-ordered series of its stamped instances, or the first instance when none is stamped |
| `TemporalAggregation.StampedInstancesAreKept` | crates/cassiopeia-ngsi-ld/src/entity/temporal_aggregate.rs:103-179 | a time-stamped instance is in a finished group under a name exactly when an observation of the group has it under that name |
| `TemporalAggregation.SeriesAreInTimeOrder` | crates/cassiopeia-ngsi-ld/src/entity/temporal_aggregate.rs:103-179 | every series is in the order of its instances’ own times |

## Left out

- Memory ordering: each atomic operation is one sequentially consistent step.
- Integer widths: the channel's counters, row counts, and byte counts are unbounded, except where the code saturates and the bound shows (the reason table's counts and the misshapen row's number).
- A channel's clock readings, which are arguments, its telemetry registration, and its iterators, which only call `recv`.
- In-place update of a mapping tree: the compiler works on values and returns the updated tree, so a mapping left half compiled by a rejection, and aliasing, are not captured.
- The direct-form parser and the engine's registration of a template: compiling a text is a function, as is the set of names a template assigns.
- Attribute conversion, and batch parallelism over records, which share nothing but the loss sink.
- The sink of unreadable expiries: such a value still costs the entity its expiry and nothing else.
- GenericExpander.Expander.TakeSteps: is one loop for the five of the source, which differ in what one step does.
- The byte order mark and input errors of the CSV libraries, and their conversion of fields to text, which is a function argument.
- Serialisation of a dialect's members beyond their text: JSON syntax and unknown members.
- ReasonTally.ReasonTally.Record: looks up and inserts in one step, so two threads recording one new identity at once are not modelled.
- Encoding detection beyond the evidence: the statistical detector and byte order marks.
- The rest of the repository: downloads, catalogues, the command line, and reports.
