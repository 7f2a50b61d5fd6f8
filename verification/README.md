# Bean Counter: settlement, canonical form, money, outbox and closures

A Dafny model of the logic that Bean Counter's own oracles and caller code state about the billing
engine, with proofs of the properties that logic is for. `dafny verify dfyconfig.toml` checks the
whole project.

## What is modelled

**Reservation settlement.** A reservation holds a maximum of atoms, split into consumed, held and
released. Families of charges are claimed once (`ordinary`), corrected afterwards (`post_hoc`) and
closed together (`close`). `Capacity` is that machine; `Accounting`, `Finality` and `Batch` are about
its runs. `Journal` is the audit of a recorded history, check by check in the audit's order, over the
typed records of `Records`. `Exactness`, `Completeness` and `Histories` prove that the audit accepts
exactly the vectors the machine writes; `AcceptedHistories` carries the machine's theorems over to
them. `Vectors` describes accepted vectors record by record, with no state carried from step to step
(`VectorSteps` and `VectorExact` prove it exact), and `Refusals` says which refusal each group of checks reports. `Registry`, `Replays` and `Conflicts` are about identities and replay closures, `LongHistory` about
how long a history can get, `Lookups` about retries. `Validator` is the audit in its own imperative
form: tables updated step by step and a loop over the steps, proved equal to `Journal`.

**Canonical JSON.** `Unicode`, `Digits`, `Json` and `Reader` are the canonical printer and the strict
reader down to code points and bytes. `KeyOrder`, `RoundTrip`, `Faithful` and `CanonicalForm` prove
that they are inverse to each other up to the order of keys, and that canonical bytes decide equality.
`Grammar` is JSON as a relation between texts and values; `ReaderExact` proves that the reader accepts
exactly its documents, `Shortest` that the canonical text is the shortest of them, and `KeyUnits` tells
the order of keys by UTF-16 units.

**Money.** `Allocation` is largest-remainder allocation, told part by part in `AllocationParts`, `Rounding`
ties-away rounding, `Decimals` the decimal normal form and `Amounts` the display of atoms, both told on
characters in `DecimalText`.

**The caller outbox.** `Outbox` is a machine whose steps are single file operations of the caller,
submissions, kills, power failures and other callers' submissions; after a power failure a name may
fall back to any version its directory was not synced past, and contents that were not synced turn
into anything. The ledger's reply may also be a false claim and an explanation may be anything.
`OutboxSafety`, `OutboxRuns`, `OutboxRetry`, `OutboxStuck` and `OutboxClaims` are about its runs: with
nothing trusted, with honest explanations, or with true answers. `OutboxWorld` tells what the ledger, an
explanation and a power failure do. `OutboxCaller` is the caller as the
imperative program it is; each of its operations is one step of the machine.

**Closures.** `Includes`, `Worklist`, `IncludeCycles`, `Selection`, `LostSource` and `Recapture` are the
capture of build inputs by following static includes: the paths and the include graph, the loop one
iteration at a time, when it ends, and what it captures; `IncludeRules` tells its rules on names and
paths. `DependencyWalk` is the walk over the resolved
dependency graph.

`Wrappers`, `Sums` and `Multisets` hold small shared definitions.

## What the proofs found

- The net bound with `maximum - base_released` holds after every run (`Accounting.NetBound`). With
  `maximum - released` it is false (`Finality.NetMayExceedUnreleased`). It holds exactly when no close
  took effect or the live amounts do not exceed the positive parts of the first amounts
  (`Finality.UnreleasedExact`). Two steps can break it, and each has its exact condition: a close that
  takes effect after a raising correction, and a raising correction after such a close
  (`Finality.CloseWithinExact`, `Finality.CorrectionWithinExact`, `Finality.CloseMayExceedUnreleased`).
- The replay limit of 1024 allows histories of up to 508 steps and no longer ones, below the 512 that two
  records a step would give (`LongHistory.LengthsExact`).
- The outbox books at most one of its own submissions (`OutboxRuns.OneBooking`). Others may have taken
  its delivery identifier and its operation for different work; its submission is then a conflict
  (`OutboxStuck.IdentitiesMayBeTaken`, `OutboxRuns.IdentitiesExact`).
- With honest explanations a receipt is acknowledged only if the ledger keeps it for the operation under
  the account, whatever was claimed (`OutboxRuns.ReceiptsVouched`). An explanation does not tell the
  source: a false claim may pass with the receipt of another source (`OutboxClaims.SourceMayDiffer`).
- With the ledger's own answers a receipt file never changes (`OutboxRuns.ReceiptNeverChanges`), and once
  its name is on disk it never does (`OutboxRuns.SealedForever`). With false claims it may before that
  (`OutboxClaims.ReceiptMayChange`).
- A torn marker, request or pending receipt stops an outbox for good, and a power failure can leave each
  of them (`OutboxStuck.StuckForever`, `OutboxStuck.StuckReached`).
- The capture's worklist keeps scanned paths as they are spelled. A source that includes itself through
  a detour such as `../crates/a.rs` keeps it going after any number of iterations
  (`IncludeCycles.SelfIncludeNeverEnds`). It finishes exactly when no cycle of scanned sources goes
  through a literal of several parts and every reached source can be read
  (`IncludeCycles.FinishesExactly`).
- A literal that ends in a parent step may name a Rust source. That file is captured but, its spelled
  path having no suffix, its own includes are not followed, and a file of the include closure can be
  missing (`LostSource.SourceLost`). The selection is the closure exactly when whatever such a source
  includes is captured on another account (`Selection.ClosureExact`); it is enough that every such
  source is also reached under a Rust spelling (`Selection.AllScannedExact`, `Selection.ScannedClosure`).
- Line-by-line rounding differs from rounding the sum by at most half the number of lines, rounded
  down, and this is exact (`Rounding.RoundedSum`, `Rounding.RoundedSumTight`).
- `amount` shows minus zero as `-0`, which `decimal` refuses (`Amounts.MinusZero`); its displays are in
  decimal normal form exactly when they carry no sign (`Amounts.DisplayNormalExact`).
- The first of the two checks on a pinned canonical text follows from the second
  (`CanonicalForm.AssertCanonicalExact`).

## Model

| member | source | states |
|---|---|---|
| `Accounting.RegisterSound` | scripts/reservation_settlement/audit.py:140-148 | every reservation that opens starts in a sound state: conserved capacity, all families open, nothing live |
| `Accounting.ClaimExact` | scripts/reservation_settlement/audit.py:153-169 | an ordinary claim is accepted exactly when it reaches the held check and its positive part fits the held balance; it then claims that one family and moves capacity by that positive part; the revision limit never refuses it |
| `Accounting.CorrectionExact` | scripts/reservation_settlement/audit.py:156-171 | a correction is accepted exactly for a claimed family within both ceilings, replaces the live amount and leaves the capacity state untouched |
| `Accounting.CloseExact` | scripts/reservation_settlement/audit.py:172-188 | a close is accepted exactly on the current revision and, by reason, after every deadline or with early authority; it releases all held capacity, closes every open family, and moves the revision at most once |
| `Accounting.ApplySound` | scripts/reservation_settlement/audit.py:153-188 | every accepted step keeps the invariant that ties capacity, family table, live amounts and first receipts together |
| `Accounting.RunSound` | scripts/reservation_settlement/audit.py:97-188 | the invariant holds after every accepted run |
| `Accounting.CapacityMonotone` | scripts/reservation_settlement/audit.py:180-188 | between any two points of a run the maximum is constant, consumed and released never fall, held never rises |
| `Accounting.WholeRunAccounting` | scripts/reservation_settlement/audit.py:43-47 | after every run maximum = consumed + held + released, and consumed is the base plus the positive parts of the families' first amounts, each family once; the state check cannot fail on it |
| `Accounting.StateCheckPasses` | scripts/reservation_settlement/audit.py:43-52 | the state check of any sound state passes, so its refusals cannot come from a computed result |
| `Accounting.StateCheckExact` | scripts/reservation_settlement/audit.py:43-52 | the state check passes exactly a state in range, conserved and with a receipt exactly for every claimed family, and otherwise names the first of the three that fails |
| `Accounting.NetBound` | scripts/reservation_settlement/audit.py:156-161 | base consumed plus the live amounts lies between zero and maximum minus base released after every run, corrections after a close included |
| `Finality.NetMayExceedUnreleased` | scripts/reservation_settlement/audit.py:159-171 | the same bound with maximum minus released is false: a concrete run of claim, correction, close, correction exceeds it |
| `Finality.CloseMayExceedUnreleased` | scripts/reservation_settlement/audit.py:156-188 | a second run in which the close itself breaks that bound, after a correction above the first amount |
| `Finality.UnreleasedExact` | scripts/reservation_settlement/audit.py:156-188 | after any run that bound holds exactly when no close took effect or the live amounts do not exceed the positive parts of the first amounts |
| `Finality.CorrectionWithinExact` | scripts/reservation_settlement/audit.py:156-171 | after such a close an accepted correction keeps the bound exactly when the live amounts with the corrected one do not exceed what was consumed past the base |
| `Finality.CloseWithinExact` | scripts/reservation_settlement/audit.py:172-188 | before a close that takes effect the bound holds, and the close keeps it exactly when the live amounts do not exceed what was consumed past the base |
| `Finality.ExceedingNeedsRaising` | scripts/reservation_settlement/audit.py:156-188 | the bound is exceeded only in a run with a close that took effect and a correction above the positive part of the family's first amount |
| `Finality.EffectIsClose` | scripts/reservation_settlement/audit.py:172-188 | the mark that such a close leaves on the state is there exactly when the run has one |
| `Finality.HeldRefusalExact` | scripts/reservation_settlement/audit.py:165-166 | a claim that passes every earlier check is refused by held capacity exactly when its positive part exceeds the opening balance less the first amounts' positive parts |
| `Finality.HeldRefusalNeedsLowering` | scripts/reservation_settlement/audit.py:159-171 | held capacity refuses only in a run in which some correction lowered a claimed positive amount |
| `Finality.HeldRefusalHappens` | scripts/reservation_settlement/audit.py:165-171 | such a refusal exists: after a claim is corrected to zero its capacity stays consumed |
| `Finality.CloseIsFinal` | scripts/reservation_settlement/audit.py:163-164 | after the first accepted close no step changes the state and no ordinary claim is accepted |
| `Finality.DeadlineCloseForeclosesNothing` | scripts/reservation_settlement/audit.py:172-178 | when the close reason is the deadline, every later moment is past every family's own deadline |
| `Finality.RevisionBound` | scripts/reservation_settlement/audit.py:184-187 | the revision never exceeds the number of families plus one |
| `Finality.RevisionNeverExhausted` | scripts/reservation_settlement/audit.py:186 | no step after any run can be refused for an exhausted revision |
| `Batch.BatchExact` | scripts/reservation_settlement/audit.py:153-169 | a batch of claims on distinct open families, at any non-decreasing times within the deadlines, is accepted exactly when its totals fit the premium ceiling, the base limit and the held balance, and then leaves a book described without any order |
| `Batch.EntriesOrderFree` | scripts/reservation_settlement/audit.py:159-168 | two orders of the same claims denote the same set of claims |
| `Batch.BatchOrderFree` | scripts/reservation_settlement/audit.py:153-187 | from any reachable state two orders of a batch, each at its own times, are accepted alike and end in the same book, revision included, but for the clock, which is that of the last claim |
| `Registry.RegisterExact` | scripts/reservation_settlement/audit.py:54-69 | filing the records of a step succeeds exactly when their identities are new and distinct and all references they mention agree with each other and with everything filed before |
| `Registry.NewReferencesConsistent` | scripts/reservation_settlement/audit.py:58-61 | references of new records and trusted external inputs cannot collide with what a sound journal holds |
| `Exactness.RecordsForced` | scripts/reservation_settlement/audit.py:121-211 | a step that passes has, record for record, the rows the machine would write for what it observed |
| `Completeness.AcceptedIsProduced` | scripts/reservation_settlement/audit.py:97-216 | an accepted step is the step the machine writes for its observed inputs |
| `Completeness.ProducedRegisters` | scripts/reservation_settlement/audit.py:110-120 | the identity registries never refuse a step the machine writes; a fresh delivery identity is enough |
| `Completeness.ProducedReplay` | scripts/reservation_settlement/audit.py:204-212 | everything a written step's replay closure retains was filed with its rows |
| `Completeness.ProducedIsAccepted` | scripts/reservation_settlement/audit.py:97-216 | every step the machine writes is accepted |
| `Completeness.StepExact` | scripts/reservation_settlement/audit.py:97-216 | one step is accepted with a resulting journal exactly when the machine writes that step and that journal |
| `Histories.StepKeepsLedger` | scripts/reservation_settlement/audit.py:97-216 | an accepted step keeps the journal invariant: sound book, consistent registries, closure contained in the filed references, every identity accounted for |
| `Histories.AuditSound` | scripts/reservation_settlement/audit.py:86-217 | every accepted history ends in a sound journal |
| `Histories.AuditExact` | scripts/reservation_settlement/audit.py:86-217 | a vector is accepted with a resulting journal exactly when the machine's unique run over its inputs writes both |
| `VectorExact.AcceptedExactly` | scripts/reservation_settlement/audit.py:86-216 | a vector is accepted exactly when every step is as described by the history and the records alone, nothing carried from step to step: later observations name the receipt of the registration and the receipt just before, start in its result and are not earlier; commands, authority, context, transition and receipt are spelled out; the replay is the context, the economic receipts and all records so far; the result is the capacity machine's |
| `Refusals.RowRefusal` | scripts/reservation_settlement/audit.py:101-106 | a record is refused for the first that fails of schema bounds, identity and hash, scope and size |
| `Refusals.FilingRefusal` | scripts/reservation_settlement/audit.py:54-69 | a record is refused for a used identity, or else exactly for two different references of one kind and identity among those filed, its own and those that occur anywhere in it |
| `Refusals.AuthorityRefusal` | scripts/reservation_settlement/audit.py:130-137 | an authority is refused for the first that fails of evidence, activity, revision, the permission to read, the permission for the kind of step, and the order of permissions |
| `Refusals.ObservationRefusal` | scripts/reservation_settlement/audit.py:121-138 | an observation is refused for the first check that fails, in the audit's order and with its code |
| `Refusals.OpeningRefusal` | scripts/reservation_settlement/audit.py:141-143 | registration terms are refused for the first that fails of ranges, capacity and ceiling |
| `Refusals.StartRefusal` | scripts/reservation_settlement/audit.py:139-148 | a first step is refused for not registering afresh, for its terms, or for another checkpoint than the opening one |
| `Refusals.HeadRefusal` | scripts/reservation_settlement/audit.py:149-151 | a later step is refused for its links, or else for another state than the head |
| `Refusals.CloseRefusal` | scripts/reservation_settlement/audit.py:172-176 | a close is refused for the first that fails of range, revision, deadlines and early authority |
| `Refusals.TransitionRefusal` | scripts/reservation_settlement/audit.py:188-195 | a transition is refused for the first that fails of presence, references, states and amounts, and the receipt for not naming it |
| `Refusals.ReceiptRefusal` | scripts/reservation_settlement/audit.py:196-203 | a receipt is refused for the first check that fails, in the audit's order and with its code |
| `Histories.AuditUnique` | scripts/reservation_settlement/audit.py:86-217 | two accepted vectors with the same observed inputs are equal |
| `Histories.AuditPrefix` | scripts/reservation_settlement/audit.py:97-216 | acceptance is closed under prefixes |
| `Histories.StepsBeyondIgnored` | scripts/reservation_settlement/audit.py:230-231 | auditing the first steps does not depend on the history's later steps |
| `Histories.TruncationAccepted` | scripts/reservation_settlement/audit.py:230-231 | truncating an accepted history and its vector at one step gives an accepted pair with the journal of that step |
| `Lookups.AuditIndexed` | scripts/reservation_settlement/audit.py:213-215 | the delivery index of an accepted history holds exactly its steps, each under its own distinct key, with its command, its ingress, the bytes of its last record and the economic receipt named there |
| `Lookups.LookupExact` | scripts/reservation_settlement/audit.py:76-84 | for any command and ingress the reply is a refusal exactly without permission to read; with it, a duplicate with a step's own composite exactly for that step's own command and ingress, a conflict exactly when only the key is a step's, and absence otherwise |
| `Lookups.RetryStable` | scripts/reservation_settlement/audit.py:227-246 | a step's own command and ingress get its own composite at the step and after every later accepted step |
| `Replays.ReplayExact` | scripts/reservation_settlement/audit.py:204-212 | the replay of receipt n is exactly the external references used so far, all records of earlier steps and the step's records before the receipt |
| `Replays.ClosureCount` | scripts/reservation_settlement/audit.py:204-212 | the size of the closure is the context, one economic receipt per step that is no close, and every record |
| `Replays.RecordsAreRevisions` | scripts/reservation_settlement/audit.py:186-188 | a history of n steps has two records a step and one more for every revision |
| `Replays.ReplayCount` | scripts/reservation_settlement/audit.py:208-210 | the size of the n-th replay in closed form |
| `Replays.HistoryBound` | scripts/reservation_settlement/audit.py:210 | with the limit of 1024 no accepted history has more than 508 steps, below the 512 that two records a step would give |
| `LongHistory.LengthsExact` | scripts/reservation_settlement/audit.py:86-217 | for every length up to 508 there is a history, with texts as the audit wants them, whose vector is accepted under every measure of bytes that is compact on its rows; for no greater length is any accepted |
| `LongHistory.SizesExact` | scripts/reservation_settlement/audit.py:104-107 | the measure of bytes decides nothing but whether every written row and step is within the two limits |
| `LongHistory.CompactFits` | scripts/reservation_settlement/audit.py:104-107 | rows that take at most 240 bytes for each reference in them and 4096 for the rest are within the limits in every accepted vector |
| `Conflicts.ReplayNeverConflicts` | scripts/reservation_settlement/audit.py:58-69 | on the journal of any accepted prefix, once a step's filing, observation and receipt checks have passed, retaining its replay closure cannot report an identity conflict: the closure is refused only for not being stated exactly or for its size |
| `Conflicts.ClosureRegistered` | scripts/reservation_settlement/audit.py:114-120 | the whole closure of such a step is already among the filed references |
| `AcceptedHistories.AuditIsRun` | scripts/reservation_settlement/audit.py:97-216 | the book of an accepted history is the capacity machine's run of the observed actions |
| `AcceptedHistories.AcceptedHistory` | scripts/reservation_settlement/audit.py:86-217 | accounting, net bound, revision bound and length bound of every accepted history, together |
| `AcceptedHistories.AcceptedMonotone` | scripts/reservation_settlement/audit.py:97-217 | between any two points of an accepted history the maximum is constant, consumed and released never fall, held and the revision move one way |
| `AcceptedHistories.AcceptedCloseIsFinal` | scripts/reservation_settlement/audit.py:97-217 | after an accepted close no later step of an accepted history changes the state or is an ordinary claim |
| `AcceptedHistories.AcceptedHeldRefusal` | scripts/reservation_settlement/audit.py:159-171 | after an accepted history held capacity refuses a step only if a correction of that history lowered a claimed positive amount |
| `AcceptedHistories.AcceptedExceeding` | scripts/reservation_settlement/audit.py:156-188 | in an accepted history the live amounts exceed what is not released only after a close that took effect and a raising correction |
| `Validator.RetainReference` | scripts/reservation_settlement/audit.py:58-61 | filing one reference in the registry table succeeds exactly when the registry with it stays free of conflicts, and otherwise changes nothing |
| `Validator.RetainAll` | scripts/reservation_settlement/audit.py:206-212 | filing a set one by one gives the union, or the conflict, whatever the order |
| `Validator.FileRows` | scripts/reservation_settlement/audit.py:114-120 | the loop over a step's records and their references computes the registries of the specification, or its error |
| `Validator.SumParts` | scripts/reservation_settlement/audit.py:160-161 | the loop's positive and negative sums are the totals of the specification |
| `Validator.DecideStep` | scripts/reservation_settlement/audit.py:153-188 | the imperative decision of a step is the machine's |
| `Validator.AcceptStep` | scripts/reservation_settlement/audit.py:97-216 | the imperative step over the running tables is the specification's step, with the same error |
| `Validator.Validate` | scripts/reservation_settlement/audit.py:86-217 | the loop over a whole history accepts exactly the audited vectors, returns their record count and delivery index, and otherwise the audit's own error code |
| `Unicode.DecodeEncoded` | scripts/contract_checks/check_m5_contract.py:44-45 | strict UTF-8 decoding undoes encoding |
| `Unicode.EncodeDecoded` | scripts/contract_checks/check_m5_contract.py:44-45 | encoding undoes strict decoding, so each text has one accepted byte spelling |
| `Unicode.Utf16Injective` | scripts/contract_checks/check_m5_contract.py:64 | keys of scalar values have distinct UTF-16 sort keys |
| `Unicode.KeyTotal` | scripts/contract_checks/check_m5_contract.py:64 | the key order is total and strict on encodable keys |
| `Unicode.SupplementaryBeforePrivateUse` | scripts/contract_checks/check_m5_contract.py:64 | the order is by UTF-16 units: every supplementary character sorts before the private use area, against code point order |
| `KeyUnits.KeyBelowExact` | scripts/contract_checks/check_m5_contract.py:64 | a key is below another exactly when it is a proper beginning of it or smaller in the first UTF-16 unit where they differ |
| `KeyOrder.SortTogether` | scripts/contract_checks/check_m5_contract.py:64-68 | sorting moves members along with their keys: lists with the same keys are rearranged alike |
| `KeyOrder.SortPermutes` | scripts/contract_checks/check_m5_contract.py:64 | sorting only reorders |
| `KeyOrder.SortSorts` | scripts/contract_checks/check_m5_contract.py:64 | sorted entries are strictly increasing in the key order |
| `KeyOrder.SortedUnique` | scripts/contract_checks/check_m5_contract.py:64 | entries have one strictly ordered arrangement |
| `KeyOrder.SortCanonical` | scripts/contract_checks/check_m5_contract.py:64 | two insertion orders of the same entries sort to the same list |
| `Reader.Pairs` | scripts/contract_checks/check_m5_contract.py:32-38 | the dictionary is filled pair by pair, refuses exactly the lists with a repeated key, and otherwise maps every key to its value |
| `RoundTrip.StringRead` | scripts/contract_checks/check_m5_contract.py:75 | the reader undoes the printer's string escapes, whatever text follows |
| `RoundTrip.IntRead` | scripts/contract_checks/check_m5_contract.py:40-44 | the reader returns every safe integer from its printed digits and sign |
| `RoundTrip.ReadsBack` | scripts/contract_checks/check_m5_contract.py:28-75 | before any delimiter the text of a value is read as that value with its keys in order |
| `Faithful.CanonicalExact` | scripts/contract_checks/check_m5_contract.py:60-75 | a value has a canonical text exactly when it has no null, no unsafe integer, no surrogate and no level below 32 |
| `Faithful.NormalFormsDecide` | scripts/contract_checks/check_m5_contract.py:172-175 | two values are equal as dictionaries exactly when they agree after ordering their keys |
| `Faithful.NormalText` | scripts/contract_checks/check_m5_contract.py:63-68 | ordering a value's keys does not change its canonical text |
| `CanonicalForm.CanonicalFaithful` | scripts/contract_checks/check_m5_contract.py:28-75 | every admissible value has canonical bytes, and the strict reader applied to them returns the value |
| `CanonicalForm.CanonicalInjective` | scripts/contract_checks/check_m5_contract.py:60-75 | two admissible values share their canonical bytes exactly when they are equal, whatever the insertion order of their keys |
| `CanonicalForm.AssertCanonicalExact` | scripts/contract_checks/check_m5_contract.py:172-176 | a pinned text passes both checks exactly when it is the value's canonical bytes: the second check implies the first |
| `CanonicalForm.ReaderSound` | scripts/contract_checks/check_m5_contract.py:28-57 | whatever the strict reader accepts has no repeated key, is admissible, and is read again from its own canonical bytes |
| `CanonicalForm.DocumentsAgree` | scripts/contract_checks/check_m5_contract.py:28-75 | two accepted documents mean equal values exactly when their values print alike |
| `ReaderExact.StrictExact` | scripts/contract_checks/check_m5_contract.py:28-57 | the reader returns a value exactly for a document without a byte order mark that spells it by the JSON grammar, with any layout and any escapes, if the value has no null, no key twice, no surrogate, only safe integers and at most 32 levels |
| `Shortest.CanonicalShortest` | scripts/contract_checks/check_m5_contract.py:60-75 | no document that means the same is shorter than the canonical text, and one as short with its keys in order differs at most in the case of hexadecimal digits |
| `Shortest.CanonicalDenotes` | scripts/contract_checks/check_m5_contract.py:60-75 | the canonical text is such a document itself: it spells the value with its keys in order |
| `Shortest.EscapeSpells` | scripts/contract_checks/check_m5_contract.py:75 | the printed escape spells its character, with hexadecimal digits in lower case |
| `Shortest.CharShortest` | scripts/contract_checks/check_m5_contract.py:75 | no spelling of a character is shorter than the printed one, and any as short differs only in the case of hexadecimal digits |
| `Shortest.ReadNoShorter` | scripts/contract_checks/check_m5_contract.py:75 | whatever string the reader reads, surrogates included, is printed at least as shortly |
| `Rounding.FractionIsNumber` | scripts/contract_checks/check_design.py:33-35 | the rounding of a fraction depends on the number only, not on its numerator and denominator |
| `Rounding.RoundAwayExact` | scripts/contract_checks/check_design.py:33-35 | the result is the one integer nearer than a half, or the one away from zero at exactly a half |
| `Rounding.RoundAwayNear` | scripts/contract_checks/check_design.py:33-35 | the result is within a half of the number |
| `Rounding.RoundAwayOdd` | scripts/contract_checks/check_design.py:33-35 | rounding commutes with negation |
| `Rounding.RoundAwayMonotone` | scripts/contract_checks/check_design.py:33-35 | rounding is monotone |
| `Rounding.RoundAwayWhole` | scripts/contract_checks/check_design.py:33-35 | whole numbers are fixed |
| `Rounding.RoundedSum` | scripts/contract_checks/check_design.py:130 | rounding n lines one by one and rounding their sum differ by at most half of n, rounded down |
| `Rounding.RoundedSumTight` | scripts/contract_checks/check_design.py:130 | no smaller bound holds for any n |
| `Allocation.OrderRanks` | scripts/contract_checks/check_design.py:41 | the ranking lists every part once, by larger remainder and then by position |
| `Allocation.LeftBounds` | scripts/contract_checks/check_design.py:42 | the slice of the ranking is never negative and never the whole list |
| `Allocation.PartsShape` | scripts/contract_checks/check_design.py:39-43 | the parts are the floors plus one for the highest ranked, exactly as many as the floors leave over |
| `Allocation.AllocateExact` | scripts/contract_checks/check_design.py:38-44 | for weights with a non-zero sum the parts sum to the total, each is within less than one of its exact share, and a whole share is met exactly |
| `Allocation.AllocateMonotone` | scripts/contract_checks/check_design.py:38-44 | of non-negative weights the larger one gets at least as much magnitude, equal weights differ by at most one in favour of the earlier, and no part has the opposite sign of the total |
| `Allocation.AllocateNegates` | scripts/contract_checks/check_design.py:38-44 | allocating the negated total negates every part |
| `Allocation.AllocateOptimal` | scripts/contract_checks/check_design.py:38-44 | no whole-number split of the same total has a smaller total absolute deviation from the exact shares |
| `Allocation.PartsUnique` | scripts/contract_checks/check_design.py:40-43 | the allocation is the only split into floors and floors plus one with the total's sum whose bumped parts outrank the others |
| `AllocationParts.AllocateSpelled` | scripts/contract_checks/check_design.py:38-44 | a part is the floor of its share, and one more exactly when fewer parts are ahead of it by remainder and then by position than the floors leave over; a negative total negates it |
| `Allocation.AllocateInPlace` | scripts/contract_checks/check_design.py:38-44 | the loop that increments the list of floors computes the allocation |
| `Decimals.DecimalAccepts` | scripts/contract_checks/check_phase0.py:63-69 | a text is accepted exactly when it has the grammar, at most 64 characters, and fewer than 31 significant digits once trailing fractional zeros are gone |
| `Decimals.DecimalPreserves` | scripts/contract_checks/check_phase0.py:62-70 | the normal form denotes the number of the text |
| `Decimals.DecimalIdempotent` | scripts/contract_checks/check_phase0.py:62-70 | the normal form is its own normal form |
| `Decimals.DecimalDecides` | scripts/contract_checks/check_phase0.py:62-70 | two accepted texts have the same normal form exactly when they denote the same number |
| `DecimalText.DecimalExact` | scripts/contract_checks/check_phase0.py:62-70 | told on characters: a text of at most 64 characters becomes exactly the spelling of its number without a dispensable zero, if that has at most thirty digits that count |
| `Amounts.AmountNormal` | examples/non-admitting-billing-journey/run.py:121-129 | atoms below ten to the thirty at a scale of at most eighteen are shown in the decimal normal form, and the number shown is the atoms at that scale |
| `DecimalText.AmountAccepts` | examples/non-admitting-billing-journey/run.py:123 | an amount is displayed exactly for digits without a leading zero behind at most one minus sign |
| `Amounts.NumeralDigits` | examples/non-admitting-billing-journey/run.py:123 | a canonical amount text is the numeral of the number it denotes, so the statements below cover every one |
| `Amounts.AmountInjective` | examples/non-admitting-billing-journey/run.py:121-129 | different atoms are never shown alike at one scale |
| `Amounts.AmountSigned` | examples/non-admitting-billing-journey/run.py:125-129 | a negative amount is its magnitude behind the sign, with minus zero kept as it is |
| `Amounts.DisplayNormalExact` | examples/non-admitting-billing-journey/run.py:121-129 | atoms below ten to the thirty at a scale of at most eighteen are displayed in their own decimal normal form exactly when they carry no sign |
| `Amounts.MinusZero` | examples/non-admitting-billing-journey/run.py:121-129 | at every scale zero is shown as 0 and minus zero as -0, which is no decimal text |
| `OutboxSafety.VerifiedKept` | examples/integration/billing_outbox.py:78-95 | a claimed receipt that an honest explanation verifies is kept for the operation under the account, whoever claimed it |
| `OutboxWorld.VerifiedExact` | examples/integration/billing_outbox.py:85-94 | an explanation verifies a receipt exactly when one line and no other is for it and the operation |
| `OutboxWorld.ReceiptFitsExact` | examples/integration/billing_outbox.py:48-61 | a receipt can be saved exactly over a file that says the same in whatever layout, or beside none if the pending name is free or holds its very text |
| `OutboxSafety.BoundSurvives` | examples/integration/billing_outbox.py:37-66 | a power failure keeps the marker, the request and the acknowledged receipt of an outbox that has sent something |
| `OutboxWorld.SurvivorsExact` | examples/integration/billing_outbox.py:37-45 | after a power failure a name has any version its directory was not synced past, with its contents if they were synced and with anything otherwise |
| `OutboxSafety.StepSafe` | examples/integration/billing_outbox.py:37-154 | every step keeps the invariant, whether nothing outside, only explanations or only answers may be trusted: file operation, torn write, submission, false claim, lost reply, kill, power failure, restart, submission by others |
| `OutboxSafety.RunSafe` | examples/integration/billing_outbox.py:37-154 | the invariant holds after every run |
| `OutboxRuns.OneRequest` | examples/integration/billing_outbox.py:131-144 | over any run everything sent carries the same bytes, which are the request file on disk for good, under the marker's scope |
| `OutboxRuns.OneBooking` | examples/integration/billing_outbox.py:98-154 | over any run, with retries, kills and power failures, at most one of the outbox's own submissions adds to the ledger |
| `OutboxRuns.OneAcceptance` | examples/integration/billing_outbox.py:131-154 | over any run the ledger holds the work that the outbox sent at most once, and while the ledger's answers are its own every receipt saved or acknowledged is that acceptance |
| `OutboxRuns.ReceiptWhole` | examples/integration/billing_outbox.py:48-66 | over any run a receipt file that is there is a whole receipt, never a part; with trusted answers the one the ledger keeps for the request, with honest explanations one it keeps for the operation |
| `OutboxRuns.ReceiptsVouched` | examples/integration/billing_outbox.py:78-154 | whatever receipts are claimed, with honest explanations every receipt saved or acknowledged is kept by the ledger for the operation of the request file, under the marker's account |
| `OutboxRuns.ReceiptNeverChanges` | examples/integration/billing_outbox.py:48-66 | while the ledger's answers are its own, a receipt file that is there at two points of a run has the same contents at both |
| `OutboxRuns.SealedForever` | examples/integration/billing_outbox.py:62-66 | once the receipt file and its name are on disk the file never changes, whatever is claimed or explained |
| `OutboxRuns.AcknowledgedForever` | examples/integration/billing_outbox.py:62-66 | over any run an acknowledged receipt stays on disk through whatever happens later, and what is known of it stays known |
| `OutboxRetry.RetryExact` | examples/integration/billing_outbox.py:98-154 | an undisturbed retry of a request sent before acknowledges exactly when it is told a receipt, true or not, the explanation verifies it, and it is saved already or none is and the pending name is free or holds it |
| `OutboxRetry.ToldExact` | examples/integration/billing_outbox.py:144-151 | the ledger's own answer gives the caller a receipt exactly when the ledger then keeps it for the event, accepted now or before |
| `OutboxRetry.RetryProgresses` | examples/integration/billing_outbox.py:98-154 | once the ledger holds the work, however the reply was lost, an undisturbed retry that the ledger answers acknowledges the receipt of that very acceptance, given an explanation with that one line and no other pending file |
| `OutboxRetry.AnswerFits` | examples/integration/billing_outbox.py:48-66 | while the ledger's answers are its own, its answer to a retry never differs from a receipt saved before |
| `OutboxStuck.StuckForever` | examples/integration/billing_outbox.py:56-61 | with a torn marker or request nothing is submitted any more, and with a torn pending receipt and none saved nothing is acknowledged, whatever follows |
| `OutboxStuck.StuckReached` | examples/integration/billing_outbox.py:37-61 | each of the three can happen to a fresh outbox, even with true answers or honest explanations |
| `OutboxClaims.SourceMayDiffer` | examples/integration/billing_outbox.py:78-95 | honest explanations are not enough for more: told a false receipt, an outbox may acknowledge that of another source's event of the same operation |
| `OutboxClaims.ReceiptMayChange` | examples/integration/billing_outbox.py:48-66 | told two receipts around a power failure, an outbox may replace a receipt file whose name was not on disk yet, even under honest explanations |
| `OutboxCaller.Process.SaveNew` | examples/integration/billing_outbox.py:37-45 | creating, writing and syncing a new file are four steps of the machine and leave the file on disk for good |
| `OutboxCaller.Process.Ensure` | examples/integration/billing_outbox.py:124-130 | a file is kept when it holds the data, written when absent, and anything else stops the caller; then the file and its name are synced |
| `OutboxCaller.Process.SaveReceipt` | examples/integration/billing_outbox.py:48-66 | the receipt is sealed and acknowledged exactly when it can be saved |
| `OutboxCaller.Process.Deliver` | examples/integration/billing_outbox.py:98-154 | the exit code is 0 exactly under the stated conditions on files, told receipt and explanation, acknowledging that one receipt; 8 exactly for a lost reply to a submitted request, with marker and request on disk for good; the ledger is handed the request exactly when both files fit; every operation is a step of the machine |
| `Includes.WalkAppend` | scripts/build_workflow.py:91-100 | validating a path part by part is compositional |
| `Includes.ChildResolves` | scripts/build_workflow.py:107-115 | following an include from a spelled path and from the file it names leads to the same file |
| `IncludeRules.ResolveExact` | scripts/build_workflow.py:91-106 | a path names a file exactly when it leads to one, never above the root or through a link, and the file is no database, key, certificate or `.env` file |
| `IncludeRules.CapturedExact` | scripts/build_workflow.py:128-132 | it is captured exactly when that file's path has at most 1024 characters |
| `IncludeRules.SeedsExact` | scripts/build_workflow.py:80-83 | the capture starts from the files of the crates but their build output, the fixed inputs and the optional ones there are |
| `Selection.FollowedExact` | scripts/build_workflow.py:84-133 | the files named by the reached paths are exactly those that a chain of includes leads to in which every scanned literal is spelled as a Rust source |
| `Selection.ClosureExact` | scripts/build_workflow.py:84-133 | the selection is the static include closure, by resolved file, exactly when whatever an unscanned source includes is captured on another account |
| `Selection.AllScannedExact` | scripts/build_workflow.py:107-115 | every captured Rust source is scanned exactly when each one named by a path that ends in a parent step is also reached under a Rust spelling |
| `Selection.ScannedClosure` | scripts/build_workflow.py:84-133 | when every captured Rust source is scanned, the selection is the static include closure |
| `Selection.PlainEndsScanned` | scripts/build_workflow.py:107-115 | where no seed and no literal ends in a parent step, every captured Rust source is scanned |
| `LostSource.SourceLost` | scripts/build_workflow.py:107-115 | a tree whose source is named by a literal that ends in a parent step: it is captured, and the file it includes, which is in the closure, is not |
| `Worklist.IterationsInvariant` | scripts/build_workflow.py:107-115 | after any number of iterations, ending or not, known paths are reached, scanned sources have all children known, and every other known source waits |
| `Worklist.StoppedExact` | scripts/build_workflow.py:107-115 | where nothing waits, the known paths are exactly the reached ones and every source among them resolves |
| `Selection.Follow` | scripts/build_workflow.py:107-115 | without a detour cycle the loop ends as some number of iterations does, with exactly the reached paths, or with nothing exactly when a reached source cannot be read |
| `Selection.Capture` | scripts/build_workflow.py:128-133 | the captured map holds exactly the files the paths name, or nothing when one cannot be captured |
| `Selection.Selected` | scripts/build_workflow.py:79-134 | without a detour cycle: the files that scanning follows with their bytes, which is the include closure when every source is scanned, or nothing exactly when a reached path cannot be captured |
| `Recapture.SameSeeds` | scripts/build_workflow.py:80-83 | the capture has the same seeds as the tree |
| `Recapture.RecaptureSame` | scripts/build_workflow.py:248 | selecting on the captured files captures the same files with the same entries, and the same again; its loop ends exactly when the first one does |
| `IncludeCycles.FewLongs` | scripts/build_workflow.py:107-115 | without a detour cycle, a chain of includes has at most one several-part literal more than there are files |
| `IncludeCycles.FiniteExactly` | scripts/build_workflow.py:86-115 | the reached paths stay in a finite set exactly when no scanned source includes itself through a literal of several parts |
| `IncludeCycles.FinishesExactly` | scripts/build_workflow.py:86-115 | some number of iterations from the seeds leaves nothing waiting exactly when there is no such cycle and every reached source can be read |
| `IncludeCycles.NeverEnds` | scripts/build_workflow.py:107-115 | with such a cycle and every reached source readable, the loop is still going after any number of iterations |
| `IncludeCycles.SelfIncludeNeverEnds` | scripts/build_workflow.py:113-115 | one source that includes itself through its parent directory keeps the loop going after any number of iterations |
| `DependencyWalk.ClosedReachable` | scripts/check_boundaries.py:46-58 | a set closed under dependencies holds everything reachable from its members |
| `DependencyWalk.DeniedExact` | scripts/check_boundaries.py:11-55 | a name is denied exactly when it is listed, of a listed outside family, or one of the core's own three dependents |
| `DependencyWalk.Walker.Walk` | scripts/check_boundaries.py:49-57 | one call explores exactly clean reachable packages with all their children seen, or finds a reachable package that is not clean; it ends on cyclic graphs |
| `DependencyWalk.Walker.WalkCore` | scripts/check_boundaries.py:46-58 | the walk passes exactly when no package reachable from the core is denied, forbidden or missing, and has then seen exactly the reachable ones |

## Left out

Reservation settlement:

- Spellings: timestamps are ordered integers, identifiers opaque strings (the three that the audit
  prescribes by name are constructors of their own types), atoms and revisions integers with their
  ranges; the text, URL, timestamp and digit grammars are not modelled.
- JSON Schema is modelled only where it bounds more than the record types do (counts, ranges, repeated
  items, and that a family has a receipt exactly when it is claimed).
- SHA-256 is modelled by free terms, so digests never collide; the byte lengths behind the two size
  limits are a parameter (`Sizes`).
- Sorted arrays (families, replay) are modelled as the maps and sets they denote; a history with two
  families of one identifier, and the order checks on those arrays, are not.
- The fixed inventory of review files, the attack mutations and the command line of the audit.

Canonical JSON:

- Text is encoded to UTF-8 once at the end, where the printer encodes each piece; both are the
  concatenation of the same bytes.
- Python's `True == 1` makes two dictionaries equal that differ in a Boolean and a number; `Same`
  tells them apart.
- Python's recursion limit on deeply nested documents.
- The other printers of the repository (`check_design.py`, `codec.py`, `build_workflow.py`), which
  allow null or any depth.

Money:

- Weights and amounts are exact reals where the source has exact fractions; the rest of the worked
  examples in `check_design.py` is arithmetic on fixed numbers.

The outbox:

- The parsing of the event, the permissions and the links of the directory, and the wording of
  messages. `Outbox.Bytes` names whole file contents; anything a torn or damaged file may hold is
  covered by the other constructors.
- OutboxRuns.ReceiptNeverChanges: assumes that the ledger's answers are its own;
  `OutboxClaims.ReceiptMayChange` shows what false claims can do and `OutboxRuns.SealedForever` what they cannot.
- The Node.js version of the caller.

Closures:

- Includes through `CARGO_MANIFEST_DIR` and the refusal of computed includes, used for test sources;
  absolute literals; files that cannot be read as text.
- Selection.Follow: as a method the loop is given only where it ends, `!Growing(tree, seeds)`; on every
  other tree it is `Worklist.Iterations`. With a detour cycle and a reached source that cannot be read
  the loop may end by failing, which depends on the order of the work.
- The other checks of the dependency graph (version pins, active features, workspace members).

Not modelled at all: the Rust engine and its stores, the command line, the journeys, packaging,
freeze and inventory checks over fixed data.
