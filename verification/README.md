# A verified model of STEGO's gates, compiler passes and image protocols

This project models the parts of STEGO where one wrong step would go unseen: what a gate decides and what its
decisions keep over a whole history, what the code-standard analysis may conclude from syntax alone, what renaming the
references of a constructor call does to its meaning, how many bytes a registry connection can deliver whatever the
interleaving, which bytes an inventory and a component digest stand for, and what an account check leaves behind in a
cluster that answers late.

Each module follows one part of the source. Code that updates things step by step is a method proved against a
specification; code made of expressions is a function with lemmas about it.

| modules | what they model |
|---|---|
| `Order`, `Text`, `Words`, `Wrappers` | the order of Go strings, sorting, and the functions of Go's `strings` package that the rest uses |
| `Coverage`, `LatheCheck` | shares, standings, and reading them from the output of Lathe |
| `Ratchet`, `History` | the ratchet of the change gate, and what it keeps over a history of accepted changes |
| `Decision`, `Reasons`, `ReadReasons` | the texts of reasons, their fixed order, and reading a printed reason back |
| `ProofRun`, `Verify`, `Ledger`, `Gate` | proof runs, the choice among attestations, the ledger, and the two gates |
| `Imports`, `DomainOrder`, `PackageDomains` | which domain may import which, through packages of no domain too |
| `GoSyntax`, `Literals`, `Stub`, `StubMeaning`, `StubWatch` | functions that are stubs, and what being one means when the function runs |
| `Glob` | the globs of test files |
| `ConstructorSyntax`, `ConstructorMeaning`, `ConstructorReferences` | renaming the references of a constructor call, in place and in two passes |
| `Naming` | the names that the assembler gives to imports and values, and when it renames a reference twice |
| `RegistryBudget` | the request count and the byte budget of one registry connection, step by step |
| `Json`, `Inventory`, `Digest`, `Numerals` | the two encodings that digests are taken of |
| `Documents`, `Cluster`, `Journal` | the journal of the account check, against a cluster that may act late |
| `Cleanup` | the cleanup of the account check as a step system beside that cluster, and what it can leave |

## What was found

Most properties hold as the code and its comments promise. In these places one does not, and the exact condition is
proved instead:

- A value reference right before a dot is renamed twice when its new name is itself a package that is renamed:
  `handle.Get()` becomes `store2.Get()` when `handle` becomes `store` and the package `store` becomes `store2`.
  `ConstructorMeaning.SafeMaps` gives the exact condition on the two maps, and `TwoPasses` the one for a given call.
  The one caller that renames can reach this. It keeps imports from the names of standard packages and of the language,
  but values only from some of them (`internal/compiler/assembler.go:425-435` and `1063-1098`), and it numbers values
  that share a base name. Its maps rename nothing twice exactly when no name that imports may not take, and values may, is the
  base name of a value with a number that the value can come to (`Naming.MapsRenameNothingTwice`): a package
  `internal/md5` beside `crypto/md5` and five `NewMd` constructors break that (`MdIsRenamedTwice`). References to a value
  with several producers are refused (`internal/compiler/constructor_dependencies.go:13-74`); the arguments that are
  accepted all come out as intended exactly when the *only* value of a base name cannot come to such a name
  (`ArgumentsAreRenamedRightly`). A package `internal/base32` beside `encoding/base32`, three `NewBase` constructors in
  three components and one `NewBase3` break that too: `base3.Get()` becomes `base322.Get()` (`Base3IsRenamedTwice`).
- A function whose parameter is the key of a literal of a *named* map type is flagged as reading no input, although
  its result depends on it. `StubMeaning.LooksUpNoInputExactly` says exactly when a flagged function looks up no input,
  and `StubWatch.UsedInputsTell` that a run which uses one comes out differently for some other value of it.
- A retirement reason is read back as a code-standard fault exactly when the retirement's ID starts with
  `(ST-STD-CODE-R` and the successor's ID ends with `):` (`ReadReasons.ReadRetired`).
- A fault's or another fixed reason whose text ends as a workflow reason does is read as one, and a fault whose key
  holds `): ` is read with the key cut there. `ReadReasons.ReadFault` and `ReadFixed` give the exact conditions.
- With a retirement, a count can fall while no share is lost. Over any history, it can fall only where an obligation
  ends in a plain removal or two of them have one heir (`History.OwnHeirsKeepTheCount`), and each of the two can lower
  it (`RemovalLowersACount`, `MergeLowersACount`).
- The ledger stops early for automated records alone; a record in another state can lose its last pass
  (`Ledger.AnotherStateCanLoseItsPass`). A row is right exactly when it shows a pass or no commit past the walk has one
  (`Ledger.LastPassExactly`); so every row that shows a pass is, and every row of a walk to the end (`ShownIsLast`).
- The 64-bit request counter holds back all but 128 requests exactly while there are fewer than 2^63 of them
  (`RegistryBudget.AtMost128Exactly`), and every number of requests can be made (`RegistryBudget.AnyNumberOfCalls`).
- A cleanup that is complete can leave an object behind when a create was still in flight as it *began*: the create can
  land after the last read of its path and before the report, and then nothing is in flight. The objects that complete
  cleanups can leave are exactly those of such creates (`Cleanup.LeavesExactlyTheLate`), so a complete cleanup is sure
  to leave nothing exactly when no create was in flight as it began (`Cleanup.SureExactlyWithNoCreateInFlight`).

## Model

| member | source | states |
|---|---|---|
| ConstructorReferences.Transform | internal/compiler/constructor_references.go:19-131 | refuses what is no call; refuses exactly the ambiguous calls; every other call becomes, in place, what the two passes make of it; and tells exactly which renamed names the arguments refer to as values |
| ConstructorReferences.Renamer.CheckClosures | internal/compiler/constructor_references.go:33-47 | the call becomes ambiguous exactly when some closure in it mentions a renamed value or package |
| ConstructorReferences.Renamer.MarkTypes | internal/compiler/constructor_references.go:49-84 | excludes exactly the identifiers of types and the keys of struct literals, and finds exactly the keys that need type information |
| ConstructorReferences.Renamer.MarkSelectors | internal/compiler/constructor_references.go:85-100 | excludes exactly the names after a dot and the packages before one, and finds exactly the packages that are dependencies too |
| ConstructorReferences.Renamer.RenameValues | internal/compiler/constructor_references.go:101-111 | each identifier that is not excluded gets its new name, every other keeps its own, and the observer sees exactly the names that were renamed |
| ConstructorReferences.Renamer.RenamePackages | internal/compiler/constructor_references.go:116-125 | each identifier right before a dot gets its new name as a package, and no other changes |
| ConstructorReferences.ByIdentOne | internal/compiler/constructor_references.go:48-112 | renaming every identifier that is not in the exclusion set is the first pass over the tree, when each identifier stands in one place |
| ConstructorReferences.ByIdentTwo | internal/compiler/constructor_references.go:116-125 | renaming every identifier right before a dot is the second pass over the tree |
| ConstructorMeaning.TwoPasses | internal/compiler/constructor_references.go:48-125 | for an argument that is not refused, the two passes rename each reference as intended if and only if no value before a dot is renamed again as a package |
| ConstructorMeaning.SafeMaps | internal/compiler/constructor_references.go:19-125 | every argument that is not refused is renamed as intended if and only if no value that is no package gets a name that is itself a package to be renamed |
| ConstructorMeaning.GetIsRenamedTwice | internal/compiler/constructor_references.go:116-125 | for each value outside that condition, an accepted argument comes out with the package's new name |
| ConstructorMeaning.RenamingKeepsMeaning | internal/compiler/constructor_references.go:12-131 | a call that is not refused, with nothing renamed twice, means in the renamed environment what it meant before, in every compositional meaning of the constructs |
| ConstructorMeaning.Meaning | internal/compiler/constructor_references.go:48-112 | an argument renamed as intended evaluates to the same where each name stands for what it stood for |
| ConstructorMeaning.PlainMeaning | internal/compiler/constructor_references.go:116-125 | types and the called function keep their meaning under the second pass alone |
| ConstructorMeaning.TwiceChangesMeaning | internal/compiler/constructor_references.go:101-125 | a value renamed twice turns a method of the value into a member of a package |
| Naming.Names.Disambiguate | internal/compiler/assembler.go:1656-1675 | the search over numbers gives exactly the specified name, and leaves exactly the specified counts and names in use |
| Naming.GivenNameIsNew | internal/compiler/assembler.go:1656-1675 | the name given is not in use: the base name exactly when that is free, or else the base name with the first number, from 2 on and past the count, that makes a new name |
| Naming.NameImports | internal/compiler/assembler.go:436-525 | the aliases and each component's renamed packages after all imports, those of one path shared |
| Naming.AliasesAreNew | internal/compiler/assembler.go:436-525 | after any imports each alias is new, and whatever is renamed found its name reserved or taken by another import |
| Naming.ValidateBases | internal/compiler/assembler.go:1780-1804 | accepts exactly the components whose constructors have base names of their own, none of them predeclared |
| Naming.NameValues | internal/compiler/assembler.go:1080-1165 | the name of each value in turn, and the renamed values that its expression sees: those of first producers named before it |
| Naming.ValuesAreNumbered | internal/compiler/assembler.go:1140-1165 | after any values, each renamed one is the base name of an emitted value with a number from 2 on past the count, and was not taken |
| Naming.MapsRenameNothingTwice | internal/compiler/assembler.go:420-525 | over all services: the maps of no value rename anything twice if and only if no name reserved for imports alone is a base name, not predeclared and no package, with a number past its count |
| Naming.MdIsRenamedTwice | internal/compiler/assembler.go:1842-1895 | where md5 is reserved for imports alone, some accepted service has maps that rename a value twice |
| Naming.ReferencesAreRenamedOnce | internal/compiler/constructor_dependencies.go:13-74 | over all services: no value with one producer is renamed twice if and only if there is no such name whose base name is taken, or is itself a name that a value can come to |
| Naming.ArgumentsAreRenamedRightly | internal/compiler/assembler.go:1146-1158 | over all services and all arguments that are accepted, each is renamed as intended under exactly that condition |
| Naming.Base3IsRenamedTwice | internal/compiler/assembler.go:1842-1895 | where base32 is reserved for imports alone, some accepted argument of some accepted service is renamed wrongly |
| StubMeaning.StubIgnoresItsInputs | internal/assure/code_standard.go:1125-1151 | a function flagged for reading no input ends alike, with the same results, effects, deferred calls and panics, for any two values of its parameters and receiver, if the keys taken for field names are field names |
| StubMeaning.LooksUpNoInputExactly | internal/assure/code_standard.go:1219-1256 | a flagged function looks up none of its inputs if and only if each identifier key that names an input, outside map types written out, is a field name |
| StubMeaning.ReadsCovers | internal/assure/code_standard.go:1223-1256 | in an expression where no read is found, the names that running it looks up are disjoint from the inputs exactly under that condition on keys |
| StubMeaning.SameExec | internal/assure/code_standard.go:1219-1256 | a statement that looks up no input runs alike in environments that differ on the inputs alone: loops, assignments, scopes, switches on values and types, selects, goroutines, deferred calls and named results included |
| StubMeaning.NamedMapKeyIsMissed | internal/assure/code_standard.go:1219-1222 | for every named map type and every key parameter the function is flagged, and yet its results differ for keys that the literal tells apart |
| StubWatch.UsedInputsTell | internal/assure/code_standard.go:1125-1151 | the converse of noninterference, for every function and world: where a run does anything with the value of an input, some world and two values of the inputs end it differently |
| StubWatch.StubUsesOnlyKeys | internal/assure/code_standard.go:1219-1256 | a flagged function has such a run only if some identifier key that names an input is no field name |
| StubWatch.EvaluatedKeyIsNoted | internal/assure/code_standard.go:1219-1222 | and such a key is used whenever its literal is made |
| StubWatch.NotedIsTold | internal/assure/code_standard.go:1219-1256 | what is used after any statements of the body is told in the end, however the rest of the body goes on |
| StubWatch.KeyedByInputIsUsed | internal/assure/code_standard.go:1219-1222 | the function that gives a literal of a named map type keyed by an input has such a run in every world where the literal can be made |
| StubWatch.WatchWatches | internal/assure/code_standard.go:1219-1256 | watching adds nothing of its own: from unmarked values and an unnoted state every operation gives the same |
| StubMeaning.StubComputesNothing | internal/assure/code_standard.go:1153-1174 | the body of a function flagged for computing nothing panics in every world, or the function leaves the same state and results whatever the functions it could call do, error makers aside |
| StubMeaning.ConstantMakesNoCall | internal/assure/code_standard.go:1182-1217 | a constant evaluates alike in any two worlds that differ only in what calls do, error makers aside |
| Stub.StubOf | internal/assure/code_standard.go:1125-1151 | a stub with inputs reads none of them, a stub without inputs only returns constants or panics, and nothing else is a stub |
| Stub.Inspector.Visit | internal/assure/code_standard.go:1223-1256 | the walk, which stops at the first read it finds, ends with a find exactly when an identifier of the expression reads an input |
| Stub.OnlyConstantsOrPanics | internal/assure/code_standard.go:1156-1175 | true exactly when each statement returns constants or calls panic |
| Stub.InputsOf | internal/assure/code_standard.go:1126-1143 | collects exactly the names that are not blank, and counts no input exactly when there is no field |
| Glob.MatchesGlobMeans | internal/assure/code_standard.go:784-798 | the matcher accepts exactly the paths that some group-free expansion of the glob, less a leading "./", lines up with |
| Glob.MatchPartsIsAligns | internal/assure/code_standard.go:800-819 | part by part: ** takes any run of parts, the empty one too, and every other part takes exactly one that matches it |
| Glob.ExpandsStep | internal/assure/code_standard.go:786-797 | an expansion replaces the first group by one of its choices until no group is left; a brace that is never closed is text |
| Text.PiecesOfSplit | internal/assure/code_standard.go:789-798 | splitting gives exactly the maximal pieces without a separator |
| Imports.SearchFrom | internal/assure/code_standard.go:690-730 | on every import graph the search ends, reaches exactly the packages that count and are imported directly or through bridges alone, and marks a package "" exactly when it is imported directly; the first edge may be a test import, later ones may not |
| Imports.Search.Visit | internal/assure/code_standard.go:692-715 | a visit adds only bridges and ways that lead on from its target, and leaves nothing it newly saw unfollowed |
| Imports.SeenIsFollowed | internal/assure/code_standard.go:692-715 | whatever a path of bridges from a bridge that was seen leads to was reached |
| DomainOrder.FaultsOf | internal/assure/code_standard.go:724-768 | one fault for each package reached against the order, no two of one, each with the ways the package came to the other |
| DomainOrder.ImportAgainstOrder | internal/assure/code_standard.go:633-770 | exactly one fault for each pair of packages against the order, through any number of bridges, and none besides |
| DomainOrder.PairsAgainst | internal/assure/code_standard.go:735-742 | the pairs of different domains of the two packages that the order does not allow |
| DomainOrder.AllowedDescends | internal/assure/code_standard.go:578-596 | each import the order allows goes to a domain that stands lower |
| DomainOrder.NextDomainIsAllowed | internal/assure/code_standard.go:616-632 | in a tree with no fault, the next package of a domain on an import path, past any bridges, is of the same domain or of one the order allows |
| DomainOrder.PathsDescend | internal/assure/code_standard.go:578-770 | in a tree with no fault, every import path between packages of domains ends in the domain it began in or in a lower one |
| DomainOrder.CyclesStayInOneDomain | internal/assure/code_standard.go:378-770 | in a tree with no fault, all packages of a domain on an import cycle are of one domain |
| PackageDomains.PackageDomains | internal/assure/code_standard.go:333-376 | each package gets exactly the domains of the records that name it, each once and in order, and the packages named are exactly those some record names |
| PackageDomains.DomainOfRecord | internal/assure/code_standard.go:291-299 | the longest domain ID that starts the record's ID, or none |
| PackageDomains.OneDomainPerRecord | internal/assure/code_standard.go:288-299 | that domain is unique, so the order of the map does not matter |
| PackageDomains.TwoDomains | internal/assure/code_standard.go:378-398 | a package has more than one domain exactly when records of two different domains name it |
| PackageDomains.PackageOfTwoDomains | internal/assure/code_standard.go:333-398 | from the files and the records: one fault for exactly each package under internal that records of two different domains name, in package order, with exactly the domains of its records |
| PackageDomains.NoFaultIsClean | internal/assure/code_standard.go:378-398 | no fault of the two rules is exactly a tree whose paths are known to descend, when the domains of its packages are those of the records |
| History.EveryHeirHoldsTheShare | internal/assure/gate.go:59-128 | over any history of accepted changes, each heir of an obligation holds at the end every share the obligation had at the start |
| History.NoHeirOnlyByRemoval | internal/assure/gate.go:59-128 | an obligation with a share has an heir unless a branch of its retirements ends in one with no successor |
| History.UnretiredStandsForItself | internal/assure/gate.go:73-128 | an obligation that no retirement names stands for itself to the end, with its shares |
| History.PatternRuleStaysInItsScope | internal/assure/gate.go:86-112 | when any step of a history drops a pattern rule in a scope and a retirement there follows it to a successor that has the scope, the heirs of that successor in the scope are heirs of the rule in the scope |
| History.CutPatternRule | internal/assure/coverage.go:258-263 | the name of a pattern rule in a scope gives back the rule and the scope |
| History.OwnHeirsKeepTheCount | internal/assure/gate.go:59-128 | over any history of accepted changes, a count does not fall unless an obligation with the share ends in a plain removal or two of them have one heir |
| History.NoCountFalls | internal/assure/gate.go:59-128 | with no retirement in the history, no obligation with a share is lost and no count falls |
| History.MergeLowersACount | internal/assure/gate.go:86-119 | any two obligations with a share can be merged into any third one by an accepted change, and then the count falls with nothing removed |
| History.RemovalLowersACount | internal/assure/gate.go:86-119 | and it falls when an obligation is retired with no successor |
| Ratchet.HoldsRatchet | internal/assure/gate.go:73-128 | the reasons are exactly the causes, by obligation ID and, for an absent one, by retirement ID, successor and share; there is none exactly when the ratchet holds; and the retirements followed are exactly those that let an obligation go, each line once, by obligation and then by retirement ID |
| Ratchet.Absent | internal/assure/gate.go:84-119 | for an absent obligation, a reason for each retirement and successor that lacks a share, or for there being no retirement, and no other |
| Ratchet.IndexRetirements | internal/assure/gate.go:74-77 | each retirement is listed under the obligation it retires |
| Ratchet.NoCauseIsHolds | internal/assure/gate.go:59-128 | no text is a cause exactly when the ratchet holds |
| LatheCheck.ReadLatheCheck | internal/assure/coverage.go:273-380 | accepts exactly the output that names each obligation once, gives each rule a chain, has no stray gap, and adds up; and gives the standing that the gaps leave each obligation |
| LatheCheck.EachGapRemovesItsShare | internal/assure/coverage.go:310-339 | in accepted output a gap removes its share from exactly its obligation, and built implies designed |
| LatheCheck.TotalsAreCounts | internal/assure/coverage.go:370-380 | the reported totals are the cardinalities of the obligations with each share |
| LatheCheck.ReportedCountsDoNotFall | internal/assure/gate.go:121-125 | across an accepted change with no retirement, no designed, built or proved count that Lathe reports falls |
| LatheCheck.ReadScopes | internal/assure/coverage.go:293-328 | sums the kinds of all scopes, collects exactly the shares the gaps say are missing, and names each rule in each scope |
| LatheCheck.ReadChains | internal/assure/coverage.go:340-355 | each chain that is no rule is an obligation once, each rule has one chain, and it refuses only what is not acceptable |
| LatheCheck.ReadScoped | internal/assure/coverage.go:356-364 | each rule in a scope has a chain of its rule and is an obligation once, and it refuses only what is not acceptable |
| Coverage.CountStandings | internal/assure/coverage.go:370-375 | counts each share of the standings, whatever the order of the map |
| Reasons.SortReasons | internal/assure/decision.go:231-242 | sorts and compacts: the result is strictly increasing in the fixed order and has exactly the same reasons |
| Reasons.FixedOrderIsTotal | internal/assure/decision.go:244-255 | the fixed order is a strict total order on all texts |
| Order.SortInPlace | internal/assure/decision.go:232-242 | sorts in place, keeping every element as often as it was there |
| Order.DropRepeats | internal/assure/decision.go:232-242 | drops repeats in place: what is kept is strictly increasing and has the same elements |
| ReadReasons.ReadFell | internal/assure/decision.go:109-111 | a reason for an obligation that fell is read back as that obligation and that share |
| ReadReasons.ReadAbsent | internal/assure/decision.go:113-121 | a reason for an absent obligation is read back as that obligation, before its shares |
| ReadReasons.ReadRetired | internal/assure/decision.go:123-129 | a retirement reason is read back as its obligation and share if and only if the retirement's ID does not start as a code rule while the successor's ends "):" |
| ReadReasons.ReadNot | internal/assure/release.go:76-79 | a reason for a lacking share is read back as that obligation and that share |
| ReadReasons.ReadFault | internal/assure/decision.go:143-165 | a code-standard reason is read back as its rule and key if and only if it has a key, the key does not hold the closing words, and the text neither ends as a workflow reason nor starts as one of two fixed ones |
| ReadReasons.ReadPlainFault | internal/assure/decision.go:143-165 | for a path without a space and such a key, if and only if the text does not end as a workflow reason |
| ReadReasons.ReadWorkflow | internal/assure/decision.go:137-141 | a workflow reason is read back as its file |
| ReadReasons.ReadFixed | internal/assure/decision.go:192-229 | the reasons with fixed first words are read in their sections if and only if they do not end as a workflow reason |
| ReadReasons.ReadNoOutcome | internal/assure/gate.go:35-57 | a record with no outcome is read back as that record |
| ReadReasons.ReadNotPassed | internal/assure/gate.go:35-57 | a record that did not pass is read back as that record |
| ReadReasons.ReadDidNotRun | internal/assure/gate.go:35-57 | a record that did not run is read back as that record |
| ReadReasons.KeysKeepTheOrder | internal/assure/decision.go:192-229 | the keys compare as the obligations do, even when one ID starts another |
| ReadReasons.ObligationsInOrder | internal/assure/decision.go:192-255 | reasons come by obligation first, and for one obligation in the order designed, built, proved, after the reason for its absence |
| ProofRun.OneOutcomePerTestRecord | internal/assure/proof_run.go:147-163 | one outcome per ID, in ID order, each the worst result with the detail of the first run that had it |
| ProofRun.OutcomeForEveryAutomatedTest | internal/assure/proof_run.go:77-93 | adds a failed outcome for exactly the automated records that have none, and keeps the order |
| ProofRun.ProofRunPassed | internal/assure/gate.go:35-57 | a reason for exactly the automated records that did not pass, in the order of their IDs, or the one reason why there is no proof run |
| ProofRun.MergedPasses | internal/assure/proof_run.go:80-163 | after merging and filling, a record has passed exactly when it ran and each of its runs passed |
| ProofRun.JudgeRuns | internal/assure/proof_run.go:80-178 | from any list of runs: merged, filled and judged, there is no reason exactly when every automated record ran and all its runs passed |
| Verify.VerifyAttestation | internal/assure/verify.go:277-336 | takes an accepted proof run that no accepted one is better than, none only when none is accepted; lists, by text, one refusal for each bundle that is refused and one entry for each that counts in another change alone; and says exactly when the workflow files alone are in the way |
| Verify.OrderDoesNotMatter | internal/assure/verify.go:277-344 | the same bundles in any order, with log indexes that differ, give the same proof run |
| Verify.ReleaseGradeWins | internal/assure/verify.go:338-344 | a release-grade proof run is taken whenever there is one, and the newest |
| Verify.NoChangeGradeWhileWorkflowsDiffer | internal/assure/verify.go:175-241 | no change-grade proof run is taken while the change alters workflow files |
| Verify.ReleaseGradeExactly | internal/assure/verify.go:175-241 | release grade is given exactly to a statement the trusted workflow signed at main, from a run at the commit, about exactly that commit |
| Verify.ChangeGradeExactly | internal/assure/verify.go:175-241 | change grade is given exactly to a statement the trusted workflow signed at the change's own reference, about exactly that commit, with no workflow file changed; with one changed it is refused for that alone, exactly then |
| Verify.ElsewhereExactly | internal/assure/verify.go:294-307 | an attestation is kept for another change exactly when no reference is gated and the trusted workflow signed it at a pull request's reference, about exactly that commit |
| Verify.WithNoChangeRefOnlyMain | internal/assure/verify.go:271-336 | with no change reference, only such a statement is taken, and one is taken if there is one |
| Verify.GradeIsRelease | internal/assure/attestation.go:73-96 | a signer has release grade exactly as the trusted workflow at main |
| Ledger.BuildLedger | internal/assure/ledger.go:79-153 | one row per test record in ID order, with the result at the commit and the last pass within the commits walked; the walk ends at the first commit with a proof run by which every automated record has passed, or else with the history; and what was refused at each commit walked is listed |
| Ledger.RefusalsAreListed | internal/assure/ledger.go:112-126 | a reason is listed for a commit exactly when the commit was walked, an attestation of it was refused for that reason, and none counts for a change alone with it |
| Ledger.ChangesAreListed | internal/assure/ledger.go:112-116 | exactly the change-grade attestations of the commits walked are listed apart |
| Ledger.TakeOutcomes | internal/assure/ledger.go:135-147 | takes the outcomes of one commit into the rows in place, and keeps the waiting set that of the automated rows with no pass |
| Ledger.Walk | internal/assure/ledger.go:105-151 | the rows after the walk are those of the commits walked, and it stops exactly there |
| Ledger.OneLedger | internal/assure/ledger.go:79-153 | the ledger of a commit is the only one for its history |
| Ledger.StoppingEarlyLosesNothing | internal/assure/ledger.go:95-153 | each automated record's last pass is the newest commit within the whole depth whose verified proof run passed it |
| Ledger.LastPassExactly | internal/assure/ledger.go:95-153 | a record of any state: its row has the newest pass within the whole depth if and only if the row shows a pass or no commit past the walk has one |
| Ledger.ShownIsLast | internal/assure/ledger.go:95-153 | a row that shows a pass, and every row of a walk to the end, has the newest pass within the whole depth |
| Ledger.AnotherStateCanLoseItsPass | internal/assure/ledger.go:95-153 | for any two commits, records and state but automated: with a proof run at the newer one that passes the automated record, the other record loses the pass it had at the older one |
| Ledger.NotPassedAt | internal/assure/ledger.go:155-167 | exactly the rows of proofs that did not pass, in the order of the rows |
| Ledger.LedgerAgreesWithTheReleaseGate | internal/assure/release.go:165-177 | the ledger has a proof and every automated row passed exactly when the release gate's judgement of the commit gives no reason |
| Gate.GateChange | internal/assure/gate.go:200-288 | made whenever both commits are full; passes exactly when the ratchet holds, the proof run passed and no fault is new; its reasons are exactly the causes, strictly in order, and its own rules never refuse it |
| Gate.GateRelease | internal/assure/release.go:157-218 | passes exactly when every obligation has every share, there is one, the proof run passed and there is no fault; its reasons are exactly the causes, strictly in order; and a passed decision is made only where the job signs as the trusted workflow at main, and names just that attestation |
| Gate.FullyProved | internal/assure/release.go:81-103 | a reason for exactly an empty spec, each lacking share and the proof run, in that order, by obligation, share and test record, and none exactly when fully proved |
| Gate.CheckRules | internal/assure/decision.go:257-322 | no error exactly when the decision names its commits, passes only without a reason, names every cause, and has its reasons strictly in order |
| Gate.InFixedOrder | internal/assure/decision.go:312-322 | comparing neighbours decides whether all reasons are strictly in order |
| Gate.NewFaults | internal/assure/gate.go:249-262 | a cause for exactly each fault whose rule and key the base head does not have |
| Gate.SameCausesSameReasons | internal/assure/decision.go:231-242 | the same causes in any order, and any number of times, give the same reasons |
| RegistryBudget.WithinTheBudget | internal/appbuild/image_registry_transport.go:144-192 | in every interleaving of requests and reads, at most 128 requests reach the registry, no body delivers more than its limit, and all together no more than the budget |
| RegistryBudget.NothingIsWithheld | internal/appbuild/image_registry_transport.go:144-192 | the first 128 requests all go through, and while neither the body nor the budget is spent every byte read and subtracted reached the caller |
| RegistryBudget.SpentStaysSpent | internal/appbuild/image_registry_transport.go:175-192 | once the budget is spent, nothing more is delivered |
| RegistryBudget.OverlongStaysRefused | internal/appbuild/image_registry_transport.go:175-192 | a body that gave more than its limit is never read again, whatever the step |
| RegistryBudget.BudgetDoesNotWrap | internal/appbuild/image_registry_transport.go:175-192 | overdrafts of all bodies together never wrap the 64-bit budget around |
| RegistryBudget.StepKeeps | internal/appbuild/image_registry_transport.go:144-192 | every step keeps the accounting: budget spent is bytes subtracted, delivered is at most that, per body and in all |
| RegistryBudget.AtMost128Exactly | internal/appbuild/image_registry_transport.go:144-146 | in every run, whatever its interleaving and sizes, at most 128 requests reach the registry if and only if fewer than 2^63 were made |
| RegistryBudget.AnyNumberOfCalls | internal/appbuild/image_registry_transport.go:144-146 | a request that is allowed can be made any number of times |
| RegistryBudget.TheCounterWraps | internal/appbuild/image_registry_transport.go:144-146 | so wherever a request is allowed, some run lets more than 128 through |
| RegistryBudget.OnlyTheLayerIsLarge | internal/appbuild/image_registry_transport.go:95-165 | a body may carry more than the metadata limit only as the layer, read from its own path or an approved blob origin without credentials, in an accepted response |
| RegistryBudget.RegistryBoundary.RoundTrip | internal/appbuild/image_registry_transport.go:89-167 | a request that is not allowed changes nothing; one that is counts, reaches the registry exactly while the count is at most 128, and an accepted response's body gets its limit and the shared budget |
| RegistryBudget.RegistryBody.Read | internal/appbuild/image_registry_transport.go:175-191 | the three steps of a read: what it asks for, what it subtracts, and what the caller gets |
| RegistryBudget.ReadIsThreeSteps | internal/appbuild/image_registry_transport.go:175-191 | a read that nothing comes between is those three steps of the system |
| Json.TuplesReadBack | internal/appbuild/inventory.go:122-157 | a JSON reader recovers exactly the tuples from the ASCII bytes, surrogate pairs and escapes included |
| Json.SameBytesSameTuples | internal/appbuild/inventory.go:122-157 | two lists of tuples have the same bytes exactly when they are equal |
| Json.AsciiIsAscii | internal/appbuild/inventory.go:135-157 | nothing but ASCII is written, for any text |
| Json.CharReadsBack | internal/appbuild/inventory.go:137-157 | each character, in both steps, is read back as itself, whatever follows it |
| Json.WriteAscii | internal/appbuild/inventory.go:145-156 | the buffer ends up with the text in which each character beyond ASCII is one unit or a pair |
| Inventory.SafeIsPlain | internal/appbuild/inventory.go:41-56 | a path is safe exactly when each part leads on downwards and its characters are allowed |
| Inventory.Walk | internal/appbuild/inventory.go:85-117 | accepts a walk exactly when every entry fits the limits, and collects exactly its files and bytes |
| Inventory.TakeInventory | internal/appbuild/inventory.go:80-133 | the files in the order of their paths, their number and bytes, and the digest of their ASCII JSON |
| Inventory.SameBytesSameFiles | internal/appbuild/inventory.go:80-157 | two trees have the same inventory bytes exactly when they hold the same files, whatever the order of the walk |
| Digest.ComponentDigest | internal/compiler/component_digest.go:33-66 | refuses exactly a name that is no folder and a component without a readable definition; otherwise the digest is the hash of the stream of its content in path order |
| Digest.SameDigestSameContent | internal/compiler/component_digest.go:25-66 | equal digests hold exactly when the components have the same files with the same bytes, so long as the hash tells apart the streams and the versions of each file |
| Digest.SameComponents | internal/compiler/component_digest.go:25-66 | so the digests of two components, of any names in any registries, are equal exactly when their contents are, under that condition on the hash |
| Digest.SameDigestSameFiles | internal/compiler/component_digest.go:18-66 | in terms of the files: with an encoder that writes different mappings differently, two digests are equal exactly when the other files are the same and the definitions have the same pairs apart from stage and sunset |
| Digest.OtherwiseACollision | internal/compiler/component_digest.go:52-66 | equal digests of different contents show a collision on the streams or on the data of one file |
| Digest.FramesAreUnique | internal/compiler/component_digest.go:55-64 | equal streams frame the same paths, each with data equally long and with the same hash |
| Digest.EightIsFormat | internal/compiler/component_digest.go:54-62 | eight bytes are wide enough for the length of every string and slice |
| Digest.RemoveLifecycle | internal/compiler/component_digest.go:69-99 | writes the mapping without the pairs whose key is stage or sunset, or nothing for what is not one mapping |
| Digest.KeptIsContent | internal/compiler/component_digest.go:80-87 | two mappings keep the same exactly when their other pairs are the same, in order |
| Digest.PromotionKeepsContent | internal/compiler/component_digest.go:22-25 | a change of the stage and the sunset alone leaves the content as it was |
| Digest.OnlyOwnFilesCount | internal/compiler/component_digest.go:25-44 | nothing outside the component's folder has a part in its content |
| Digest.PutUint64 | internal/compiler/component_digest.go:54-62 | writes the number into the reused array, highest byte first |
| Journal.Check.Create | scripts/check-allocation-account-identity.py:170-204 | sends nothing unless the path was seen empty, and then the one create, journaled with its mark, at most twice; success means a record and a resolved intent, on disk |
| Journal.Check.Attempt | scripts/check-allocation-account-identity.py:179-204 | one try ends with the object on record, an error, or, but for the last try, with nothing and the object still absent |
| Journal.Check.RecoverIntent | scripts/check-allocation-account-identity.py:159-168 | nothing there, or the object that the intent asked for, on record and the intent resolved; an object that differs is an error |
| Journal.Check.Remove | scripts/check-allocation-account-identity.py:232-251 | sends at most the one delete of the UID on record, and only when the object seen there has it and time is left; success means the path was seen empty; it gives up waiting only after sixty seconds or at the deadline; and it is a run of the step system |
| Journal.Check.WaitUntilGone | scripts/check-allocation-account-identity.py:247-251 | looks at most 61 times, gives up only after sixty seconds or at the deadline, and succeeds only when the path was seen empty |
| Journal.Check.Get | scripts/check-allocation-account-identity.py:124-150 | what it tells was so at some moment of the read; once the time is up it asks nothing and fails |
| Journal.Check.Cleanup | scripts/check-allocation-account-identity.py:414-453 | is a run of the step system from its start to its report; sends nothing but deletes, those of allocation namespaces before all others and none inside one; if it reports complete, an object of the check can be left only by a create that was in flight when it began |
| Journal.Check.RecoverAll | scripts/check-allocation-account-identity.py:417-424 | is a run of the first stage; with no error, each intent is resolved or nothing of the check is at its path, creates in flight aside |
| Journal.Check.Sort | scripts/check-allocation-account-identity.py:425-441 | the live allocation namespaces in the order of their records, and the other live records, the path that came last first, but for those inside an allocation namespace; every live record is among them unless its namespace goes |
| Journal.Check.LiveRecords | scripts/check-allocation-account-identity.py:427-428 | one live record per path on record, the last, and the paths in the order they came first |
| Journal.Check.CheckEach | scripts/check-allocation-account-identity.py:442-447 | is a run of the last stage; with no error, nothing of the check is at any of the paths |
| Journal.Check.Interlude | scripts/check-allocation-account-identity.py:178-204 | whatever the cluster does between two actions of the check keeps the journal true: each create in the cluster's hands was journaled first, each delete carries a UID on record |
| Journal.DeletesOnlyItsOwn | scripts/check-allocation-account-identity.py:232-244 | a delete that the cluster carries out, however late, removes nothing that is not the check's own |
| Journal.OwnByMark | scripts/check-allocation-account-identity.py:80-85 | an object that contains all the intent asked for, its annotation among it, is the check's own |
| Documents.ContainsTheMark | scripts/check-allocation-account-identity.py:80-85 | a document that contains all that a marked one asks for, dictionaries key by key and lists item by item, bears its mark |
| Documents.MarkedHasItsMark | scripts/check-allocation-account-identity.py:173-174 | a document with its mark set bears that mark, whatever annotations it had |
| Cleanup.CompleteLeavesOnlyLate | scripts/check-allocation-account-identity.py:414-453 | over every run of the cleanup, in every interleaving with the cluster: what a complete one leaves comes from a create that was in flight when it began |
| Cleanup.ALateCreateEscapes | scripts/check-allocation-account-identity.py:414-453 | for each create in flight as a cleanup begins, where what is at its paths is the check's own, a run deletes all of that, reports complete, ends with nothing in flight and leaves the object, with nobody else acting; where the paths are empty it changes nothing else |
| Cleanup.LeavesExactlyTheLate | scripts/check-allocation-account-identity.py:414-453 | complete cleanups that end with nothing in flight can leave objects of exactly the creates in flight when they began |
| Cleanup.SureExactlyWithNoCreateInFlight | scripts/check-allocation-account-identity.py:414-453 | a complete cleanup is sure to leave nothing of the check if and only if no create was in flight as it began |
| Cleanup.StepKeepsSound | scripts/check-allocation-account-identity.py:414-453 | what a cleanup without errors knows at each stage stays true whatever it or the cluster does next |
| Cluster.ClearStays | scripts/check-allocation-account-identity.py:414-453 | a path that is clear stays so whatever the cluster does, creates in flight aside |

## Left out

- Git, GitHub, Sigstore, Lathe, TLS and Kubernetes themselves: their answers are parameters.
- Parsing of JSON, YAML and Go, and printing of Go: the model starts from decoded documents and syntax trees and ends with trees.
- SHA-256 is a parameter that gives 32 bytes; no member says it has no collision, and those that need one told apart say which.
- The texts of errors and of refusals, `Decision.Text`, and the list of code faults kept with a decision.
- Keeping and handing over decisions, and the events that gates return.
- Reading the import graph from files and go.mod: `DomainOrder` starts from the graph. The folder that holds a file's package (`goPackageOf`) is a parameter of `PackageDomains`.
- The text that says how a package reaches another: a fault holds the ways themselves.
- `path.Match` is a parameter of `Glob`.
- The rest of `validateConstructorDependencies`, which uses the observer of the renaming.
- Ratchet.HoldsRatchet: the order of retirements with one ID is left open, as the source's sort leaves it.
- ConstructorReferences.Transform: the identifiers of a tree are told apart as objects, each in one place, as the parser makes them; which of several ambiguities the error names is not modelled.
- ConstructorReferences.Renamer.CheckClosures: does not go into a closure's own closures, because the outer one mentions all that they mention.
- ConstructorReferences.Renamer.RenamePackages: walks the identifiers and asks which stand right before a dot, where the source walks the selectors.
- Naming.NameImports: the imports come as one list in their order, each path with the last part of it; the imports of slots, fills and GORM, which no component renames, are its `Own` ones.
- Naming.NameValues: the values come in the order that the topological sort gives them, those that nothing consumes left out.
- Naming.ArgumentsAreRenamedRightly: of the check of dependencies it takes what it comes to for a name before a dot: a package, or a value with at most one producer.
- ConstructorMeaning.RenamingKeepsMeaning: whether a name before a dot is a package in the generated file is part of the environment, shadowing included.
- StubMeaning.SameExec: labels and goto are not in the syntax, and a closure captures values, not variables; what a deferred call, a goroutine or a select does is decided by the world that the statement holds for; how often a loop runs is bounded by a fuel that it holds for every value of.
- Stub.StubOf: finding the function that a record names, and matching its package, are not part of this model.
- ReadReasons.ReadFault: takes rules without spaces, as the analysis makes them, and paths that do not hold a code rule's opening words themselves.
- Ledger.BuildLedger: takes a log in which no commit is the empty text, and proof runs with one outcome per test record, as decoding leaves them; the text of a refusal is a parameter.
- Verify.VerifyAttestation: refusals are values, and the text of each is a parameter that sorts them.
- ProofRun.OutcomeForEveryAutomatedTest: the automated records come as a set; reading them from the spec is left out.
- RegistryBudget.OnlyTheLayerIsLarge: the checks on the URL and the headers come as one answer, and so does the form of a token request.
- RegistryBudget.RegistryBody.Read: states a read that no other one comes between; the interleavings are those of the step system.
- Inventory.TakeInventory: walking and hashing files is left out; entries come with their hash and size.
- Digest.ComponentDigest: reading and writing YAML are parameters, and what is below a node stays whole.
- Journal.Check.Create: marks are taken from a set that nobody else uses, as fresh UUIDs are; the path of a document is given with it.
- Journal.Check.Cleanup: which paths are allocation namespaces, or inside one, is a parameter; an object in a namespace that goes may vanish at any time.
- The probes of the account check (`install`, `exercise`) and the rest of `scripts` and `cmd`.
