# Verified models of Caldera and of the repository's checking scripts

Caldera is the deterministic simulation that `scripts/generate-caldera.py` generates as a Rue
program. It repeatedly does one thing two ways (breadth-first search and relaxation, bytecode and
interpreter, insertion and selection, batch run and replay) and compares the two at run time. This
project models those parts and proves that the comparisons can never fail, on all inputs, and what
each side computes. It also models four algorithms of the repository's scripts whose correctness
other checks rest on: the `ar` archive parser with its difference classifier, the substring test for
runs of page events, the derivation of source manifests, and the arithmetic of the shard plan.

Code that updates things in place is modelled by methods and classes (`World`, the parser's `State`,
the listener `Extract`), each proved equal to a function or against an outright specification; the
laws are lemmas about those functions.

Main results:

- **Running a file** (`Caldera.Execute`): every outcome of the command, traps and endless loop
  included, is characterised. It succeeds exactly on the texts that spell complete statements
  declaring a valid scenario, inside its grid, whose arithmetic fits 64 bits to the end; it then ends
  in the state that the scenario's ticks give, and its two internal cross-checks never fail. A bound
  on the declarations that can be checked beforehand is proved enough for a run without traps
  (`Caldera.RoomyScenarioFits`), and more ticks than another bound are proved to trap
  (`Caldera.TooManyTicksDoNotFit`).
- **Grid search**: `Navigation.Find` gives true shortest distances and visits tiles in the one
  breadth-first order there is; relaxation with early exit gives the same distances; the agreement
  check accepts every answer.
- **Language**: scanning and parsing accept exactly the spellings of statement lists, keywords in
  either case, unambiguously; what the statements declare; and which texts make the parser loop
  forever.
- **Ticks** (`Laws`): where every entity goes, what it decides and holds, which events a tick leaves
  and what it reports, stated on the world before and the world after.
- **Scripts**: lowering to bytecode preserves meaning, step count and stack depth included.
- **Scheduling**: insertion sort and selection both give the one ranking there is.
- **Runs**: for any number of ticks, what entities, funds, goods, events and snapshots do, and
  how they balance; and batch simulation, replay, rollback, lockstep and prediction agree.
- **Checksum**: one wrong hashed field always changes the checksum, in every state of every run of a
  scenario with room.
- **Archives**: parsing loses no byte and reads back what was written in every name format; two
  different archives are always told apart member by member; each list of the report means what its
  name says of the files' bytes (`Verdicts`); the verdict `reproducible` means equal trees without
  build paths.
- **Event runs, manifests, shards**: the substring test decides runs of events; derived manifests do
  not depend on where the checkout is and are read back as written; runner counts are minimal.

Findings, each with the lemma that shows it and the one that says exactly when it happens:

- A missing last semicolon makes the scenario parser loop forever: on every text that lacks only it
  (`Language.UnterminatedTextHangs`), for example `TICK 4` (`Language.TickFourHangs`); exactly when,
  by `Language.HangsIffCutShort`.
- A faction number near 2^63 passes the parser and the script, and then generating the world traps
  (`Caldera.HugeFactionDoesNotFit`); `Caldera.Execute` says when the command traps.
- The virtual machine's digest word overflows for operands the interpreter accepts
  (`Script.DigestWordCanOverflow`, `Script.LoweringIsCorrect`).
- Goods handed over that cannot be paid for vanish (`Economy.GoodsCanVanish`, with exactly when in
  `Economy.UnpaidTransfersVanish`). Resources for all consumption and transfers of a phase prevent it
  (`Economy.EnoughResourcesPayAll`); in a scenario of workers and builders alone it happens in every
  run of 58 ticks or more (`Caldera.LongRunsLoseGoods`).
- A separator inside a tag name makes the run test answer wrongly
  (`Gazette.SeparatorInTagIsMistaken`, `Gazette.FoundIffPieces`).
- A backslash before a hash is not read back from a manifest (`ManifestText.BackslashHashIsLost`,
  `ManifestText.EntryReadsBack`).
- With the root of the filesystem as the root, no path of one slash and a name is found, though each
  lies under it (`Manifest.RootOfFilesystemFindsNothing`); only the root itself and texts that begin
  with two slashes pass the test (`PosixPath.UnderNameless`).

The program's plain 64-bit arithmetic traps on overflow. Values are natural numbers; from parsing to
the end of a run, methods either return the trap as an outcome (`Lexer`, `Script`, `Caldera`) or
require what `Traps`, `Worldgen`, `Scheduler`, `Audits` and `Replay` state as fitting, and compute
through `U64` and `I64`, which demand it of every sum. `Caldera.Execute` discharges those demands or
ends in `Trapped`; `Bounds` proves them of whole runs. `Metric` models the wrapping multiplication.

## Model

| member | source | states |
|---|---|---|
| Metric.MixIsBijective | scripts/generate-caldera.py:49-51 | mixing is a bijection on 64-bit words: `Unmix` undoes it on both sides |
| Metric.MixInjective | scripts/generate-caldera.py:49-51 | different words stay different under mixing, in either argument |
| Metric.SingleFaultChangesDigest | scripts/generate-caldera.py:49-51 | two word lists of one length that differ in exactly one word never have the same digest |
| Checksum.Compute | scripts/generate-caldera.py:686-736 | the loops digest exactly the hashed fields of header, entities, tiles and events, in that order |
| Checksum.EntityNamesInPlace | scripts/generate-caldera.py:697-700 | the words of an entity: id, kind and faction are the first three |
| Checksum.EntityPositionInPlace | scripts/generate-caldera.py:700-702 | the fourth and fifth are x and y, shifted by 4096 |
| Checksum.EntityVelocityInPlace | scripts/generate-caldera.py:702-704 | the sixth and seventh are the velocity, shifted by 4096 |
| Checksum.EntityHealthInPlace | scripts/generate-caldera.py:704-711 | the eighth and ninth are health and energy, the last is 1 for the living |
| Checksum.EntityHoldingsInPlace | scripts/generate-caldera.py:706-710 | state, inventory, credits and experience are the tenth to thirteenth |
| Checksum.TileFieldsInPlace | scripts/generate-caldera.py:714-722 | each hashed field of a tile is its own word, in this order |
| Checksum.EventFieldsInPlace | scripts/generate-caldera.py:725-733 | each field of an event is its own word, in this order |
| Checksum.HeaderFieldsInPlace | scripts/generate-caldera.py:687-694 | each hashed field of the world itself is its own word, in this order |
| Checksum.EntityWordsAt | scripts/generate-caldera.py:695-712 | the fourteen words of an entity stand where those of the entities before it end |
| Checksum.SingleFaultDetected | scripts/generate-caldera.py:686-736 | worlds whose hashed words differ in exactly one place have different checksums |
| Checksum.EntityFaultDetected | scripts/generate-caldera.py:696-712 | one wrong hashed field of one entity changes the checksum |
| Checksum.TileFaultDetected | scripts/generate-caldera.py:714-724 | one wrong hashed field of one tile changes the checksum |
| Checksum.EventFaultDetected | scripts/generate-caldera.py:725-735 | one wrong field of one event changes the checksum |
| Checksum.HeaderFaultDetected | scripts/generate-caldera.py:687-694 | one wrong field of the world itself changes the checksum |
| Checksum.WordsDetermineEntity | scripts/generate-caldera.py:697-711 | the hashed words fix every hashed field, the signed ones included; only goal, previous position and ticks are not covered |
| Paths.StepsAreTargets | scripts/generate-caldera.py:322-352 | in a row-major world the four neighbour lookups are exactly the tiles one step away |
| Paths.PotentialBound | scripts/generate-caldera.py:1028-1052 | values growing by at most one each step bound every path from below |
| Navigation.Visit | scripts/generate-caldera.py:964-975 | offers one neighbour: queued with its distance when walkable and first seen, ignored otherwise |
| Navigation.OfferKeepsSearch | scripts/generate-caldera.py:964-975 | one offer keeps every invariant of the search |
| Navigation.RunIsSearch | scripts/generate-caldera.py:986-1003 | at every moment each tile is queued at most once, distances are path lengths, do not decrease along the queue and span at most one, and expanded tiles have reached their neighbours |
| Navigation.GoalAtHead | scripts/generate-caldera.py:990-995 | when the goal leaves the queue its distance is the length of a shortest path, below the tile count |
| Navigation.GoalNeverQueued | scripts/generate-caldera.py:989-1004 | when the queue runs out without the goal, no path leads to it |
| Navigation.RunIsRanked | scripts/generate-caldera.py:983-1003 | at every moment the queue ascends by where each tile was first seen from and then by side: east, south, west, north |
| Navigation.UsedUpIsOrder | scripts/generate-caldera.py:989-1004 | a used-up queue is the search order |
| SearchOrder.OrderIsUnique | scripts/generate-caldera.py:983-1003 | a grid has only one search order from a start |
| SearchOrder.OrderIsConnected | scripts/generate-caldera.py:983-1003 | it lists exactly the tiles that some path leads to |
| Navigation.Explore | scripts/generate-caldera.py:983-1003 | the loop ends with the goal's recorded distance or with a used-up queue, visiting and digesting the queue in order |
| Navigation.Find | scripts/generate-caldera.py:977-1006 | out-of-range positions give the empty answer; otherwise reached means connected, the distance is the least number of moves, below the tile count, the answer is valid, and the tiles visited and digested are those of the one search order up to the goal, or, without it, all that can be reached |
| NavigationOracle.Relax | scripts/generate-caldera.py:1014-1026 | one relaxation shortens the target by way of the source, and reports whether it did |
| NavigationOracle.WitnessExtended | scripts/generate-caldera.py:1021-1024 | a shortened distance is again the length of a path without repeated tiles, although the list is updated in place |
| NavigationOracle.Pass | scripts/generate-caldera.py:1038-1047 | a pass keeps distances sound, never longer, and carries every old distance across every edge |
| NavigationOracle.SettledByPass | scripts/generate-caldera.py:1036-1050 | after k passes every path of at most k moves is accounted for |
| NavigationOracle.StableIsDistance | scripts/generate-caldera.py:1048-1051 | when no edge can be relaxed, every recorded distance is the true one |
| NavigationOracle.Distance | scripts/generate-caldera.py:1028-1052 | relaxation with early exit computes the true distance within as many passes as there are tiles |
| NavigationOracle.Agrees | scripts/generate-caldera.py:1054-1059 | accepts a reached answer exactly when it carries the true distance, an unreached one exactly when the goal is out of reach |
| NavigationOracle.CrossCheck | scripts/generate-caldera.py:1294-1298 | search and oracle agree on every row-major world and all positions |
| Lexer.ScanAll | scripts/generate-caldera.py:457-491 | the cursor loop gives the tokens of the recursive scan, or traps on a number of more than 64 bits; what the tokens of words and numbers are is in the next rows |
| Lexer.WordKindReads | scripts/generate-caldera.py:441-455 | a word has a keyword's kind exactly when it has the length of the keyword's text and each byte is the letter there or its lower-case form, for every word and each of the 14 keywords |
| Lexer.ScanWord | scripts/generate-caldera.py:441-455 | the comparisons, one keyword after the other, find that kind |
| Lexer.WordEq | scripts/generate-caldera.py:431-439 | the loop compares a word, in upper case, with a text |
| Numerals.DecimalIsValue | scripts/generate-caldera.py:470-476 | digits have the value n exactly when they are the decimal numeral of n after any number of zeros |
| Lexer.ScanNumber | scripts/generate-caldera.py:470-477 | reads the maximal digit run and its decimal value; traps exactly when that value does not fit |
| Lexer.ScanIsWellScanned | scripts/generate-caldera.py:457-491 | exactly one EOF, last; offsets strictly increase; errors count the INVALID tokens; each NUMBER carries the value of its whole digit run |
| Spelling.ScanSpelling | scripts/generate-caldera.py:429-491 | scanning any spelling (keywords in either case, any blanks, comments, decimal numerals) gives exactly the tokens of its pieces at their offsets, without errors |
| Spelling.Decompose | scripts/generate-caldera.py:457-491 | every text scanned without errors is cut back into the pieces it spells |
| Spelling.CleanScanIffSpelling | scripts/generate-caldera.py:457-491 | a text scans without errors exactly when it is a spelling |
| Parser.State.Advance | scripts/generate-caldera.py:504-508 | returns the token under the cursor (INVALID past the end) and moves on unless at the end |
| Parser.State.Take | scripts/generate-caldera.py:509-513 | as advance, counting an error when the kind is another one |
| Parser.State.Recover | scripts/generate-caldera.py:563-566 | skips past the next semicolon or up to the EOF; reports when there is neither |
| Parser.Statement | scripts/generate-caldera.py:534-561 | consumes a statement's fixed number of tokens, counts its faults and declares its effect |
| Parser.Parse | scripts/generate-caldera.py:529-573 | the parser's loops compute the recursive parse, or never end exactly where it says so |
| Parser.NoProgressAtEnd | scripts/generate-caldera.py:501-566 | past the last token, however many tokens are consumed, the parser sees neither EOF nor a semicolon nor the start of a statement: neither loop ends |
| Parser.RecoveryEndsIffStop | scripts/generate-caldera.py:563-566 | the recovery loop ends after some number of tokens exactly when a semicolon or an EOF is left to find |
| Language.StatementsParse | scripts/generate-caldera.py:529-573 | complete statements parse to exactly their declarations, without errors, and the parser ends |
| Language.ParseIsStatements | scripts/generate-caldera.py:529-573 | a parse without errors read complete statements |
| Language.SpellingIsAccepted | scripts/generate-caldera.py:457-573 | every spelling of statements is scanned and parsed without errors into their declarations |
| Language.AcceptedIsSpelling | scripts/generate-caldera.py:457-573 | whatever is accepted is a spelling of complete statements |
| Language.AcceptedIffSpelling | scripts/generate-caldera.py:457-573 | a text is accepted exactly when it spells complete statements |
| Language.SpellingIsUnambiguous | scripts/generate-caldera.py:457-573 | a text spells at most one list of statements |
| Declarations.EntityIsDeclared | scripts/generate-caldera.py:537-546 | each entity statement declares, at its place among the entities, an entity of the kind its word names, with its numbers |
| Declarations.TileIsDeclared | scripts/generate-caldera.py:547-554 | each tile statement declares, at its place among the tiles, the terrain its word names |
| Declarations.LastOneHolds | scripts/generate-caldera.py:533-561 | the last size, tick count and expectation hold |
| Declarations.DefaultsHold | scripts/generate-caldera.py:529-561 | without a statement, the size is 8 by 8, the ticks are 4 and nothing is expected |
| Declarations.ValidIff | scripts/generate-caldera.py:568-573 | a scenario is valid exactly when its grid is not empty, some entity is declared, and as many as expected, if any are |
| Language.RoomMeansNoHang | scripts/generate-caldera.py:532-567 | with EOF last and room for every statement the parser ends, errors or not |
| Language.HangsIffCutShort | scripts/generate-caldera.py:504-567 | on streams that end in EOF the parser loops forever exactly when it comes to a statement that consumes at least all the tokens left |
| Language.MissingSemicolonHangs | scripts/generate-caldera.py:509-513 | statements of which only the last semicolon is missing make the parser loop forever |
| Language.UnterminatedTextHangs | scripts/generate-caldera.py:457-567 | every text that spells statements without the last semicolon scans without errors and is never done parsing |
| Language.TickFourHangs | scripts/generate-caldera.py:457-567 | the six bytes `TICK 4` are such a text |
| Script.Lower | scripts/generate-caldera.py:2828-2847 | the bytecode of a scenario; traps exactly when a sum of coordinates does not fit |
| Script.Execute | scripts/generate-caldera.py:2859-2881 | the machine's loop runs the instructions as the step function does |
| Script.DigestOfRun | scripts/generate-caldera.py:2864-2867 | for every program the digest covers exactly the instructions executed, in order |
| Script.Interpret | scripts/generate-caldera.py:2891-2901 | the interpreter computes the scenario's meaning or traps |
| Script.LoweringIsCorrect | scripts/generate-caldera.py:2828-2881 | the machine runs the lowered program to the interpreter's value in 6n+6 steps, never deeper than 3 (2 without entities), exactly when the interpreter does not trap and the digest words fit |
| Script.DigestWordCanOverflow | scripts/generate-caldera.py:2867 | an operand that the interpreter accepts and the machine traps on |
| Script.Verify | scripts/generate-caldera.py:2912-2917 | the script oracle is valid exactly when the scenario is |
| Worldgen.AddTiles | scripts/generate-caldera.py:588-604 | fills the grid row by row |
| Worldgen.AddEntity | scripts/generate-caldera.py:606-625 | adds a numbered entity with its starting values and occupies its tile, where none of the sums overflow |
| Worldgen.FromScenario | scripts/generate-caldera.py:645-677 | builds the world of a scenario, applying or diagnosing each declaration in order, where `WorldFits` says that generation does not trap |
| Worldgen.Demo | scripts/generate-caldera.py:627-643 | builds the demonstration world of a scale, where its sums fit |
| Worldgen.GeneratedIsNewborn | scripts/generate-caldera.py:645-677 | every generated world is row-major, passable where its terrain is, and holds living, rested entities numbered from 1 inside the grid; it is valid exactly when nothing is diagnosed |
| Worldgen.DeclarationsTakeEffect | scripts/generate-caldera.py:648-673 | entities inside the grid appear in order, the last paint of a cell wins, cells are walkable unless wall or water, and exactly the declarations outside are diagnosed |
| Worldgen.DiagnosticsNameDeclarations | scripts/generate-caldera.py:648-669 | the diagnostics name the tiles off the grid and then the entities off the grid, each by its place among the declarations |
| Worldgen.CellsShowSettlers | scripts/generate-caldera.py:606-625 | each cell shows the last entity declared on it, or none |
| Worldgen.TerrainLaw | scripts/generate-caldera.py:581-586 | the ground is water where the hash is a multiple of 23, else forest where it is one of 17, else plain |
| Worldgen.DemoIsNewborn | scripts/generate-caldera.py:627-643 | at every scale the demonstration world is valid and holds all its entities |
| Scheduler.Insert | scripts/generate-caldera.py:2966-2980 | one insertion keeps the elements and extends the sorted prefix |
| Scheduler.Build | scripts/generate-caldera.py:2956-2991 | insertion sort gives every living entity once, ascending by priority and index, and the schedule is valid, where the priorities fit 64 bits |
| Scheduler.BeforeLaw | scripts/generate-caldera.py:2951-2954 | who goes before whom, by weights: a sick entity by 100, a kind costs 11, a faction 7, a number 1, energy gains 1 |
| Scheduler.UrgencyLaw | scripts/generate-caldera.py:2951-2954 | what one more of each thing that is weighed does to a priority |
| Scheduler.RankingIsUnique | scripts/generate-caldera.py:2956-2991 | there is only one such order |
| Scheduler.SelectBest | scripts/generate-caldera.py:3007-3018 | picks the first in the ranking of the entities not yet ordered, or finds none |
| Scheduler.Select | scripts/generate-caldera.py:2999-3023 | repeated selection gives the ranking too |
| Scheduler.Agrees | scripts/generate-caldera.py:3025-3033 | accepts a schedule exactly when its order is the ranking |
| Scheduler.CrossCheck | scripts/generate-caldera.py:1290-1291 | insertion and selection never disagree |
| World.World.AddEvent | scripts/generate-caldera.py:354-359 | appends one event with the next sequence number |
| World.Clone | scripts/generate-caldera.py:2719-2741 | a new world of equal value: the copying loops give the same lists, field by field (lists are values here, so sharing storage cannot arise) |
| Simulation.ThinkOne | scripts/generate-caldera.py:3055-3071 | one entity's decision, its goal and its event |
| Simulation.IntegrateOne | scripts/generate-caldera.py:928-946 | one entity's turn of moving; where it goes is `Laws.MoveLaw`, and the event of a blocked move is in `Laws.EventLaw` |
| Simulation.TradeOne | scripts/generate-caldera.py:3118-3144 | one entity's production, consumption and transfer |
| Simulation.Think | scripts/generate-caldera.py:3051-3074 | the phase is the sweep of decisions; counts exactly the changed states |
| Simulation.Prepare | scripts/generate-caldera.py:905-922 | the phase is the sweep of new velocities |
| Simulation.Integrate | scripts/generate-caldera.py:924-949 | the phase is the sweep of moves; counts exactly the changed positions |
| Simulation.Trade | scripts/generate-caldera.py:3112-3148 | the phase is the sweep of trades; the ledger holds its totals and is valid |
| Simulation.Capture | scripts/generate-caldera.py:2749-2757 | appends a snapshot of tick, sizes and checksum |
| Simulation.TickStep | scripts/generate-caldera.py:2539-2550 | one tick is the step function; it reports the phases' counts and the checksum of the state it leaves; what a tick does is in the `Laws` |
| Tick.StepEntities | scripts/generate-caldera.py:2539-2550 | a tick treats each entity by itself: its next value depends on the entity and the ground, not on other entities' turns |
| Tick.StepFrame | scripts/generate-caldera.py:2539-2550 | what a tick leaves alone: terrain, size, commands, diagnostics and counters |
| Laws.MoveLaw | scripts/generate-caldera.py:924-946 | after a tick a living entity stands where its new velocity takes it if that cell is walkable, gaining a point of experience, and where it was otherwise |
| Laws.WalkableIsTile | scripts/generate-caldera.py:346-352 | in a row-major world the walkable cells are those of the walkable tiles |
| Laws.VelocityLaw | scripts/generate-caldera.py:899-917 | the new velocity on each axis is -1, 1 or 0 by the residue modulo 5 of twice the id plus three times the tick (plus 2 for y) |
| Laws.DirectionCycle | scripts/generate-caldera.py:899-903 | any five ticks in a row hold one step back, one forth and three rests on each axis |
| Laws.DecisionLaw | scripts/generate-caldera.py:3040-3072 | each decision and exactly when a living entity takes it; a new scout's goal is the remainder of its id and the tick by the number of tiles |
| Laws.HoldingsLaw | scripts/generate-caldera.py:3118-3142 | workers make three goods a tick, builders one; whoever then has eight hands over four for two credits |
| Laws.EventLaw | scripts/generate-caldera.py:3051-3072 | a tick leaves one event for each changed decision and then one for each blocked move, in the order of the entities, with these contents and consecutive numbers, and no other |
| Laws.ReportLaw | scripts/generate-caldera.py:2539-2550 | it reports how many entities changed their decision and their place from before to after the tick, and what the living workers and builders made |
| Economy.FundsConserved | scripts/generate-caldera.py:3126-3130 | resources and treasury gain what is produced and lose exactly the consumption charged; the treasury gains exactly the transfers paid |
| Economy.GoodsConserved | scripts/generate-caldera.py:3122-3142 | inventories change by produced minus transferred, credits by exactly half of what is transferred |
| Economy.PhaseConserves | scripts/generate-caldera.py:3112-3148 | the books of a whole phase, and that the ledger's validity test always holds |
| Economy.InventoryStaysSmall | scripts/generate-caldera.py:3122-3123 | a living entity that holds at most 8 ends the phase with at most 7 |
| Economy.UnpaidTransfersVanish | scripts/generate-caldera.py:3127-3130 | goods handed over reach the treasury in full exactly when each transfer finds the resources for it at its turn |
| Economy.EnoughResourcesPayAll | scripts/generate-caldera.py:3127-3130 | resources that cover the consumption and the transfers of a phase pay for every transfer, whatever is produced meanwhile |
| Economy.GoodsCanVanish | scripts/generate-caldera.py:3127-3130 | a worker with a full store and no resources hands over 4 goods that arrive nowhere |
| Accounts.EventsBalance | scripts/generate-caldera.py:2563-2583 | over any run events and experience together grow by the reported changes of state and one for each living entity and tick |
| Accounts.GoodsBalance | scripts/generate-caldera.py:2563-2583 | over any run inventories grow by the reported production less all transfers, credits by half of those, funds by the production less exactly the consumption charged; the treasury never shrinks |
| Accounts.ProducersLoseGoods | scripts/generate-caldera.py:2563-2583 | a world of workers and builders cannot keep all transfers paid: after enough ticks, some of what was handed over has not been received |
| Runs.RunKeepsWorld | scripts/generate-caldera.py:2563-2575 | over a run the ground never changes, the clock counts ticks and every third completes a quest |
| Runs.RunKeepsSelves | scripts/generate-caldera.py:2563-2575 | ids, kinds, factions, birth ticks, health and life never change; the dead do not change at all |
| Runs.StepOfEntity | scripts/generate-caldera.py:924-949 | in one tick a living entity moves at most one cell on each axis, only onto walkable cells |
| Runs.RunOfEntity | scripts/generate-caldera.py:2563-2575 | over n ticks it stays within n cells, never leaves the walkable grid once on it, and its energy is max(0, e - n) |
| Runs.RunNeverTraps | scripts/generate-caldera.py:697-704 | the checksum's casts and the scout's remainder stay defined after any number of ticks, in a grid narrow enough for the shift |
| Bounds.RunRanges | scripts/generate-caldera.py:2563-2575 | after k ticks of a run from a generated world every field is within a bound in k: positions in the grid, credits, stores, experience, funds, event numbers |
| Bounds.RoomyRunFits | scripts/generate-caldera.py:2539-2583 | if 64 bits have room for those bounds at the last tick, no sum, cast, audit or checksum of the whole run traps |
| Bounds.RoomyRunRanks | scripts/generate-caldera.py:2952-2953 | nor does any priority in any state of it |
| Bounds.TooManyTicksTrap | scripts/generate-caldera.py:901 | as soon as the last entity's direction in the last tick overflows, the run traps |
| Words.ReachableWordsFit | scripts/generate-caldera.py:686-736 | every hashed word of every state of a run with room is a 64-bit word |
| Words.ReachableFaultDetected | scripts/generate-caldera.py:696-712 | so in every such state one wrong hashed field of an entity changes the checksum |
| Runs.RunAppends | scripts/generate-caldera.py:354-359 | a run only appends events, numbered consecutively |
| Runs.RunKeepsTimeline | scripts/generate-caldera.py:878-894 | a run neither breaks nor mends what the event audit accepts |
| Runs.RunTakesSnapshots | scripts/generate-caldera.py:2749-2757 | each tick takes exactly one snapshot, of the state it leaves |
| Runs.RunKeepsSnapshotsOk | scripts/generate-caldera.py:2760-2773 | from snapshots in order, in particular from none at tick 0, they stay in order |
| Runs.RunIgnoresRollbacks | scripts/generate-caldera.py:2596-2604 | neither ticks nor checksums depend on the rollback count |
| Audits.AuditEvents | scripts/generate-caldera.py:878-894 | valid exactly when sequences strictly increase below the next one |
| Audits.AuditSnapshots | scripts/generate-caldera.py:2760-2773 | valid exactly when ticks strictly increase and there is at most one snapshot for each tick so far |
| Audits.AuditCollisions | scripts/generate-caldera.py:816-840 | counts entities off the grid and pairs that overlap, and digests who they are, where the counts fit; the pair count always meets its closed form |
| Replay.RunTicks | scripts/generate-caldera.py:2567-2574 | the loop ends in the n-th iterate of one tick with the sums of its reports |
| Replay.RunBatch | scripts/generate-caldera.py:2563-2583 | the whole result of a batch run that does not trap; valid exactly when world and timeline were |
| Replay.RunReplay | scripts/generate-caldera.py:2623-2637 | replays a clone: final checksum and timeline digest are those of the run |
| Replay.ReplayAgrees | scripts/generate-caldera.py:2647-2653 | accepts exactly the replays that end as the batch run does |
| Replay.RunLockstep | scripts/generate-caldera.py:2662-2675 | two clones run side by side never disagree |
| Replay.Restore | scripts/generate-caldera.py:2596-2604 | restoring and resimulating to a tick gives the checksum of running straight there |
| Replay.RollbackAgrees | scripts/generate-caldera.py:2606-2610 | accepts exactly that checksum, from a sound baseline not past the target |
| Replay.Predict | scripts/generate-caldera.py:2682-2687 | predicts the checksum that the run will have |
| Replay.CrossCheck | scripts/generate-caldera.py:1314-1325 | from any sound baseline and for any tick count that fits, batch, replay, rollback, lockstep and prediction agree |
| Caldera.ReachableIsHealthy | scripts/generate-caldera.py:2563-2583 | every state reachable from a generated world meets what searches and audits demand, with one snapshot a tick and energies counted down from 100 |
| Caldera.Play | scripts/generate-caldera.py:1134-1148 | from a parsed scenario to the end of its run: exactly when it is rejected as invalid or diagnosed, traps or succeeds, and the state it leaves |
| Caldera.Read | scripts/generate-caldera.py:1129-1133 | gives a scenario exactly for the accepted texts, and exactly which failure the others end in |
| Caldera.Execute | scripts/generate-caldera.py:1129-1148 | each outcome exactly: lexical and parse errors, the endless loop, invalid, diagnosed, trapped, done; success exactly on spellings of valid scenarios inside their grid whose arithmetic fits, with the final state of their ticks; script oracle and run are never found invalid |
| Caldera.RoomyScenarioFits | scripts/generate-caldera.py:1134-1148 | a bound on declarations and ticks that can be checked beforehand, under which a scenario accepted by the script runs without a trap |
| Caldera.TooManyTicksDoNotFit | scripts/generate-caldera.py:901 | a bound on the ticks from which on every scenario with an entity traps |
| Caldera.HugeFactionDoesNotFit | scripts/generate-caldera.py:614 | one declared worker whose faction is below 2^63 passes the parser and the script and traps in world generation |
| Caldera.ScenarioWordsFit | scripts/generate-caldera.py:686-736 | in every state of the run of such a scenario, every hashed word fits 64 bits |
| Caldera.LongRunsLoseGoods | scripts/generate-caldera.py:3127-3130 | every run of 58 or more ticks of a scenario of workers and builders loses goods |
| Caldera.Stress | scripts/generate-caldera.py:1419-1462 | both rounds are valid with neither oracle disagreeing, and the second gives the digest and counts of the first, at every scale with room |
| Caldera.SelfTest | scripts/generate-caldera.py:1283-1334 | on every generated world and for every tick count that has room, none of the modelled self-test checks traps or fails |
| Archive.ParseDetails | scripts/check-reproducible-build-metadata.py:74-151 | the loop gives the members of the recursive parse, or its first error |
| Archive.MemberLossless | scripts/check-reproducible-build-metadata.py:84-150 | one member's fields, name bytes, payload and padding are exactly the bytes up to the next header |
| Archive.ParseIsLossless | scripts/check-reproducible-build-metadata.py:74-151 | every accepted archive is rebuilt exactly from magic, members and trailing bytes, for every name format and a missing last pad byte |
| Archive.OccurrencesCount | scripts/check-reproducible-build-metadata.py:118-119 | each member is numbered by the earlier members of its name |
| Writing.MemberIsRead | scripts/check-reproducible-build-metadata.py:84-150 | a member written with a short, BSD or GNU name is read back with its name, sizes, fields and payload, whatever stands around it |
| Writing.WrittenIsRead | scripts/check-reproducible-build-metadata.py:74-151 | the round trip: any list of members that fit, string tables included, is read back member for member with nothing left over |
| Records.EmbeddedIffLeaks | scripts/check-reproducible-build-metadata.py:49-57 | paths are reported exactly when some path occurs in the bytes, although each is removed when found |
| Records.LongestIsFirst | scripts/check-reproducible-build-metadata.py:43-46 | longer build paths are replaced before shorter ones, those of one length in their order, and none is lost |
| ByteText.ReplaceMeans | scripts/check-reproducible-build-metadata.py:43-46 | replacing puts the token for each leftmost occurrence, one after the other, and leaves the pieces between alone |
| ByteText.CutIsUnique | scripts/check-reproducible-build-metadata.py:43-46 | there is only one way to cut data at the leftmost occurrences |
| ByteText.CutExists | scripts/check-reproducible-build-metadata.py:43-46 | and always one |
| Compare.CompareMember | scripts/check-reproducible-build-metadata.py:552-652 | the loops over the fields, with their flags for path-only names and for consequences of a changed BSD name, append the entries of a pair; what those mean is `Verdicts.FieldVerdict` and `Verdicts.PayloadVerdict` |
| Compare.MemberVerdict | scripts/check-reproducible-build-metadata.py:552-652 | a metadata field is listed exactly when its bytes differ; a name region exactly when it differs, as path-only exactly when all changed name regions agree once build paths are replaced; a format region exactly when it differs and does not follow from the length of a changed BSD name |
| Verdicts.FieldVerdict | scripts/check-reproducible-build-metadata.py:552-646 | the same in terms of the bytes of the two members and of those bytes once each one's build paths are replaced |
| Verdicts.PayloadVerdict | scripts/check-reproducible-build-metadata.py:567-652 | a pair of members is listed as path-only exactly when its payloads differ and agree once build paths are replaced, as different exactly when they differ and do not, as leaking exactly when a build path occurs in either |
| Compare.ChangedNames | scripts/check-reproducible-build-metadata.py:583-605 | the loop over name regions, absent tables included, with its running flag |
| Compare.ChangedFormat | scripts/check-reproducible-build-metadata.py:614-642 | the loop over format regions with its flag for consequences |
| Compare.CompareArchives | scripts/check-reproducible-build-metadata.py:536-680 | member entries, count, trailing bytes, and the fallback exactly when bytes differ and nothing was classified |
| Verdicts.ArchiveVerdict | scripts/check-reproducible-build-metadata.py:536-680 | everything said about the bytes of a pair of archives: another number of members, other trailing bytes, what is said of each pair of members, and never the fallback |
| Verdicts.RegularVerdict | scripts/check-reproducible-build-metadata.py:523-686 | everything said about a pair of regular files and exactly when: time, mode, build paths, a difference by build paths only, a real one |
| Verdicts.KindVerdict | scripts/check-reproducible-build-metadata.py:533-535 | files of different kinds are reported as different, and nothing else is said of their bytes |
| Compare.CompareRecords | scripts/check-reproducible-build-metadata.py:508-699 | for every common key, in sorted order, the report holds exactly the entries of its pair, and nothing else; the keys of one side only are listed sorted; reproducible as the lists say |
| Ordering.Sorted | scripts/check-reproducible-build-metadata.py:508-523 | the keys of a set, each once, ascending by code point |
| Ordering.SortingIsUnique | scripts/check-reproducible-build-metadata.py:508-523 | a set has one such listing |
| Reproducible.SilentMembers | scripts/check-reproducible-build-metadata.py:552-652 | members about which nothing is classified are the same in every part, whatever a changed BSD name suppresses |
| Reproducible.DifferentArchivesAreClassified | scripts/check-reproducible-build-metadata.py:536-680 | archives that differ in any byte are always classified member by member or by trailing bytes: the fallback is unreachable |
| Reproducible.PairVerdict | scripts/check-reproducible-build-metadata.py:523-686 | a pair is reported clean exactly when modes and contents are equal and no build path occurs in either |
| Reproducible.VerdictIsSameTrees | scripts/check-reproducible-build-metadata.py:508-699 | for inventories of distinct keys, reproducible holds exactly when both trees hold the same keys, kinds, modes and bytes, without build paths |
| Joining.OccursAtPiece | scripts/gazette-corpus-diff.py:1356-1377 | a joined text occurs in another only where a piece starts |
| Joining.RunsAreSubstrings | scripts/gazette-corpus-diff.py:1356-1377 | for pieces without separators, being a substring of the joined text is being a run of the pieces |
| Gazette.FoundIffPieces | scripts/gazette-corpus-diff.py:1360-1377 | for any two streams the body is found exactly when its separator-cut pieces are a run of the page's |
| Gazette.ContainsRunIsRun | scripts/gazette-corpus-diff.py:1360-1377 | for streams without separators the body is found exactly when its events are a contiguous run of the page's |
| Gazette.RunIsAlwaysFound | scripts/gazette-corpus-diff.py:1360-1377 | a contiguous run is found whatever the events hold |
| Gazette.SeparatorInTagIsMistaken | scripts/gazette-corpus-diff.py:732-738 | with a separator in a tag name an event is found that the page does not hold |
| Gazette.EncodeInjective | scripts/gazette-corpus-diff.py:1356-1357 | different events are encoded differently |
| Gazette.RunWithin | scripts/gazette-corpus-diff.py:1536-1542 | the direct search finds exactly the contiguous runs |
| Gazette.CrossCheck | scripts/gazette-corpus-diff.py:1360-1377 | on clean streams the substring test and the direct search decide the same |
| Gazette.SquashSquashes | scripts/gazette-corpus-diff.py:740-743 | collapsed text has single blanks between words only, and is empty exactly for blank text |
| Gazette.SquashKeepsWords | scripts/gazette-corpus-diff.py:740-743 | collapsing keeps all words of a text in their order, and puts one blank between any two |
| Gazette.WordsExist | scripts/gazette-corpus-diff.py:740-743 | every text can be cut into words and gaps |
| Gazette.KeepAttributes | scripts/gazette-corpus-diff.py:732-734 | of each attribute that counts the last value is kept, by ascending name |
| Gazette.KeptIsUnique | scripts/gazette-corpus-diff.py:732-734 | there is only one such list |
| Gazette.Extract.HandleStartTag | scripts/gazette-corpus-diff.py:732-734 | appends the start event with the attributes that count, rendered, and keeps the stream clean |
| Gazette.Extract.HandleEndTag | scripts/gazette-corpus-diff.py:736-738 | appends the end event unless the element is one of the six void ones |
| Gazette.Extract.HandleData | scripts/gazette-corpus-diff.py:740-743 | appends collapsed text unless it is empty; the stream stays clean whatever the text |
| PosixPath.NormpathIsIdempotent | scripts/rue-program-derive-manifest.py:66-68 | normalizing twice is normalizing once |
| PosixPath.UnderIsPrefix | scripts/rue-program-derive-manifest.py:79-89 | the text test for being under a named root decides containment of names, and the remainder is the text of the remaining names |
| PosixPath.UnderNameless | scripts/rue-program-derive-manifest.py:85-87 | a root without names contains only itself (one slash also whatever begins with two) |
| PosixPath.NothingIsUnderTheRoot | scripts/rue-program-derive-manifest.py:85-87 | no path of one slash and at least one name passes the text test under the root of the filesystem |
| PosixPath.InsideIsText | scripts/rue-program-derive-manifest.py:85-89 | for any root, named or not, the text test decides a relation of names, and the suffix with its slashes stripped is the text of the names after the root |
| PosixPath.RelpathResolves | scripts/rue-program-derive-manifest.py:201-207 | a written relative entry, resolved from the manifest's directory, is the entry |
| PosixPath.RelpathIsStable | scripts/rue-program-derive-manifest.py:201-207 | entries inside the checkout are spelled the same whatever the working directory |
| Manifest.Derive | scripts/rue-program-derive-manifest.py:116-200 | a manifest is written exactly when the scan is complete and the place of every accepted read is a declared source or has names that begin with those of the standard directory; it then holds exactly the reads, the absent candidates inside the project, and what the rule adds; an expected violation must be the only read outside; the violations reported are exactly the reads outside |
| Manifest.ReanchorIsPlace | scripts/rue-program-derive-manifest.py:76-90 | re-anchoring gives the text of the path's place: its names after the first root that contains it, below the directory that root stands for |
| Manifest.AllowedIsBoundary | scripts/rue-program-derive-manifest.py:144-149 | the text test of a re-anchored path is membership in the sources or containment of names in the standard directory |
| Manifest.MovedReanchors | scripts/rue-program-derive-manifest.py:76-90 | a path that moved with its root re-anchors to the same project path |
| Manifest.RootOfFilesystemFindsNothing | scripts/rue-program-derive-manifest.py:84-90 | with that root alone, no path of one slash and a name is re-anchored |
| Manifest.CarriedIsMoved | scripts/rue-program-derive-manifest.py:76-90 | for named roots nested alike, paths that keep their names under their root count as moved, whichever root they lie under |
| Manifest.RelocationInvariant | scripts/rue-program-derive-manifest.py:116-200 | scans of the same files whose paths moved with their roots, whatever the roots, are accepted alike and give the same entries |
| ManifestText.ReadEntry | crates/rue/src/source_loader.rs:1314-1342 | the reader's loop computes the unescaped, trimmed entry |
| ManifestText.EntryReadsBack | scripts/rue-program-derive-manifest.py:71-73 | an escaped entry is read back exactly when white space does not surround it and no hash follows an odd number of backslashes |
| ManifestText.BackslashHashIsLost | scripts/rue-program-derive-manifest.py:71-73 | an entry that is read back as another one |
| ManifestText.Load | crates/rue/src/source_loader.rs:684-699 | the reader's declared paths: one for each line that is not empty |
| ManifestText.ManifestDeclaresEntries | scripts/rue-program-derive-manifest.py:201-209 | the compiler reads from a derived manifest exactly the paths of its entries |
| Shards.CeilDivWithin | scripts/plan-cli-shards.py:50-51 | rounding up meets a bound exactly when the unrounded quotient does |
| Shards.DeriveRunnerCount | scripts/plan-cli-shards.py:246-272 | fails exactly for an item over the floor or a need above 64; otherwise gives the least count whose lanes carry the load, which is the rounded-up quotient |
| Shards.SkewWithinBudget | scripts/plan-cli-shards.py:359-365 | the rounded skew is within a budget exactly when max * n * 10000 <= sum * (10000 + budget) |
| Shards.CheckObserved | scripts/plan-cli-shards.py:372-398 | reports exactly the samples over the budget, once every sample has a positive wall for each runner of a derivable plan |

## Left out

- Navigation.Find: demands a row-major world of fewer than 2^64 - 1 tiles, which world generation is proved to give; a tile list of another shape, whose missing tiles read as walkable, is not searched.
- Worldgen.FromScenario: a world of 2^64 - 1 tiles or more counts as trapping, being too large to allocate; lengths of lists are otherwise taken to fit 64 bits.
- Scheduler.Build: demands of living entities energies of at most 100 and priorities below 2^64, without which the source's arithmetic traps; proved of every run with room.
- Replay.RunBatch: demands that no arithmetic of the run traps (`Replay.BatchFits`); `Caldera.Execute` makes the other case an outcome.
- Caldera.Execute: file reading and the printed report are not modelled; whether a run fits is decided by a predicate and not by trapping in the middle of it, so a trap leaves no partial state.
- Caldera.RoomyScenarioFits: enough, and not needed; the exact condition is the run-level predicate `Caldera.Fits`.
- Caldera.Stress: the generated audit, system, behaviour, rule and report suites are not modelled.
- Caldera.SelfTest: leaves out the self-test's checks of the artificial-intelligence oracle, regions, disassembly, comparison of worlds, economy digests, assets and generated suites.
- World.Clone: that the copy shares no storage with its source holds by construction, because lists are immutable values here.
- The parser's endless loop is the outcome `Hangs` instead of a method that does not end.
- Growable arrays are sequences; reading past their end is modelled where the program can do it (tokens, tiles of a lookup).
- Equality of worlds from equality of checksums (`delta.rue`, `desync.rue`): false up to collisions; only single faults are proved detected.
- The Python layer of the generator and its repetitive modules (assets, dialogue, quests, rendering, audio, persistence, reports, generated families).
- Archive.ParseDetails: sizes and BSD name lengths are decimal digits with surrounding blanks; signs and underscores, which Python's `int` accepts too, are errors in the model (the source goes on with a negative size, and need not advance); digits and blanks outside ASCII, and decoding of names and of the informational header strings are not modelled.
- Records.EmbeddedIffLeaks: build paths are byte strings as given; how they are computed from the checkout is not modelled.
- SHA-256 is a constructor, so distinct inputs have distinct digests.
- Compare.CompareRecords: details of an entry are its class, key, member and fields; the order of keys is that of code points.
- The inventory walk, command running and manifest of records around the classifier.
- Gazette.ContainsRunIsRun: how Python renders the attributes kept is a parameter that escapes control characters; white space outside ASCII is not collapsed.
- HTML parsing, site comparison and diagnosis of mismatches in the corpus script.
- Manifest.Derive: reading the envelope and list files, walking the standard tree and the order of sorted lines; the entries are a set.
- Manifest.CarriedIsMoved: roots are named directories; for roots without names the relation `Moved` has to be given.
- ManifestText.ManifestDeclaresEntries: the working directory is absolute, directory and entries are relative, and each line is legible, which `ManifestText.EntryReadsBack` shows is needed but for line breaks; whether the declared files exist is not modelled.
- Validation of the shard plan's evidence, the live graph inventory and the workflow matrix.
