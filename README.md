# Robot ecology lab: the simulation engine in Dafny

This project models the deterministic simulation engine of the robot ecology
lab (`app.js`). A population of robots lives on a width × height grid of
field, hill, building and master cells. Every random choice comes from one
seeded generator: a string seed is hashed with 32-bit FNV-1a and drives a
mulberry32 stream.

One call of `stepSimulation` does the following:

1. It ages every robot and removes those past `maxAge`, tallying the survivors.
2. When one robot or none is left, it stops the run and logs the collapse.
3. It collects the robots' (x, y, id) sites row by row and shuffles them with Fisher–Yates.
4. It gives each robot that is still on its site one turn:
   - on a hill, mining;
   - on the master cell, the master's test;
   - then one step in a random direction, which is a move when the target is empty, or else a mating or an attack.
5. It records the population, average and peak fitness in a history of at most 220 entries.

Notable events go to a log of at most nine entries, newest first.

## Structure

The model has two layers.

**Pure specification.** Each operation is a function that threads the
generator's 32-bit counter. It takes the counter as input and returns the
counter after its draws, so the draw order of the source is explicit.

| module | file | contents |
|---|---|---|
| `Random` | `random.dfy` | the generator and the hash |
| `Clamping` | `clamp.dfy` | `clamp` |
| `Genome` | `genome.dfy` | `computeStats` and the master's upgrade |
| `Robots` | `robots.dfy` | building new robots and children |
| `Grid` | `grid.dfy` | cells, worlds, `moveRobot` and the grid invariants |
| `Records` | `records.dfy` | the log and the history |
| `Resolvers` | `resolvers.dfy` | mining, `confrontMaster`, `combat`, `findEmptyCell` |
| `Aging` | `aging.dfy` | the aging pass and the site collection |
| `Shuffle` | `shuffle.dfy` | `shuffleArray` |
| `Acting` | `acting.dfy` | one robot's turn and the acting pass |
| `WorldGen` | `worldgen.dfy` | `createWorld` |
| `Step` | `step.dfy` | `stepSimulation` as a function on the whole state |

**Imperative model.** It works the way the source does.

- `Random.Mulberry32` is the closure with its mutable counter.
- `Engine.Simulation` is the object holding the configuration, the seed, the generator, the grid and the other state. Its methods update that state in place with loops.
- `Shuffle.ShuffleArray` swaps in an array.

Each method is proved to leave exactly the state that the specification
function computes. The properties proved of the specification therefore hold
of the running engine.

## Model

| member | source | states |
|---|---|---|
| Random.HashString | app.js:91-98 | the loop over the code units computes the FNV-1a hash (offset basis 2166136261, prime 16777619, modulo 2^32) of the whole string |
| Random.FnvStepInjective | app.js:94-95 | one FNV-1a step (xor, then multiplication by the odd prime) is injective in the code unit |
| Random.LastUnitDeterminesHash | app.js:91-98 | two strings that differ only in their last code unit never hash alike |
| Random.Mulberry32.constructor | app.js:100-101 | a generator starts with its counter equal to the seed |
| Random.Mulberry32.Next | app.js:102-108 | each call adds 0x6d2b79f5 to the counter modulo 2^32 and returns the mix of the new counter |
| Random.Uniform | app.js:107 | the value a call returns, raw output / 2^32, lies in [0, 1) |
| Random.ScaledIsFloorOfProduct | app.js:111-113 | the integer draw (r · max) div 2^32 equals floor((r / 2^32) · max) |
| Random.RandInt | app.js:111-113 | randInt(max) lies in [0, max) for max > 0 and is 0 for max 0; it consumes exactly one output |
| Random.RandomChoice | app.js:115-121 | randomChoice picks an element of the array, with one draw |
| Random.RandInts | app.js:169-176 | n draws in a row give n values, each below max, and advance the counter n steps |
| Random.RandIntsAt | app.js:111-113 | the k-th of n draws is the k-th output of the stream, scaled |
| Random.StreamAt | app.js:100-109 | the k-th output depends only on the seed and k: it is the mix of seed + (k+1) · 0x6d2b79f5 |
| Random.StreamPrefix | app.js:100-109 | the first m outputs are the same however many are drawn after them |
| Random.Mulberry32.NextInt | app.js:111-113 | a draw from the generator object agrees with RandInt on its counter |
| Random.Mulberry32.NextInts | app.js:169-176 | repeated draws from the object agree with RandInts |
| Random.Mulberry32.NextChoice | app.js:115-121 | a choice from the object agrees with RandomChoice |
| Random.FirstDraws | app.js:123-127 | seeding from a string and drawing n times yields the first n outputs of the stream seeded with the string's hash: the same seed always gives the same draws |
| Clamping.Clamp | app.js:129-131 | the result lies in [min, max] when min ≤ max; it is the value itself inside the range, min below it and max above it; when min > max the result is min, as Math.max(min, Math.min(max, v)) gives |
| Clamping.ClampIdempotent | app.js:129-131 | clamping twice is clamping once |
| Genome.ComputeStats | app.js:133-163 | interface = quickthinking + observantness + 2 · gene 6; for genes in [0, 255], quickthinking and visibility lie in [0, 255] |
| Genome.StatRanges | app.js:138-148 | bounds of all eleven statistics for genes in [0, 255]; range, maneuverability, dexterity, armorclass, fightskill and miningskill can be negative |
| Genome.StatLowsReached | app.js:138-148 | each lower bound of StatRanges is attained by a genome of genes 0 and 255, so the bounds are exact from below |
| Genome.StatHighsReached | app.js:138-148 | each upper bound of StatRanges is attained by a genome of genes 0 and 255, so the bounds are exact from above |
| Genome.Upgrade | app.js:415 | gene 6 goes up by one unless it is already 255; no other gene changes; the genome stays valid |
| Genome.UpgradeRaisesInterface | app.js:413-416 | an upgrade below the cap raises the interface statistic by 2 to 4; at the cap it leaves it unchanged |
| Robots.Letters | app.js:169-176 | the name has one upper-case letter per draw, 'A' + draw |
| Robots.NewRobot | app.js:178-192 | a new robot has a valid 16-gene genome, the given id, mark 1, age 0 and fitness 0, and the build consumes exactly 20 draws (16 genes, 3 letters, 1 number) |
| Robots.NewRobotGenes | app.js:179 | gene i of a new robot is the i-th output of the stream scaled to [0, 256) |
| Robots.Crossover | app.js:195-200 | each roll lies in [0, 1100); below 500 the gene is parent A's, from 500 to 1000 it is parent B's, above 1000 it lies in [0, 256) |
| Robots.CrossoverStep | app.js:195-200 | each further gene appends its roll, the next randInt(1100); the gene is parent A's below 500, parent B's up to 1000, and above 1000 the randInt(256) drawn right after the roll, which then advances the counter once more |
| Robots.CrossoverRollFixed | app.js:195-200 | the roll for gene i is the same however many genes are crossed after it |
| Robots.CrossoverRollAt | app.js:196 | the roll for gene i is randInt(1100) drawn from the counter left by the crossover of genes 0 to i − 1 |
| Robots.CrossoverValid | app.js:194-200 | crossing two valid genomes gives a valid genome (every gene in [0, 255]) |
| Robots.ChildRobot | app.js:194-214 | the child's genome is the crossover of the parents' genomes drawn from the given counter; it is valid, has the given id, age 0 and fitness 0, and its mark is the larger parent mark plus one |
| Grid.MoveRobotEffect | app.js:459-465 | moveRobot puts the robot on the target, empties the source cell and adds one visit to the target; nothing else changes |
| Grid.MoveRobotKeeps | app.js:459-465 | a move keeps the robots valid, their ids unique and below the counter, and the master cell where it is |
| Grid.MoveRobotEvolves | app.js:459-465 | a move keeps the terrain and coolData of every cell and bounds the ages by the same bound as before |
| Records.AddLog | app.js:503-507 | the new entry goes to the front and the rest follow in order; a log of at most nine entries stays at most nine |
| Records.AddLogsKeepsNewest | app.js:503-507 | logging entries one by one keeps the newest nine of everything logged, newest first |
| Records.Trimmed | app.js:490-496 | trimming leaves min(length, 220) entries |
| Records.TrimmedKeepsNewest | app.js:490-496 | trimming keeps the three series of equal length, at most 220 entries, each the newest suffix of what it was |
| Records.PushThenTrim | app.js:400-404 | after a push and a trim, the last entries are the new values and each series is the newest suffix of the old one extended by the new value |
| Resolvers.Mine | app.js:334-340 | a strike happens exactly when miningskill > randInt(20000); it adds 50 to the fitness, consumes one draw and keeps the robot valid |
| Resolvers.MiningChance | app.js:335 | miningskill ≤ 0 never strikes; miningskill ≥ 20000 always does |
| Resolvers.ConfrontMaster | app.js:410-424 | the robot survives exactly when interface ≥ coolData. Then coolData becomes the interface, gene 6 is raised (capped at 255), the statistics are recomputed, age becomes 0 and an upgrade is logged. Otherwise the cell is emptied with coolData unchanged and a rejection is logged. coolData never decreases and no other cell changes |
| Resolvers.ConfrontMasterKeeps | app.js:410-424 | a confrontation keeps the robot invariants and the master cell |
| Resolvers.Combat | app.js:426-457 | the first favors come from the sneak roll randInt(1000) and the fightskill and armorclass terms. The attacker (defender) wins exactly when its final favor is strictly greater; only the winner's fitness changes, by the margin; a draw changes nothing. The defender's favor is set to the attacker's exactly when the attacker led, the second roll randInt(100) is below 40 and the attacker's range is at most the defender's. That second roll is drawn only when the attacker led |
| Resolvers.CombatChangesOnlyWinner | app.js:446-456 | the winner's fitness strictly rises, the loser is unchanged, both stay valid |
| Resolvers.FirstEmptyInRow | app.js:475-477 | the row scan returns the first empty cell at or after x, or none when all are occupied |
| Resolvers.FirstEmpty | app.js:474-478 | the row-major scan returns an in-bounds empty cell, or none exactly when every remaining row is full |
| Resolvers.Probes | app.js:468-472 | a probe hit is an in-bounds empty cell |
| Resolvers.FindEmptyCell | app.js:467-481 | the result is an in-bounds unoccupied cell, and there is none exactly when every cell is occupied |
| Aging.AgeCell | app.js:296-309 | the robot ages one year; past maxAge it leaves the cell and its shutdown is logged, else it is counted, its fitness added to the sum and the peak raised to it |
| Aging.AgeRow | app.js:295-309 | a row's cells are aged one by one; the population grows by the number of survivors, the sum by their total fitness, and the peak becomes the larger of the old peak and the survivors' fitness (PeakRow) |
| Aging.AgeRows | app.js:294-310 | every cell of the grid is aged; the tally's population, sum and peak are the count, the total fitness and the maximum fitness of the survivors over the grid (CountRows, SumRows, PeakRows); the log stays at most nine |
| Aging.PeakRowIsMax | app.js:304 | the peak of a row is the maximum of the starting peak and every robot's fitness: at least each of them and equal to one of them |
| Aging.PeakRowsIsMax | app.js:294-310 | the peak of the grid is the maximum of the starting peak and every robot's fitness: at least each of them and equal to one of them |
| Aging.AgedKeepsInhabited | app.js:294-310 | aging keeps robots valid with unique ids below the counter |
| Aging.AgedKeepsCells | app.js:294-310 | after aging every robot is at most maxAge old, and terrain, coolData, visits and the master cell are unchanged |
| Aging.RowSites | app.js:320-323 | the sites of a row are exactly its robots, with their positions and ids, left to right |
| Aging.Sites | app.js:318-324 | the collected sites are exactly the robots of the grid, one per robot, with positions and ids, in strictly increasing row-major order (the order the shuffle starts from) |
| Shuffle.Swap | app.js:486 | swapping exchanges positions i and j and leaves the rest |
| Shuffle.ShuffleFromPermutes | app.js:484-487 | the swaps from index i down to 1 give a permutation of the input |
| Shuffle.ShufflePermutes | app.js:483-488 | shuffleArray leaves a permutation of its input, of the same length |
| Shuffle.ShuffleArray | app.js:483-488 | the in-place shuffle leaves the array and the generator as the specification computes, a permutation of the original |
| Shuffle.SwapRound | app.js:484-487 | one iteration draws j = randInt(i + 1) and swaps positions i and j |
| Acting.MineAt | app.js:334-341 | mining on a hill consumes one draw, keeps the robot on its cell and keeps the turn's invariants |
| Acting.MineAtCases | app.js:334-341 | decomposition of the turn, used by the proofs about it: without a strike only the generator advances; a strike stores the robot with 50 more fitness, as Strike does |
| Acting.StrikeEffect | app.js:336-338 | a strike rewrites only the robot on its cell, logs the strike with the cycle and raises the peak to the robot's fitness; the generator and the id counter stay |
| Acting.MasterAt | app.js:343-350 | the master's test consumes no draw, keeps the invariants, and a surviving robot stays on the cell |
| Acting.MasterAtEffect | app.js:343-350 | decomposition of the turn, used by the proofs about it: the grid and the survival are those of ConfrontMaster and its event is logged; nothing else changes |
| Acting.Mate | app.js:366-375 | mating keeps every invariant of the turn: valid robots with unique ids below the counter, the grid's shape, terrain and coolData never lowered, ages bounded, the peak never lowered |
| Acting.MateCases | app.js:366-375 | decomposition of the turn, used by the proofs about it: when findEmptyCell finds no cell, only the generator moves past the search. Otherwise the child of the two robots, built after the search's draws with the next id, is born on the cell found |
| Acting.Birth | app.js:369-375 | placing a child with the next id on an empty cell keeps the invariants and raises the id counter |
| Acting.BirthEffect | app.js:369-372 | a birth fills only the empty cell found, with the child and one more visit. The id counter goes up by one and the birth is logged; the generator and the peak stay |
| Acting.Attack | app.js:376-391 | an attack keeps every invariant of the turn |
| Acting.AttackSettles | app.js:376-391 | decomposition of the turn, used by the proofs about it: an attack is the fight Combat resolves from the two robots and the generator, settled on the grid after its draws |
| Acting.Settle | app.js:377-390 | settling a fight keeps the invariants of the turn |
| Acting.SettlePlaces | app.js:377-390 | a draw changes nothing. Otherwise the attacker's cell is emptied and the target cell holds the winner, with one more visit when the attacker won; the winner is logged and the peak raised to its fitness. No other cell changes and no draw is consumed |
| Acting.Wander | app.js:352-364 | the direction is one randomChoice of the eight neighbour offsets, after which the robot meets that neighbour |
| Acting.Meet | app.js:353-364 | meeting the neighbour keeps the invariants of the turn |
| Acting.Approach | app.js:366-391 | an approach keeps the invariants of the turn |
| Acting.ApproachCases | app.js:366-367 | decomposition of the turn, used by the proofs about it: randInt(2) draws 0 or 1: 0 runs Mate and 1 runs Attack, after the draw |
| Acting.Act | app.js:328-392 | a turn keeps the invariants: robots valid with unique ids below the counter, terrain kept, coolData and the peak never lowered, ages bounded |
| Acting.ActSkipsStale | app.js:329-330 | a site whose cell no longer holds the robot with the collected id is skipped: the turn changes nothing |
| Acting.ActOrder | app.js:333-352 | decomposition of the turn, used by the proofs about it: a robot still on its site mines first on a hill and then moves; on the master cell it takes the test and moves only if it passed; anywhere else it just moves |
| Acting.ActAll | app.js:328-392 | the turns of all sites in order keep the invariants |
| Step.AgingPass | app.js:294-310 | after aging, a cell keeps its robot, one year older, exactly when the new age is at most maxAge |
| Step.OrderIn | app.js:318-326 | the shuffled sites all lie on the grid |
| Step.StartFits | app.js:287-326 | the state after aging, collapse and shuffle meets the invariants of the acting pass |
| Step.StepDone | app.js:287-408 | decomposition of the turn, used by the proofs about it: a step is the aging tally finished with the turns of the shuffled sites |
| Step.StepKeepsValid | app.js:287-408 | a step keeps every invariant: the grid's shape; valid robots; ids unique and below the counter; one master cell; history series balanced and at most 220; log at most nine |
| Step.StepSummary | app.js:290-316 | the cycle goes up by one. The reported population is the number of robots that survived aging and the average is floor(SumRows / population), the survivors' total fitness divided down. When the population is at most one, the run stops and the collapse is logged. The aging peak is PeakRows from 0, the maximum survivor fitness; the reported peak is at least that |
| Step.StepAgesAndCoolData | app.js:287-408 | after a step every robot is at most maxAge old, terrain never changes and coolData never decreases |
| Step.StepHistory | app.js:394-404 | after a step the history ends with the step's population, average and peak and is the newest suffix of the old one |
| Step.FinishHistory | app.js:394-404 | the end of a step advances the history whatever the turns did |
| WorldGen.TerrainFor | app.js:221-225 | a terrain roll never gives the master terrain |
| WorldGen.GenCell | app.js:221-239 | one cell's terrain follows its roll; a robot is spawned exactly when the second randInt(100) is below the density, and it is NewRobot with the next id built after that roll; without a spawn the roll is the last draw; coolData is 0 and visits are 1 exactly when it holds a robot |
| WorldGen.GenRow | app.js:219-240 | a row of n fresh cells with unique ids in the range issued; at density ≤ 0 no cell holds a robot and at density ≥ 100 every cell does |
| WorldGen.GenRows | app.js:218-242 | the grid has the requested shape, fresh cells and valid robots with unique ids below the counter; at density ≤ 0 no cell holds a robot and at density ≥ 100 every cell does |
| WorldGen.CreateWorld | app.js:216-252 | createWorld gives a width × height grid with exactly one master cell, valid robots with unique ids, coolData 0 everywhere and one visit exactly where a robot stands; the master's x is randInt(width) and its y randInt(height), drawn in that order after the grid, and the robots are those the grid generation placed |
| WorldGen.CreateWorldDensity | app.js:229-236 | at density ≤ 0 the new world has no robot, and at density ≥ 100 every cell holds one |
| WorldGen.WithMaster | app.js:244-248 | the master's x is randInt(width) and its y randInt(height), drawn in that order from the counter the grid left; no robot moves, the id counter is the grid's, and the grid keeps the invariants |
| WorldGen.PlaceMaster | app.js:246-247 | marking the master cell changes no robot and makes it the only master cell |
| Engine.Simulation.constructor | app.js:867-873 | init seeds from the clock's string and builds the first world; the state is valid and paused |
| Engine.Simulation.SetSeed | app.js:123-127 | an empty seed falls back to the clock's string; the generator restarts from the seed's hash; nothing else changes |
| Engine.Simulation.Reset | app.js:254-268 | resetSimulation: cycle 0, empty summary, history and log, ids restarting at 1, a new world from createWorld; the state is valid |
| Engine.Simulation.Install | app.js:254-262 | installing a generated world gives the reset state |
| Engine.Simulation.Log | app.js:503-507 | the object's log becomes AddLog of the old one; nothing else changes |
| Engine.Simulation.TrimHistory | app.js:490-496 | the object's history becomes its trimmed form; nothing else changes |
| Engine.Simulation.AgeAll | app.js:294-310 | the nested loop leaves the grid, the tally and the log of the aging pass |
| Engine.Simulation.AgeRowAt | app.js:294-310 | one more row of the aging pass is done |
| Engine.Simulation.AgeRowOf | app.js:295-309 | the inner loop ages one row |
| Engine.Simulation.AgeCellOf | app.js:296-309 | one cell is aged as AgeCell says |
| Engine.Simulation.Move | app.js:459-465 | the grid becomes the moved grid; nothing else changes |
| Engine.Simulation.FaceMaster | app.js:410-424 | the grid, the result and the log are those of ConfrontMaster |
| Engine.Simulation.TryMine | app.js:334-341 | the state after mining is MineAt's |
| Engine.Simulation.Breed | app.js:366-375 | the state after mating is Mate's |
| Engine.Simulation.Deliver | app.js:369-375 | the state after a birth is Birth's |
| Engine.Simulation.Engage | app.js:376-391 | the state after an attack is Attack's |
| Engine.Simulation.Resolve | app.js:377-390 | the state after the outcome is applied is Settle's |
| Engine.Simulation.Roam | app.js:352-364 | the state after the move part of a turn is Wander's |
| Engine.Simulation.Encounter | app.js:353-357 | the state after meeting the neighbour in direction d is Meet's; a target off the grid changes nothing |
| Engine.Simulation.Advance | app.js:359-364 | the state is Meet's for a neighbour inside the grid; an empty neighbour is moved into by moveRobot, with the generator, the id counter, the log and the peak unchanged |
| Engine.Simulation.Mingle | app.js:366-391 | the state after the approach is Approach's |
| Engine.Simulation.TakeTurn | app.js:328-392 | the state after one robot's turn is Act's |
| Engine.Simulation.AgePhase | app.js:288-316 | the cycle goes up, the aging pass runs and the collapse check stops the run and logs |
| Engine.Simulation.ShuffledSites | app.js:318-326 | the sites are collected and shuffled in place, as Order and Start say |
| Engine.Simulation.ActPhase | app.js:328-392 | the loop over the shuffled sites leaves ActAll's state |
| Engine.Simulation.Summarize | app.js:394-404 | the summary is the aging population, the floor average and the peak, pushed onto the history and trimmed |
| Engine.Simulation.Conclude | app.js:394-404 | the end of the step leaves the state Finish computes |
| Engine.Simulation.StepOnce | app.js:287-408 | stepSimulation leaves exactly the state StepSim computes from the old state and keeps it valid |
| Engine.BuildNewRobot | app.js:178-192 | buildNewRobot agrees with NewRobot |
| Engine.CrossGenes | app.js:195-200 | the gene loop agrees with Crossover |
| Engine.BuildChildRobot | app.js:194-214 | buildChildRobot agrees with ChildRobot |
| Engine.GenerateCell | app.js:221-239 | one cell as GenCell builds it |
| Engine.GenerateRow | app.js:219-240 | the inner loop builds GenRow's row |
| Engine.GenerateRows | app.js:218-242 | the outer loop builds GenRows's grid |
| Engine.BuildWorld | app.js:216-252 | createWorld agrees with CreateWorld |
| Engine.CollectSites | app.js:318-324 | the nested loop collects exactly Sites |
| Engine.RunCombat | app.js:426-457 | the fight agrees with Combat |
| Engine.SearchEmptyCell | app.js:467-481 | the probes and then the scan agree with FindEmptyCell |

## Left out

- The DOM, canvas, chart, popovers, buttons, sliders and keyboard wiring are left out. They only display state or forward the user's requests.
- The `tick` frame loop and its time accumulator are left out. The model exposes the step itself (`Engine.Simulation.StepOnce`).
- `Date.now()` becomes a parameter: the clock's string is passed to the constructor and to `SetSeed`.
- The initial `Math.random` generator is left out, because it is replaced before any draw.
- `addSignal`, its TTL decay, `syncSelectedRobot` and the master position text are left out. They draw nothing and change no simulation state.
- Log lines are kept as events carrying the robot's name and number (and mark, for births), not as formatted strings.
- `startSimulation`, `stopSimulation` and `toggleSimulation` are left out. They only set `running`.
- The sliders that change `speed`, `maxAge` and `density` are left out: the configuration is fixed for a run.
- The trim of the seed text field is the caller's business. `SetSeed` receives the value as given.
- The selected robot and the event list cleared by `resetSimulation` are left out, because they are display state.
- Random.Mulberry32.Next: the source adds 0x6d2b79f5 to a JavaScript number without truncating it. The model reduces the counter modulo 2^32. The two agree while the counter stays below 2^53, roughly 4.9 million draws. Past that, the source's additions lose precision and the model does not follow it.
- Random.RandInt: `Math.floor(u * max)` is modelled as the exact (r · max) div 2^32. This is exact in floating point while r · max < 2^53, which holds for every bound the engine uses (at most 20000).
- Random.Uniform: the real value is kept only as a specification. The engine uses the integer draws.
- Engine.Simulation.Reset: requires a width and a height above zero. With a zero dimension the source fails when it marks the master cell.
- Engine.Simulation.SetSeed: re-seeds the existing generator object rather than creating a new closure. Nothing else holds the old closure, so nothing can tell them apart.
- Genome.ComputeStats: the source writes the statistics into the robot object. The model keeps them as a value that is rebuilt whenever the genome changes.
- Robot objects are values stored in their cell. The source never shares a robot between two cells, so updating a robot in place is modelled by storing the changed value back into its cell.
- Random.Scale: the product r · max is written as repeated addition (`Product`), proved equal to r · max by `ProductIsMul`. This keeps nonlinear arithmetic out of the other proofs. It is not a difference in behaviour.
- Robots.Crossover: each gene is tied to its roll and draws one step at a time (`CrossoverStep`), and each roll to its randInt(1100) draw at any index (`CrossoverRollAt`). The gene at a given index is not restated in closed form, and the total count of draws a crossover consumes (16 plus one per roll above 1000) is not stated as a property of its own.
- Step.StepSummary: the aging peak is proved to be the maximum survivor fitness (`PeakRowsIsMax`), and each raise during the turns is stated where it happens (`StrikeEffect`, `SettlePlaces`). The reported peak after the whole acting pass is stated only as at least the aging peak, not as the maximum of the raises.

### Behaviour of `app.js` that may surprise

- The combat winner's fitness rises by the raw margin afavor − dfavor (`app.js`:445-453).
- The disengage rule compares the two robots' `range` statistic only (`app.js`:439-443).
- The collapse check stops the run and logs a collapse on every step whose population after aging is at most one, whether or not the run was already stopped (`app.js`:312-316).
- A robot moves in one uniformly random direction out of eight, and mining changes only the miner's fitness: a hill is never used up (`app.js`:334-364).
- Population, sum and average fitness come from the aging pass alone. Births, combat losses and rejections later in the same step are not counted in them. Only the peak is raised during the turns.
