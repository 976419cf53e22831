# Logic-circuit quiz grading, modelled in Dafny

The game lets a player wire toggle switches, logic gates and LEDs together. Two
quiz managers then grade each task:

- `QuizManager2` grades each task with four checks:
  - whether the LED agrees with the switch pattern;
  - whether some wire reaches the LED;
  - whether a required gate kind is present;
  - whether gate names carry their kind's prefix.

  It scores +30/−10, +20/−10, +15/−5 and +15/−5.
- `QuizManager3` grades each task with three checks:
  - every switch reaches the LED through at least one gate, by a depth-first
    search over (input connector, gate-seen) states;
  - the scene holds at least one gate;
  - a truth table of six-switch combinations is driven through the live circuit.

  It scores 10/10/10/70 with no penalty.

Both managers do the following:
- clamp each task's score to `[0, task.score]` with Unity's `Mathf.Clamp`;
- add the scores into `totalScore` with C#'s 32-bit `int` addition, which wraps past 2^31 − 1;
- bind a freshly spawned LED or switch into the first task.

The Unity scene is replaced by explicit values:
- every `WireManager`'s connections are a sequence of (output, input) connector pairs;
- what `GetComponentInParent` would find above an output connector is an owner record: the switch, whether a gate script is present, and that gate's inputs;
- `FindObjectsOfType` over the gate classes becomes a sequence of (kind, name) gates.

Switch states that `CheckTruthTableOutput` sets in place live in an array owned by a `Board`. The `Board` also holds the connector values left by the last circuit update. The update itself (`ForceUpdateCircuit`) is an abstract function, applied once per row as in the source.

Files:
- `circuit.dfy` (module `Circuit`): the shared vocabulary.
  - Connectors, wires, owners, gates, LEDs.
  - C# shifts and bits, including the 32-bit `|= 1 << i`.
  - Name prefixes, gate counts, `Mathf.Clamp`, sums and 32-bit `int` wrap-around.
- `connectivity.dfy` (module `Connectivity`): `IsToggleSwitchConnected`.
  - The depth-first search with its explicit stack and visited set.
  - The search is proved to answer exactly "a wire path from the switch to the LED input crosses a gate".
- `truthtable.dfy` (module `TruthTable`): truth-table rows and the binary form of a combination.
  - The specification of a run over a table.
  - The `Board` class with `SetState` and `ForceUpdateCircuit`.
- `quizmanager2.dfy`, `quizmanager3.dfy`: the two managers.
  - Their checks, scoring, grading of all tasks, `GetMaxScore`, `Awake` and `NotifySpawnedObject`.
  - Each manager is a class whose methods update `tasks`, `totalScore` and `resultMessage` in place.

## Model

| member | source | states |
|---|---|---|
| Circuit.WiresHoldsEveryManager | Assets/Script/LogicGate/EX/QuizManager3.cs:228-231 | a wire is in the merged wire index exactly when some manager reports it |
| Circuit.LedIsOn | Assets/Script/LogicGate/other/LED.cs:17-20 | an LED with no input connector reads off |
| Circuit.SetBitBits | Assets/Script/LogicGate/EX/QuizManager2.cs:101 | `v \| (1 << k)` sets bit `k` and leaves every other bit as it was |
| Circuit.SetBitStaysBelow | Assets/Script/LogicGate/EX/QuizManager2.cs:101 | setting a bit below position `m` keeps a value below `2^m`, so the switch value never leaves 32 bits |
| Circuit.FillFirstEmptyKeepsFull | Assets/Script/LogicGate/EX/QuizManager3.cs:474-482 | the spawn binder's slot loop leaves a slot array with no empty slot unchanged |
| Circuit.FillFirstEmptyFillsLowest | Assets/Script/LogicGate/EX/QuizManager3.cs:474-482 | the spawn binder's slot loop puts the switch into the lowest empty slot and changes no other slot |
| Circuit.CountKind | Assets/Script/LogicGate/EX/QuizManager3.cs:348-354 | `FindObjectsOfType<K>().Length` is positive exactly when some gate of kind `K` exists, and never exceeds the gate population |
| Circuit.SumWithinCaps | Assets/Script/LogicGate/EX/QuizManager3.cs:101-105 | scores each within `[0, cap]` add up to a total within `[0, sum of caps]` |
| Circuit.Wrap32IsResidue | Assets/Script/LogicGate/EX/QuizManager3.cs:446 | an `int` result of `+=` is the residue of the mathematical value plus 2^31 modulo 2^32, shifted back by 2^31 |
| Circuit.Wrap32Congruent | Assets/Script/LogicGate/EX/QuizManager3.cs:446 | the `int` result differs from the mathematical value by a whole multiple of 2^32 |
| Circuit.Wrap32Add | Assets/Script/LogicGate/EX/QuizManager3.cs:114 | wrapping after every `+=` gives the same `int` as wrapping the mathematical sum once |
| Connectivity.CrossesGateIffSomeGate | Assets/Script/LogicGate/EX/QuizManager3.cs:237-238 | the `foundGate` flag carried along a path is "some wire of the path leaves a gate" |
| Connectivity.DirectWiringIsNotConnected | Assets/Script/LogicGate/EX/QuizManager3.cs:220-248 | if no wire into the LED input leaves a gate, no switch counts as connected, even one wired straight to the LED |
| Connectivity.ThroughOneGateIsConnected | Assets/Script/LogicGate/EX/QuizManager3.cs:240-262 | switch → gate input, gate output → LED input is a connection |
| Connectivity.NoRouteFromClosedSet | Assets/Script/LogicGate/EX/QuizManager3.cs:224-266 | when the stack runs empty, every visited state is fully expanded, and then no gate-crossing path from the switch exists |
| Connectivity.ExpandNode | Assets/Script/LogicGate/EX/QuizManager3.cs:228-264 | one popped state: a hit is a real gate-crossing path; otherwise the visited set only grows, each newly visited state is pushed exactly once, no state visited before is pushed again, and the popped state is fully expanded |
| Connectivity.FollowWire | Assets/Script/LogicGate/EX/QuizManager3.cs:233-262 | following one wire: a hit is a real gate-crossing path; without a hit the wire does not reach the queried switch with a gate crossed, every input of a gate it leaves is visited with the updated flag, and new states are pushed exactly once; a wire that does not end at the current connector, or leaves a switch or no component, changes neither the stack nor the visited set |
| Connectivity.PushGateInputs | Assets/Script/LogicGate/EX/QuizManager3.cs:252-260 | only states not visited before are pushed, each exactly once (the stack grows by the number of newly visited states); every new state is an input of the gate with the given flag; afterwards every input of the gate is visited |
| Connectivity.FewerUnvisited | Assets/Script/LogicGate/EX/QuizManager3.cs:255-259 | the search terminates: each push shrinks the finite set of unvisited (input, flag) states |
| Connectivity.IsToggleSwitchConnected | Assets/Script/LogicGate/EX/QuizManager3.cs:208-268 | returns true exactly when the LED and its input exist and some wire path from the queried switch to the LED input crosses a gate; a missing LED or LED input gives false |
| Connectivity.SearchFrom | Assets/Script/LogicGate/EX/QuizManager3.cs:217-267 | the search loop from `PathState(led.input, false)` decides exactly whether a gate-crossing path exists |
| TruthTable.DefaultTableCoversEachComboOnce | Assets/Script/LogicGate/EX/QuizManager3.cs:62-69 | the default table has 64 rows, row `i` being input `i` expecting the LED off |
| TruthTable.DigitsAreBits | Assets/Script/LogicGate/EX/QuizManager3.cs:400 | the base-2 digits of `n`, read from the right, are its bits |
| TruthTable.PaddedDigitsAreBits | Assets/Script/LogicGate/EX/QuizManager3.cs:400 | zero-padding the digits of a value below `2^width` gives exactly its `width` low bits, most significant first |
| TruthTable.Binary6Bits | Assets/Script/LogicGate/EX/QuizManager3.cs:400 | for a combination 0..63 the reported form has six characters, character `5 - i` showing switch `i` |
| TruthTable.ApplyBitsSetsSlots | Assets/Script/LogicGate/EX/QuizManager3.cs:384-388 | after a row with distinct slots, switch `i` is on exactly when `((combo >> i) & 1) == 1`; switches in no slot keep their state |
| TruthTable.ReadingAfterRow | Assets/Script/LogicGate/EX/QuizManager3.cs:390-394 | the reading recorded for row `k` is the LED value right after rows `0..k` ran, whatever rows follow |
| TruthTable.NoMismatchIffEveryRowMatches | Assets/Script/LogicGate/EX/QuizManager3.cs:380-408 | a run reports no mismatch exactly when the LED reading equalled the expected output after every row |
| TruthTable.MismatchesDescribeRows | Assets/Script/LogicGate/EX/QuizManager3.cs:396-402 | every diagnostic names a row of the table with its six-digit binary form, the expected value and the different observed value, and a run never reports more lines than the table has rows |
| TruthTable.SwitchesKeepLastRow | Assets/Script/LogicGate/EX/QuizManager3.cs:380-403 | after a non-empty run the switches show the last row's bits: nothing restores their earlier states |
| TruthTable.ComboFiveReport | Assets/Script/LogicGate/EX/QuizManager3.cs:398-401 | combination 5 expected on but read off is reported as combo 5, "000101", expected true, got false |
| TruthTable.Board.SetState | Assets/Script/LogicGate/EX/QuizManager3.cs:387 | one switch changes; all others keep their state |
| TruthTable.Board.ForceUpdateCircuit | Assets/Script/LogicGate/EX/QuizManager3.cs:136-169 | connector values become one application of the circuit update to the previous values and the switch states |
| QuizManager2.NeedsAnyGateIffSomeKind | Assets/Script/LogicGate/EX/QuizManager2.cs:143-145 | `needAnyGate` is "some gate kind is required" |
| QuizManager2.SwitchValue | Assets/Script/LogicGate/EX/QuizManager2.cs:96-103 | the value built by `switchValue \|= (1 << i)` stays within 32 bits |
| QuizManager2.SwitchValueBits | Assets/Script/LogicGate/EX/QuizManager2.cs:96-103 | bit `k` of `switchValue` is set exactly when some switch `i` with `i mod 32 == k` is present and on |
| QuizManager2.SwitchValueIsWeight | Assets/Script/LogicGate/EX/QuizManager2.cs:96-103 | with at most 32 slots, `switchValue` is the sum of `2^i` over the present switches that are on |
| QuizManager2.SwitchValueAsInt | Assets/Script/LogicGate/EX/QuizManager2.cs:96-106 | with at most 31 slots, the signed `int` compared against `targetNumbers` is that sum |
| QuizManager2.CheckToggleSwitches | Assets/Script/LogicGate/EX/QuizManager2.cs:89-112 | passes vacuously with no LED or no slots; otherwise passes exactly when (LED input on) agrees with (`switchValue` in `targetNumbers`) |
| QuizManager2.CheckConnections | Assets/Script/LogicGate/EX/QuizManager2.cs:115-138 | true with no LED; otherwise true exactly when some wire of some manager ends at the LED input |
| QuizManager2.WiredToLedIffSomeWire | Assets/Script/LogicGate/EX/QuizManager2.cs:122-135 | the nested scan finds a wire exactly when the merged wire index holds one ending at the LED input |
| QuizManager2.GatedRoutePassesWireCheck | Assets/Script/LogicGate/EX/QuizManager2.cs:115-138 | a switch connected through a gate in the other manager's sense always passes this weaker wire check |
| QuizManager2.CheckGatePresence | Assets/Script/LogicGate/EX/QuizManager2.cs:141-160 | true when no kind is required; otherwise true exactly when some gate in the scene is of a required kind |
| QuizManager2.AllRequiredPresentPasses | Assets/Script/LogicGate/EX/QuizManager2.cs:149-159 | a scene holding every required kind passes |
| QuizManager2.OneRequiredKindSuffices | Assets/Script/LogicGate/EX/QuizManager2.cs:149-159 | requiring And and Or with only an And gate present still passes: one required kind is enough |
| QuizManager2.EveryKindIsScanned | Assets/Script/LogicGate/EX/QuizManager2.cs:177-266 | the naming scan covers all seven gate kinds |
| QuizManager2.CheckGateNaming | Assets/Script/LogicGate/EX/QuizManager2.cs:163-269 | passes exactly when every gate of a required kind starts with its kind's prefix; a warning is produced for exactly those gates that do not; gates of kinds not required are never examined |
| QuizManager2.NamingExamples | Assets/Script/LogicGate/EX/QuizManager2.cs:177-188 | an And gate named "Foo" fails when And is required; one named "AndGate_1" passes |
| QuizManager2.RawScore | Assets/Script/LogicGate/EX/QuizManager2.cs:281-287 | the unclamped sum lies in [−30, 80]; it is 80 exactly when all four verdicts hold and −30 exactly when none does |
| QuizManager2.CalculateScore | Assets/Script/LogicGate/EX/QuizManager2.cs:273-293 | within `[0, task.score]` for a non-negative full score; all false gives 0; all true gives `min(80, task.score)`; a negative full score gives 0 or that score, as Unity's clamp does |
| QuizManager2.ScoreMonotone | Assets/Script/LogicGate/EX/QuizManager2.cs:284-290 | turning any verdict from false to true never lowers the score |
| QuizManager2.GradeTasksLineByLine | Assets/Script/LogicGate/EX/QuizManager2.cs:50-81 | report `i` of a grading run is exactly task `i` graded on its own: tasks do not influence each other |
| QuizManager2.AccumulateStep | Assets/Script/LogicGate/EX/QuizManager2.cs:76 | one `scoreAccumulated += scoreThisTask` keeps the accumulator at the `int`-wrapped sum of the scores reported so far |
| QuizManager2.TotalWithinMax | Assets/Script/LogicGate/EX/QuizManager2.cs:76-84 | with no negative full score, the mathematical sum of the task scores lies between 0 and the mathematical sum of full scores |
| QuizManager2.ReportedMaxCanWrap | Assets/Script/LogicGate/EX/QuizManager2.cs:298-303 | two tasks worth 2^31 − 1 and 1 have no negative full score, yet `GetMaxScore` reports −2^31 |
| QuizManager2.QuizManager2.GetMaxScore | Assets/Script/LogicGate/EX/QuizManager2.cs:296-304 | the sum of every task's full score as a wrapping 32-bit `int`, whatever the checks say |
| QuizManager2.QuizManager2.CheckTask | Assets/Script/LogicGate/EX/QuizManager2.cs:52-76 | the task's line is its pass flag (all four verdicts hold) and its clamped score, as `GradeTask` defines them |
| QuizManager2.QuizManager2.CheckAllTasks | Assets/Script/LogicGate/EX/QuizManager2.cs:45-86 | the report lists every task in order, `totalScore` is the `int`-wrapped sum of their scores and equals the reported total, the reported maximum is `GetMaxScore`, and the total lies in `[0, max]` when no full score is negative and the full scores sum below 2^31 |
| QuizManager2.QuizManager2.NotifySpawnedObject | Assets/Script/LogicGate/EX/QuizManager2.cs:307-346 | a spawned LED replaces the first task's LED and takes precedence; otherwise a spawned switch fills the first task's lowest empty slot; with no task, or neither component, nothing changes |
| QuizManager3.NoSlotDiagIffAllConnected | Assets/Script/LogicGate/EX/QuizManager3.cs:184-205 | no error line exactly when every slot holds a switch connected through a gate |
| QuizManager3.SlotDiagsSplit | Assets/Script/LogicGate/EX/QuizManager3.cs:184-199 | a failing slot does not stop the scan: the error lines of two runs of slots are those of each run, one after the other |
| QuizManager3.CheckConnectionsWithError | Assets/Script/LogicGate/EX/QuizManager3.cs:174-206 | without an LED it fails at once with one error; otherwise it examines every slot and passes exactly when every slot holds a switch connected through a gate, listing one error per failing slot |
| QuizManager3.EveryGateCountedOnce | Assets/Script/LogicGate/EX/QuizManager3.cs:347-354 | the seven kind counts add up to the number of gates |
| QuizManager3.CheckAtLeastOneGate | Assets/Script/LogicGate/EX/QuizManager3.cs:345-364 | passes exactly when the scene holds some gate |
| QuizManager3.TableCheck | Assets/Script/LogicGate/EX/QuizManager3.cs:369-409 | the verdict holds exactly when no error line is produced, and the switch array keeps its size |
| QuizManager3.TableVerdictIffRowsMatch | Assets/Script/LogicGate/EX/QuizManager3.cs:369-409 | the table check passes exactly when there are six slots, an LED, and a matching LED reading after every row; failing on arity or LED leaves the board untouched |
| QuizManager3.SetRowSwitches | Assets/Script/LogicGate/EX/QuizManager3.cs:384-388 | the six switches take the six low bits of the combination, in slot order |
| QuizManager3.CheckTruthTableOutput | Assets/Script/LogicGate/EX/QuizManager3.cs:369-409 | the switch states, connector values, verdict and error lines are those of the specified run: wrong arity or no LED fails with the board untouched, otherwise each row sets the switches, updates the circuit once and compares the LED |
| QuizManager3.RawScore | Assets/Script/LogicGate/EX/QuizManager3.cs:421-428 | the unclamped sum lies in [0, 100]; 100 exactly when all verdicts hold, 0 exactly when none does, and at least 70 exactly when the truth table passed |
| QuizManager3.CalculateScore | Assets/Script/LogicGate/EX/QuizManager3.cs:414-436 | within `[0, task.score]` for a non-negative full score; all false gives 0; all true gives `min(100, task.score)`; a negative full score is returned as is, as Unity's clamp does |
| QuizManager3.ScoreMonotone | Assets/Script/LogicGate/EX/QuizManager3.cs:421-431 | turning any verdict from false to true never lowers the score |
| QuizManager3.GradedScoresWithinCaps | Assets/Script/LogicGate/EX/QuizManager3.cs:87-105 | because the switch verdict is fixed at true, every task earns at least `min(10, task.score)` and at most its full score |
| QuizManager3.AccumulateStep | Assets/Script/LogicGate/EX/QuizManager3.cs:114 | one `scoreAccumulated += scoreThisTask` keeps the accumulator at the `int`-wrapped sum of the scores reported so far |
| QuizManager3.TotalWithinMax | Assets/Script/LogicGate/EX/QuizManager3.cs:101-129 | with no negative full score, the mathematical sum of the task scores lies between 0 and the mathematical sum of full scores |
| QuizManager3.WithDefaultTableFills | Assets/Script/LogicGate/EX/QuizManager3.cs:58-70 | after filling, no task has an empty table, filling twice equals filling once, and nothing but the table changes |
| QuizManager3.QuizManager3.Awake | Assets/Script/LogicGate/EX/QuizManager3.cs:56-72 | each task with an empty table receives the 64 default rows and every other task is unchanged |
| QuizManager3.ReportedMaxCanWrap | Assets/Script/LogicGate/EX/QuizManager3.cs:443-448 | two tasks worth 2^31 − 1 and 1 have no negative full score, yet `GetMaxScore` reports −2^31 |
| QuizManager3.QuizManager3.GetMaxScore | Assets/Script/LogicGate/EX/QuizManager3.cs:441-449 | the sum of every task's full score as a wrapping 32-bit `int`, whatever the checks say |
| QuizManager3.QuizManager3.CheckTask | Assets/Script/LogicGate/EX/QuizManager3.cs:82-105 | one task graded: switch verdict true, the connection, gate and table checks, the pass flag and the clamped score; the board moves as the table run says |
| QuizManager3.QuizManager3.CheckAllTasks | Assets/Script/LogicGate/EX/QuizManager3.cs:77-131 | tasks are graded in order on the live board, each table starting from the switches the previous one left; `totalScore` is the `int`-wrapped sum of the task scores and equals the reported total, the reported maximum is `GetMaxScore`, and the total lies in `[0, max]` when no full score is negative and the full scores sum below 2^31 |
| QuizManager3.QuizManager3.NotifySpawnedObject | Assets/Script/LogicGate/EX/QuizManager3.cs:454-492 | a spawned LED replaces the first task's LED and takes precedence; otherwise a spawned switch fills the first task's lowest empty slot; with no task, or neither component, nothing changes |

## Left out

- Unity scene queries are not modelled. This covers `FindObjectsOfType`, `GetComponentInParent`/`GetComponent` and `WireManager.GetWireConnections`. They become explicit inputs: the wire sequences, the owner map and the gate sequence.
  - Within one grading run the scene is taken to be fixed.
- `ForceUpdateCircuit`'s effect is an abstract function from the previous connector values and the switch states to the new values. The gate classes are not part of this model, so two things go unmodelled:
  - the order of its single pass (LEDs first, then the gates kind by kind);
  - what each gate computes.
- The ToggleSwitch class is not part of this model. `SetState` is taken to change only that switch's `isOn`. Any event it raises is not modelled.
- LED rendering (materials, emission, light intensity) is not modelled, and neither is the UI text reset script.
  - Only the `isOn` getter is modelled.
- `OnGUI`, `Debug.Log`/`LogWarning` and the Thai wording of every message are not modelled.
  - Diagnostics are records such as `Mismatch(combo, binary, expected, observed)`, `NotConnected(switch)` and the list of misnamed gates.
  - The result message keeps the total, the maximum and one report per task.
- The discovered-edges, gates and toggles sets in `IsToggleSwitchConnected` are never read. They are not modelled.
- Null arrays are represented by empty sequences: `toggleSwitches` and `truthTableEntries` are never null here.
  - `Awake` on a null table would throw. The model treats it like an empty table.
- Three source exceptions are preconditions rather than modelled exceptions:
  - a null switch inside a six-slot array reached by `CheckTruthTableOutput` (`TableRunnable`);
  - a bound LED with switches but no input in `CheckToggleSwitches` (`ToggleReadable`);
  - a switch the board does not know.
- Task objects and switch arrays are values inside the manager's `tasks` sequence.
  - Aliasing between tasks (two tasks sharing one array or one switch object) is not modelled.
- `string.StartsWith` is modelled as an ordinal prefix test. The culture-sensitive comparison that .NET uses by default is not modelled.
- A gate object is taken to carry one gate script. Subclassing between gate scripts is not modelled, so a gate is counted under exactly one kind.
- `Convert.ToString(combo, 2)` is modelled for all integers, with negative values as 32-bit two's complement. Its properties are proved for combinations 0..63 only.
- QuizManager2.ScoreMonotone: proved only for a non-negative full score. With a negative `task.score`, Unity's clamp returns 0 for a negative raw sum and the (negative) full score otherwise, so turning a verdict true can lower the score.
- QuizManager2.CheckGatePresence follows the code, not the stated intent. The intent is "every required gate kind must be present", but the code accepts any single required kind. `OneRequiredKindSuffices` exhibits the difference, and `AllRequiredPresentPasses` shows that the intended condition implies the coded one.
- QuizManager2.QuizManager2.CheckAllTasks: `0 <= totalScore <= max` is promised only while the full scores sum below 2^31. Past that, the program's own `int` sums wrap (see `ReportedMaxCanWrap`), and the bound does not hold for it.
- QuizManager3.QuizManager3.CheckAllTasks: `0 <= totalScore <= max` is promised only while the full scores sum below 2^31. Past that, the program's own `int` sums wrap (see `ReportedMaxCanWrap`), and the bound does not hold for it.
- QuizManager2.TotalWithinMax: bounds the mathematical sums. `CheckAllTasks` carries the bound over to the wrapped `int` values only below 2^31.
- QuizManager3.TotalWithinMax: bounds the mathematical sums. `CheckAllTasks` carries the bound over to the wrapped `int` values only below 2^31.
