/**
  QuizManager3: grades each task by a gate-crossing connection check for every
  switch slot, the presence of at least one gate, and a truth table run on the
  live switches; the score weights the truth table most and never penalises.
 */
module QuizManager3 {
  import opened Circuit
  import opened Connectivity
  import opened TruthTable

  /** A task as configured in the inspector. */
  datatype LogicTask = LogicTask(
    description: string,
    toggleSwitches: seq<Option<SwitchId>>,
    ledToCheck: Option<Led>,
    score: int,
    truthTableEntries: seq<Entry>)

  // ---------------------------------------------------------------------------
  // Connections through a gate.
  // ---------------------------------------------------------------------------

  /** An error line of `CheckConnectionsWithError`. */
  datatype ConnDiag =
    | ConnLedUnbound            // the task has no LED
    | SwitchUnbound             // a slot holds no switch
    | NotConnected(toggle: SwitchId)  // this switch reaches the LED through no gate

  /** The error lines for one slot. */
  ghost function SlotDiag(scene: Scene, led: Option<Led>, slot: Option<SwitchId>): seq<ConnDiag>
  {
    match slot
    case None => [SwitchUnbound]
    case Some(t) => if ConnectedThroughGate(scene, led, t) then [] else [NotConnected(t)]
  }

  /** The error lines for every slot, in slot order. */
  ghost function SlotDiags(scene: Scene, led: Option<Led>, slots: seq<Option<SwitchId>>): seq<ConnDiag>
    decreases |slots|
  {
    if slots == [] then []
    else SlotDiags(scene, led, slots[..|slots| - 1]) + SlotDiag(scene, led, slots[|slots| - 1])
  }

  /** No error line exactly when every slot holds a switch connected through a gate. */
  lemma {:induction false} NoSlotDiagIffAllConnected(scene: Scene, led: Option<Led>, slots: seq<Option<SwitchId>>)
    ensures SlotDiags(scene, led, slots) == [] <==>
            forall i :: 0 <= i < |slots| ==> slots[i].Some? && ConnectedThroughGate(scene, led, slots[i].value)
    decreases |slots|
  {
    if slots != [] {
      var init := slots[..|slots| - 1];
      NoSlotDiagIffAllConnected(scene, led, init);
      assert forall i :: 0 <= i < |init| ==> init[i] == slots[i];
    }
  }

  /**
    A failing slot does not stop the scan: the error lines of two runs of slots
    are those of each run, one after the other.
   */
  lemma {:induction false} SlotDiagsSplit(scene: Scene, led: Option<Led>, front: seq<Option<SwitchId>>, back: seq<Option<SwitchId>>)
    ensures SlotDiags(scene, led, front + back) == SlotDiags(scene, led, front) + SlotDiags(scene, led, back)
    decreases |back|
  {
    if back == [] {
      assert front + back == front;
    } else {
      var init := back[..|back| - 1];
      SlotDiagsSplit(scene, led, front, init);
      assert (front + back)[..|front + back| - 1] == front + init;
    }
  }

  /**
    `CheckConnectionsWithError`: without an LED the check fails at once;
    otherwise every slot is examined and the check passes exactly when every
    slot holds a switch connected to the LED through a gate.
   */
  method CheckConnectionsWithError(task: LogicTask, scene: Scene) returns (ok: bool, errors: seq<ConnDiag>)
    ensures task.ledToCheck.None? ==> !ok && errors == [ConnLedUnbound]
    ensures task.ledToCheck.Some? ==> errors == SlotDiags(scene, task.ledToCheck, task.toggleSwitches)
    ensures ok <==> errors == []
    ensures ok <==> (task.ledToCheck.Some? &&
              forall i :: 0 <= i < |task.toggleSwitches| ==>
                task.toggleSwitches[i].Some? && ConnectedThroughGate(scene, task.ledToCheck, task.toggleSwitches[i].value))
  {
    if task.ledToCheck.None? {
      return false, [ConnLedUnbound];
    }
    var slots := task.toggleSwitches;
    var overall := true;
    errors := [];
    for i := 0 to |slots|
      invariant errors == SlotDiags(scene, task.ledToCheck, slots[..i])
      invariant overall <==> errors == []
    {
      assert slots[..i + 1][..i] == slots[..i];
      var toggle := slots[i];
      if toggle.None? {
        errors := errors + [SwitchUnbound];
        overall := false;
        continue;
      }
      var connected := IsToggleSwitchConnected(scene, task.ledToCheck, toggle.value);
      if !connected {
        errors := errors + [NotConnected(toggle.value)];
        overall := false;
      }
    }
    assert slots[..|slots|] == slots;
    NoSlotDiagIffAllConnected(scene, task.ledToCheck, slots);
    if overall {
      return true, [];
    }
    return false, errors;
  }

  // ---------------------------------------------------------------------------
  // At least one gate.
  // ---------------------------------------------------------------------------

  /** `totalGateCount`: the instances of the seven kinds added up. */
  function TotalGateCount(gates: seq<Gate>): nat
  {
    CountKind(gates, And) + CountKind(gates, Or) + CountKind(gates, Nand) + CountKind(gates, Nor)
    + CountKind(gates, Xor) + CountKind(gates, Xnor) + CountKind(gates, Not)
  }

  /** Every gate has exactly one of the seven kinds, so the kind counts add up to the population. */
  lemma {:induction false} EveryGateCountedOnce(gates: seq<Gate>)
    ensures TotalGateCount(gates) == |gates|
    decreases |gates|
  {
    if gates != [] {
      EveryGateCountedOnce(gates[1..]);
    }
  }

  /** `CheckAtLeastOneGate`: passes exactly when the scene holds some gate. */
  function CheckAtLeastOneGate(gates: seq<Gate>): (hasGate: bool)
    ensures hasGate <==> |gates| > 0
  {
    EveryGateCountedOnce(gates);
    TotalGateCount(gates) > 0
  }

  // ---------------------------------------------------------------------------
  // The truth table.
  // ---------------------------------------------------------------------------

  /**
    What the truth-table run needs of a task that gets past the arity and LED
    checks and has rows: every slot names a switch of the board.
   */
  predicate TableRunnable(task: LogicTask, switchCount: nat)
  {
    |task.toggleSwitches| == 6 && task.ledToCheck.Some? && task.truthTableEntries != [] ==>
      SlotsBound(task.toggleSwitches, switchCount)
  }

  /** The state a truth-table check leaves behind, its verdict and its error lines. */
  function TableCheck(snap: Snapshot, task: LogicTask, recompute: Recompute): (r: (Snapshot, bool, seq<TableDiag>))
    ensures |r.0.switchOn| == |snap.switchOn|
    ensures r.1 <==> r.2 == []
  {
    if |task.toggleSwitches| != 6 then (snap, false, [WrongArity])
    else if task.ledToCheck.None? then (snap, false, [LedUnbound])
    else
      var (s, ms) := RunEntries(snap, task.toggleSwitches, task.ledToCheck.value, recompute, task.truthTableEntries);
      (s, ms == [], ms)
  }

  /**
    The table check passes exactly when the task has six slots and an LED and
    the LED matched the expected output after every row; when it fails before
    running any row, no switch has moved.
   */
  lemma TableVerdictIffRowsMatch(snap: Snapshot, task: LogicTask, recompute: Recompute)
    ensures var (s, ok, _) := TableCheck(snap, task, recompute);
            && (ok <==>
                  && |task.toggleSwitches| == 6
                  && task.ledToCheck.Some?
                  && forall k :: 0 <= k < |task.truthTableEntries| ==>
                       Readings(snap, task.toggleSwitches, task.ledToCheck.value, recompute, task.truthTableEntries)[k]
                       == task.truthTableEntries[k].expectedOutput)
            && (|task.toggleSwitches| != 6 || task.ledToCheck.None? ==> s == snap)
  {
    if |task.toggleSwitches| == 6 && task.ledToCheck.Some? {
      NoMismatchIffEveryRowMatches(snap, task.toggleSwitches, task.ledToCheck.value, recompute, task.truthTableEntries);
    }
  }

  /** Running the table up to row `e` inclusive is running it up to row `e - 1`, then row `e`. */
  lemma RunEntriesStep(snap: Snapshot, slots: seq<Option<SwitchId>>, led: Led, recompute: Recompute, entries: seq<Entry>, e: nat)
    requires e < |entries|
    ensures var (s, ds) := RunEntries(snap, slots, led, recompute, entries[..e]);
            var s' := RunRow(s, slots, recompute, entries[e].input);
            RunEntries(snap, slots, led, recompute, entries[..e + 1]) == (s', ds + RowDiags(entries[e], LedIsOn(led, s'.signals)))
  {
    assert entries[..e + 1][..e] == entries[..e];
  }

  /** The inner loop of `CheckTruthTableOutput`: switch `i` of the task takes bit `i` of `combo`. */
  method SetRowSwitches(board: Board, slots: seq<Option<SwitchId>>, combo: int)
    requires |slots| == 6 && SlotsBound(slots, board.switchOn.Length)
    modifies board.switchOn
    ensures board.switchOn[..] == ApplyBits(old(board.switchOn[..]), slots, combo, |slots|)
  {
    ghost var before := board.switchOn[..];
    for i := 0 to 6
      invariant board.switchOn[..] == ApplyBits(before, slots, combo, i)
    {
      var isOn := Bit(combo, i);
      board.SetState(slots[i].value, isOn);
    }
  }

  /**
    `CheckTruthTableOutput`: with the wrong number of slots or no LED it fails
    without touching a switch; otherwise it drives the switches row by row,
    recomputes the circuit once per row, and reports every row whose LED
    reading differs from the expected output.
   */
  method CheckTruthTableOutput(task: LogicTask, board: Board) returns (ok: bool, diags: seq<TableDiag>)
    requires TableRunnable(task, board.switchOn.Length)
    modifies board`signals, board.switchOn
    ensures (board.Snap(), ok, diags) == TableCheck(old(board.Snap()), task, board.recompute)
  {
    var slots := task.toggleSwitches;
    if |slots| != 6 {
      return false, [WrongArity];
    }
    if task.ledToCheck.None? {
      return false, [LedUnbound];
    }
    var led := task.ledToCheck.value;
    var entries := task.truthTableEntries;
    ghost var start := board.Snap();
    ok, diags := true, [];
    for e := 0 to |entries|
      invariant board.Snap() == RunEntries(start, slots, led, board.recompute, entries[..e]).0
      invariant diags == RunEntries(start, slots, led, board.recompute, entries[..e]).1
      invariant ok <==> diags == []
    {
      RunEntriesStep(start, slots, led, board.recompute, entries, e);
      var entry := entries[e];
      ghost var before := board.Snap();
      SetRowSwitches(board, slots, entry.input);
      board.ForceUpdateCircuit();
      assert board.Snap() == RunRow(before, slots, board.recompute, entry.input);
      var ledState := LedIsOn(led, board.signals);
      if ledState != entry.expectedOutput {
        ok := false;
        diags := diags + [Mismatch(entry.input, Binary6(entry.input), entry.expectedOutput, ledState)];
      }
    }
    assert entries[..|entries|] == entries;
  }

  // ---------------------------------------------------------------------------
  // Scoring.
  // ---------------------------------------------------------------------------

  /** The sum before clamping: 10 for the switches, 10 for the connections, 10 for a gate, 70 for the table. */
  function RawScore(toggle: bool, connection: bool, hasGate: bool, table: bool): (s: int)
    ensures 0 <= s <= 100
    ensures s == 100 <==> toggle && connection && hasGate && table
    ensures s == 0 <==> !toggle && !connection && !hasGate && !table
    ensures table <==> s >= 70
  {
    (if toggle then 10 else 0) + (if connection then 10 else 0) + (if hasGate then 10 else 0) + (if table then 70 else 0)
  }

  /** `CalculateScore`: the raw sum clamped to [0, task.score]. */
  function CalculateScore(task: LogicTask, toggle: bool, connection: bool, hasGate: bool, table: bool): (s: int)
    ensures task.score >= 0 ==> 0 <= s <= task.score
    ensures task.score >= 0 && !toggle && !connection && !hasGate && !table ==> s == 0
    ensures toggle && connection && hasGate && table ==> s == if task.score < 100 then task.score else 100
    ensures task.score < 0 ==> s == task.score
  {
    Clamp(RawScore(toggle, connection, hasGate, table), 0, task.score)
  }

  /** Turning any verdict from false to true never lowers the score. */
  lemma ScoreMonotone(task: LogicTask, t: bool, c: bool, g: bool, tt: bool, t': bool, c': bool, g': bool, tt': bool)
    requires (t ==> t') && (c ==> c') && (g ==> g') && (tt ==> tt')
    ensures CalculateScore(task, t, c, g, tt) <= CalculateScore(task, t', c', g', tt')
  {
    assert RawScore(t, c, g, tt) <= RawScore(t', c', g', tt');
  }

  // ---------------------------------------------------------------------------
  // The manager.
  // ---------------------------------------------------------------------------

  /**
    One task's part of the result message: whether every check passed, the
    points, and the error lines of the connection, gate and truth-table checks.
   */
  datatype TaskReport = TaskReport(allCorrect: bool, score: int, connection: seq<ConnDiag>, hasGate: bool, table: seq<TableDiag>)

  /** `resultMessage`: the total, the maximum, and one entry per task. */
  datatype ResultMessage = ResultMessage(total: int, maxScore: int, details: seq<TaskReport>)

  predicate TasksRunnable(tasks: seq<LogicTask>, switchCount: nat)
  {
    forall i :: 0 <= i < |tasks| ==> TableRunnable(tasks[i], switchCount)
  }

  /**
    Grading one task from switch state `snap`: the switch verdict is fixed at
    true, and only the truth table changes the board.
   */
  ghost function GradeTask(scene: Scene, snap: Snapshot, task: LogicTask, recompute: Recompute): (r: (Snapshot, TaskReport))
    ensures |r.0.switchOn| == |snap.switchOn|
  {
    var led := task.ledToCheck;
    var connErrors := if led.None? then [ConnLedUnbound] else SlotDiags(scene, led, task.toggleSwitches);
    var connOk := connErrors == [];
    var hasGate := CheckAtLeastOneGate(scene.gates);
    var (s, tableOk, tableDiags) := TableCheck(snap, task, recompute);
    (s, TaskReport(connOk && hasGate && tableOk, CalculateScore(task, true, connOk, hasGate, tableOk), connErrors, hasGate, tableDiags))
  }

  /** Grading the tasks in order, each truth table starting from the switches the previous one left. */
  ghost function GradeTasks(scene: Scene, snap: Snapshot, tasks: seq<LogicTask>, recompute: Recompute): (r: (Snapshot, seq<TaskReport>))
    ensures |r.0.switchOn| == |snap.switchOn| && |r.1| == |tasks|
    decreases |tasks|
  {
    if tasks == [] then (snap, [])
    else
      var (s, reports) := GradeTasks(scene, snap, tasks[..|tasks| - 1], recompute);
      var (s', line) := GradeTask(scene, s, tasks[|tasks| - 1], recompute);
      (s', reports + [line])
  }

  lemma GradeTasksStep(scene: Scene, snap: Snapshot, tasks: seq<LogicTask>, i: nat, recompute: Recompute)
    requires i < |tasks|
    ensures var (s, reports) := GradeTasks(scene, snap, tasks[..i], recompute);
            var (s', line) := GradeTask(scene, s, tasks[i], recompute);
            GradeTasks(scene, snap, tasks[..i + 1], recompute) == (s', reports + [line])
  {
    assert tasks[..i + 1][..i] == tasks[..i];
  }

  /** Every task earns at most its full score, and at least the points of the fixed switch verdict. */
  lemma {:induction false} GradedScoresWithinCaps(scene: Scene, snap: Snapshot, tasks: seq<LogicTask>, recompute: Recompute)
    requires NonNegative(Caps(tasks))
    ensures forall i :: 0 <= i < |tasks| ==>
              var s := GradeTasks(scene, snap, tasks, recompute).1[i].score;
              (if tasks[i].score < 10 then tasks[i].score else 10) <= s <= tasks[i].score
    decreases |tasks|
  {
    if tasks != [] {
      var init := tasks[..|tasks| - 1];
      GradedScoresWithinCaps(scene, snap, init, recompute);
      assert forall i :: 0 <= i < |init| ==> init[i] == tasks[i];
    }
  }

  function Scores(reports: seq<TaskReport>): (xs: seq<int>)
    ensures |xs| == |reports| && forall i :: 0 <= i < |reports| ==> xs[i] == reports[i].score
  {
    seq(|reports|, i requires 0 <= i < |reports| => reports[i].score)
  }

  function Caps(tasks: seq<LogicTask>): (xs: seq<int>)
    ensures |xs| == |tasks| && forall i :: 0 <= i < |tasks| ==> xs[i] == tasks[i].score
  {
    seq(|tasks|, i requires 0 <= i < |tasks| => tasks[i].score)
  }

  /** The sum of every task's full score. */
  function MaxScore(tasks: seq<LogicTask>): int
  {
    Sum(Caps(tasks))
  }

  /** With no negative full score, the graded total lies between 0 and the maximum. */
  lemma TotalWithinMax(scene: Scene, snap: Snapshot, tasks: seq<LogicTask>, recompute: Recompute)
    requires NonNegative(Caps(tasks))
    ensures 0 <= Sum(Scores(GradeTasks(scene, snap, tasks, recompute).1)) <= MaxScore(tasks)
  {
    GradedScoresWithinCaps(scene, snap, tasks, recompute);
    SumWithinCaps(Scores(GradeTasks(scene, snap, tasks, recompute).1), Caps(tasks));
  }

  /** `int` wrap-around of the full-score sum: two tasks worth 2^31 - 1 and 1 make `GetMaxScore` report -2^31. */
  lemma ReportedMaxCanWrap()
    ensures var tasks := [Worth(0x7FFF_FFFF), Worth(1)];
      NonNegative(Caps(tasks)) && MaxScore(tasks) == 0x8000_0000 && Wrap32(MaxScore(tasks)) == -0x8000_0000
  {
    var tasks := [Worth(0x7FFF_FFFF), Worth(1)];
    assert Caps(tasks) == [0x7FFF_FFFF, 1];
    assert Caps(tasks)[..1] == [0x7FFF_FFFF];
    assert [0x7FFF_FFFF][..0] == [];
    assert Sum([0x7FFF_FFFF]) == 0x7FFF_FFFF;
  }

  /** A task with no checks, worth `score`. */
  function Worth(score: int): (t: LogicTask)
    ensures t.score == score
  {
    LogicTask("", [], None, score, [])
  }

  /** One `scoreAccumulated += scoreThisTask` keeps the accumulator at the wrapped sum of the reported scores. */
  lemma AccumulateStep(details: seq<TaskReport>, line: TaskReport, acc: int)
    requires acc == Wrap32(Sum(Scores(details)))
    ensures Wrap32(acc + line.score) == Wrap32(Sum(Scores(details + [line])))
  {
    SumAppend(Scores(details), line.score);
    assert Scores(details + [line]) == Scores(details) + [line.score];
    Wrap32Add(Sum(Scores(details)), line.score);
  }

  /** A task after `Awake`: an empty truth table becomes the default one. */
  function WithDefaultTable(task: LogicTask): (t: LogicTask)
  {
    if task.truthTableEntries == [] then task.(truthTableEntries := DefaultTable()) else task
  }

  /** `Awake` leaves no task without rows and changes nothing on a second run. */
  lemma WithDefaultTableFills(task: LogicTask)
    ensures WithDefaultTable(task).truthTableEntries != []
    ensures WithDefaultTable(WithDefaultTable(task)) == WithDefaultTable(task)
    ensures WithDefaultTable(task).(truthTableEntries := task.truthTableEntries) == task
  {
    DefaultTableCoversEachComboOnce();
  }

  class QuizManager3 {
    var tasks: seq<LogicTask>
    var totalScore: int
    var resultMessage: ResultMessage

    constructor (tasks: seq<LogicTask>)
      ensures this.tasks == tasks && totalScore == 0 && resultMessage == ResultMessage(0, 0, [])
    {
      this.tasks := tasks;
      totalScore := 0;
      resultMessage := ResultMessage(0, 0, []);
    }

    /** `Awake`: every task with an empty truth table gets the 64 default rows; other tasks are untouched. */
    method Awake()
      modifies this`tasks
      ensures |tasks| == |old(tasks)|
      ensures forall i :: 0 <= i < |tasks| ==> tasks[i] == WithDefaultTable(old(tasks)[i])
    {
      for t := 0 to |tasks|
        invariant |tasks| == |old(tasks)|
        invariant forall i :: 0 <= i < t ==> tasks[i] == WithDefaultTable(old(tasks)[i])
        invariant forall i :: t <= i < |tasks| ==> tasks[i] == old(tasks)[i]
      {
        if tasks[t].truthTableEntries == [] {
          var entries := tasks[t].truthTableEntries;
          for i := 0 to 64
            invariant entries == DefaultTable()[..i]
          {
            entries := entries + [Entry(i, false)];
          }
          assert entries == DefaultTable();
          tasks := tasks[t := tasks[t].(truthTableEntries := entries)];
        }
      }
    }

    /** `GetMaxScore`: the sum of every task's `score`, whatever the checks say. */
    method GetMaxScore() returns (maxScore: int)
      ensures maxScore == Wrap32(MaxScore(tasks))
    {
      maxScore := 0;
      Wrap32InRange(0);
      for i := 0 to |tasks|
        invariant maxScore == Wrap32(Sum(Caps(tasks[..i])))
      {
        assert Caps(tasks[..i + 1]) == Caps(tasks[..i]) + [tasks[i].score];
        Wrap32Add(Sum(Caps(tasks[..i])), tasks[i].score);
        maxScore := Wrap32(maxScore + tasks[i].score);
      }
      assert tasks[..|tasks|] == tasks;
    }

    /** The body of `CheckAllTasks`' loop for one task. */
    method CheckTask(scene: Scene, task: LogicTask, board: Board) returns (line: TaskReport)
      requires TableRunnable(task, board.switchOn.Length)
      modifies board`signals, board.switchOn
      ensures (board.Snap(), line) == GradeTask(scene, old(board.Snap()), task, board.recompute)
    {
      var toggleCorrect := true;
      var connectionCorrect, connectionErrors := CheckConnectionsWithError(task, scene);
      var hasGate := CheckAtLeastOneGate(scene.gates);
      var truthTableCorrect, truthTableErrors := CheckTruthTableOutput(task, board);
      var isTaskAllCorrect := toggleCorrect && connectionCorrect && hasGate && truthTableCorrect;
      var scoreThisTask := CalculateScore(task, toggleCorrect, connectionCorrect, hasGate, truthTableCorrect);
      line := TaskReport(isTaskAllCorrect, scoreThisTask, connectionErrors, hasGate, truthTableErrors);
    }

    /**
      `CheckAllTasks`: the tasks are graded in order on the live board, the
      total is the sum of the task scores and, when no task has a negative
      full score, lies between 0 and the maximum.
     */
    method CheckAllTasks(scene: Scene, board: Board)
      requires TasksRunnable(tasks, board.switchOn.Length)
      modifies this`totalScore, this`resultMessage, board`signals, board.switchOn
      ensures (board.Snap(), resultMessage.details) == GradeTasks(scene, old(board.Snap()), tasks, board.recompute)
      ensures totalScore == Wrap32(Sum(Scores(resultMessage.details))) == resultMessage.total
      ensures resultMessage.maxScore == Wrap32(MaxScore(tasks))
      ensures NonNegative(Caps(tasks)) && MaxScore(tasks) < 0x8000_0000 ==>
                0 <= totalScore <= resultMessage.maxScore == MaxScore(tasks)
    {
      ghost var start := board.Snap();
      var scoreAccumulated := 0;
      var details: seq<TaskReport> := [];
      Wrap32InRange(0);
      for i := 0 to |tasks|
        invariant (board.Snap(), details) == GradeTasks(scene, start, tasks[..i], board.recompute)
        invariant scoreAccumulated == Wrap32(Sum(Scores(details)))
      {
        GradeTasksStep(scene, start, tasks, i, board.recompute);
        var line := CheckTask(scene, tasks[i], board);
        AccumulateStep(details, line, scoreAccumulated);
        scoreAccumulated := Wrap32(scoreAccumulated + line.score);
        details := details + [line];
      }
      assert tasks[..|tasks|] == tasks;
      totalScore := scoreAccumulated;
      var maxScore := GetMaxScore();
      resultMessage := ResultMessage(scoreAccumulated, maxScore, details);
      if NonNegative(Caps(tasks)) && MaxScore(tasks) < 0x8000_0000 {
        TotalWithinMax(scene, start, tasks, board.recompute);
        Wrap32InRange(Sum(Scores(details)));
        Wrap32InRange(MaxScore(tasks));
      }
    }

    /**
      `NotifySpawnedObject`: a spawned LED becomes the first task's LED (and
      nothing else happens); otherwise a spawned switch fills the first task's
      lowest empty slot. Everything else is left as it was.
     */
    method NotifySpawnedObject(obj: Spawned)
      modifies this`tasks
      ensures obj.led.Some? && |old(tasks)| > 0 ==> tasks == old(tasks)[0 := old(tasks)[0].(ledToCheck := obj.led)]
      ensures obj.led.None? && obj.toggle.Some? && |old(tasks)| > 0 ==>
                tasks == old(tasks)[0 := old(tasks)[0].(toggleSwitches := FillFirstEmpty(old(tasks)[0].toggleSwitches, obj.toggle.value))]
      ensures |old(tasks)| == 0 || (obj.led.None? && obj.toggle.None?) ==> tasks == old(tasks)
    {
      if obj.led.Some? {
        if |tasks| > 0 {
          tasks := tasks[0 := tasks[0].(ledToCheck := obj.led)];
        }
        return;
      }
      if obj.toggle.Some? {
        if |tasks| > 0 {
          var slots := tasks[0].toggleSwitches;
          var i := 0;
          while i < |slots|
            invariant 0 <= i <= |slots|
            invariant forall k :: 0 <= k < i ==> slots[k].Some?
            invariant slots == tasks[0].toggleSwitches
          {
            if slots[i].None? {
              FillFirstEmptyFillsLowest(slots, obj.toggle.value, i);
              slots := slots[i := obj.toggle];
              break;
            }
            i := i + 1;
          }
          if i == |slots| {
            FillFirstEmptyKeepsFull(slots, obj.toggle.value);
          }
          tasks := tasks[0 := tasks[0].(toggleSwitches := slots)];
        }
        return;
      }
    }
  }
}
