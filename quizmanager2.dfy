/**
  QuizManager2: grades each task by four structural checks (switch pattern
  against target numbers, a wire into the LED, presence of a required gate
  kind, gate naming) and a penalising score, then totals the scores.
 */
module QuizManager2 {
  import opened Circuit
  import Connectivity

  /** A task as configured in the inspector. */
  datatype LogicTask = LogicTask(
    description: string,
    requireAndGate: bool,
    requireOrGate: bool,
    requireNandGate: bool,
    requireNorGate: bool,
    requireXorGate: bool,
    requireXnorGate: bool,
    requireNotGate: bool,
    toggleSwitches: seq<Option<SwitchId>>,
    targetNumbers: seq<int>,
    ledToCheck: Option<Led>,
    score: int)

  /** The `require…Gate` flag of kind `k`. */
  predicate Required(task: LogicTask, k: GateKind)
  {
    match k
    case And => task.requireAndGate
    case Or => task.requireOrGate
    case Nand => task.requireNandGate
    case Nor => task.requireNorGate
    case Xor => task.requireXorGate
    case Xnor => task.requireXnorGate
    case Not => task.requireNotGate
  }

  /** `needAnyGate`. */
  predicate NeedsAnyGate(task: LogicTask)
  {
    task.requireAndGate || task.requireOrGate || task.requireNandGate || task.requireNorGate
    || task.requireXorGate || task.requireXnorGate || task.requireNotGate
  }

  lemma NeedsAnyGateIffSomeKind(task: LogicTask)
    ensures NeedsAnyGate(task) <==> exists k :: Required(task, k)
  {
    if NeedsAnyGate(task) {
      var k :| k in Kinds && Required(task, k);
    }
  }

  // ---------------------------------------------------------------------------
  // 1) Switch pattern against the target numbers.
  // ---------------------------------------------------------------------------

  /** The source reads `ledToCheck.input.isOn` whenever the LED is bound and there are switches. */
  predicate ToggleReadable(task: LogicTask)
  {
    task.ledToCheck.Some? && |task.toggleSwitches| > 0 ==> task.ledToCheck.value.input.Some?
  }

  /** Slot `i` holds a switch that is on. */
  predicate SlotOn(slots: seq<Option<SwitchId>>, on: seq<bool>, i: nat)
    requires i < |slots| && SlotsKnown(slots, |on|)
  {
    slots[i].Some? && on[slots[i].value]
  }

  /**
    The 32-bit pattern `switchValue` holds after the loop over the first `n`
    slots; `1 << i` only uses the low five bits of `i`.
   */
  function SwitchValue(slots: seq<Option<SwitchId>>, on: seq<bool>, n: nat): (v: nat)
    requires n <= |slots| && SlotsKnown(slots, |on|)
    ensures v < Pow2(32)
    decreases n
  {
    if n == 0 then 0
    else
      var v := SwitchValue(slots, on, n - 1);
      SetBitStaysBelow(v, (n - 1) % 32, 32);
      if SlotOn(slots, on, n - 1) then SetBit(v, (n - 1) % 32) else v
  }

  /** The `int` the pattern denotes: bit 31 is the sign. */
  function ToInt32(v: int): int
  {
    if v < 0x8000_0000 then v else v - 0x1_0000_0000
  }

  /** What `CheckToggleSwitches` decides. */
  function ToggleVerdict(task: LogicTask, on: seq<bool>, signals: map<InId, bool>): bool
    requires SlotsKnown(task.toggleSwitches, |on|) && ToggleReadable(task)
  {
    if task.ledToCheck.None? || |task.toggleSwitches| == 0 then true
    else
      var isLedOn := SignalOf(signals, task.ledToCheck.value.input.value);
      isLedOn == (ToInt32(SwitchValue(task.toggleSwitches, on, |task.toggleSwitches|)) in task.targetNumbers)
  }

  /**
    Bit `k` of the pattern is set exactly when some slot `i` with `i % 32 == k`
    holds a switch that is on; no bit above 31 is ever set.
   */
  lemma {:induction false} SwitchValueBits(slots: seq<Option<SwitchId>>, on: seq<bool>, n: nat, k: nat)
    requires n <= |slots| && SlotsKnown(slots, |on|)
    ensures Bit(SwitchValue(slots, on, n), k) <==> k < 32 && exists i :: 0 <= i < n && i % 32 == k && SlotOn(slots, on, i)
    decreases n
  {
    if k >= 32 {
      Pow2Grows(32, k);
      BitAboveIsClear(SwitchValue(slots, on, n), k);
    } else if n > 0 {
      var v, v' := SwitchValue(slots, on, n - 1), SwitchValue(slots, on, n);
      var m := (n - 1) % 32;
      SwitchValueBits(slots, on, n - 1, k);
      SetBitBits(v, m, k);
      assert Bit(v', k) == (Bit(v, k) || (k == m && SlotOn(slots, on, n - 1)));
      if k == m && SlotOn(slots, on, n - 1) {
        assert (n - 1) % 32 == k;
      }
      if i :| 0 <= i < n && i % 32 == k && SlotOn(slots, on, i) {
        if i < n - 1 {
          assert Bit(v, k);
        }
      }
    } else {
      BitAboveIsClear(0, k);
    }
  }


  /** Sum of `2^i` over the slots `i < n` whose switch is on. */
  function OnWeight(slots: seq<Option<SwitchId>>, on: seq<bool>, n: nat): nat
    requires n <= |slots| && SlotsKnown(slots, |on|)
    decreases n
  {
    if n == 0 then 0 else OnWeight(slots, on, n - 1) + (if SlotOn(slots, on, n - 1) then Pow2(n - 1) else 0)
  }

  /** Up to 32 slots the pattern is the binary number the switches spell. */
  lemma {:induction false} SwitchValueIsWeight(slots: seq<Option<SwitchId>>, on: seq<bool>, n: nat)
    requires n <= |slots| && n <= 32 && SlotsKnown(slots, |on|)
    ensures SwitchValue(slots, on, n) == OnWeight(slots, on, n) < Pow2(n)
    decreases n
  {
    if n > 0 {
      var v := SwitchValue(slots, on, n - 1);
      SwitchValueIsWeight(slots, on, n - 1);
      BitAboveIsClear(v, n - 1);
      assert (n - 1) % 32 == n - 1;
    }
  }

  /** Up to 31 slots the sign bit stays clear, so the `int` compared with the targets is that number. */
  lemma SwitchValueAsInt(slots: seq<Option<SwitchId>>, on: seq<bool>, n: nat)
    requires n <= |slots| && n <= 31 && SlotsKnown(slots, |on|)
    ensures ToInt32(SwitchValue(slots, on, n)) == OnWeight(slots, on, n)
  {
    SwitchValueIsWeight(slots, on, n);
    Pow2Grows(n, 31);
    Pow2Of32();
  }

  /** `CheckToggleSwitches`: the LED is on exactly when the switch pattern is a target number. */
  method CheckToggleSwitches(task: LogicTask, on: seq<bool>, signals: map<InId, bool>) returns (ok: bool)
    requires SlotsKnown(task.toggleSwitches, |on|) && ToggleReadable(task)
    ensures ok == ToggleVerdict(task, on, signals)
    ensures task.ledToCheck.None? || task.toggleSwitches == [] ==> ok
  {
    if task.ledToCheck.None? || |task.toggleSwitches| == 0 {
      return true;
    }
    var slots := task.toggleSwitches;
    var switchValue := 0;
    for i := 0 to |slots|
      invariant switchValue == SwitchValue(slots, on, i)
    {
      if slots[i].Some? && on[slots[i].value] {
        switchValue := SetBit(switchValue, i % 32);
      }
    }
    var isLedOn := SignalOf(signals, task.ledToCheck.value.input.value);
    var shouldLedBeOn := ToInt32(switchValue) in task.targetNumbers;
    if isLedOn && !shouldLedBeOn {
      return false;
    }
    if !isLedOn && shouldLedBeOn {
      return false;
    }
    return true;
  }

  // ---------------------------------------------------------------------------
  // 2) Some wire ends at the LED.
  // ---------------------------------------------------------------------------

  /** Some wire of some manager ends at the LED's input (always true without an LED). */
  ghost predicate WiredToLed(managers: seq<seq<Wire>>, led: Option<Led>)
  {
    led.None? ||
    exists m, j :: 0 <= m < |managers| && 0 <= j < |managers[m]| && Some(managers[m][j].1) == led.value.input
  }

  /** `CheckConnections`: scans the managers and stops at the first wire into the LED. */
  method CheckConnections(task: LogicTask, scene: Scene) returns (isConnected: bool)
    ensures isConnected <==> WiredToLed(scene.managers, task.ledToCheck)
  {
    if task.ledToCheck.None? {
      return true;
    }
    var target := task.ledToCheck.value.input;
    var managers: seq<seq<Wire>> := scene.managers;
    isConnected := false;
    var m := 0;
    while m < |managers|
      invariant 0 <= m <= |managers|
      invariant !isConnected ==> forall m': int, j: int :: 0 <= m' < m && 0 <= j < |managers[m']| ==> Some(managers[m'][j].1) != target
      invariant isConnected ==> WiredToLed(managers, task.ledToCheck)
      decreases |managers| - m, if isConnected then 0 else 1
    {
      var connections: seq<Wire> := managers[m];
      var j := 0;
      while j < |connections|
        invariant 0 <= j <= |connections|
        invariant !isConnected ==> forall j': int :: 0 <= j' < j ==> Some(connections[j'].1) != target
        invariant isConnected ==> WiredToLed(managers, task.ledToCheck)
        decreases |connections| - j, if isConnected then 0 else 1
      {
        if Some(connections[j].1) == target {
          isConnected := true;
          break;
        }
        j := j + 1;
      }
      if isConnected {
        break;
      }
      m := m + 1;
    }
  }

  /** The check reads the same wires as the merged index of all managers. */
  lemma WiredToLedIffSomeWire(managers: seq<seq<Wire>>, led: Led)
    ensures WiredToLed(managers, Some(led)) <==> exists w: Wire :: w in Wires(managers) && Some(w.1) == led.input
  {
    if WiredToLed(managers, Some(led)) {
      var m, j :| 0 <= m < |managers| && 0 <= j < |managers[m]| && Some(managers[m][j].1) == led.input;
      WiresHoldsEveryManager(managers, managers[m][j]);
    }
    if w: Wire :| w in Wires(managers) && Some(w.1) == led.input {
      WiresHoldsEveryManager(managers, w);
      var m :| 0 <= m < |managers| && w in managers[m];
      var j :| 0 <= j < |managers[m]| && managers[m][j] == w;
    }
  }

  /**
    A switch connected to the LED through a gate (the stricter QuizManager3
    search) always passes this check, which asks for no gate at all.
   */
  lemma GatedRoutePassesWireCheck(scene: Scene, led: Led, toggle: SwitchId)
    requires Connectivity.ConnectedThroughGate(scene, Some(led), toggle)
    ensures WiredToLed(scene.managers, Some(led))
  {
    var ledIn := led.input.value;
    var p: seq<Wire> :| Connectivity.GatedRoute(scene, Wires(scene.managers), ledIn, toggle, p);
    WiredToLedIffSomeWire(scene.managers, led);
    assert p[0] in Wires(scene.managers) && p[0].1 == ledIn;
  }

  // ---------------------------------------------------------------------------
  // 3) Gate presence and 4) gate naming.
  // ---------------------------------------------------------------------------

  /** `CheckGatePresence`: one instance of any one required kind suffices. */
  function CheckGatePresence(task: LogicTask, gates: seq<Gate>): (ok: bool)
    ensures ok <==> !NeedsAnyGate(task) || exists j :: 0 <= j < |gates| && Required(task, gates[j].kind)
  {
    if !NeedsAnyGate(task) then true
    else
      (task.requireAndGate && CountKind(gates, And) > 0)
      || (task.requireOrGate && CountKind(gates, Or) > 0)
      || (task.requireNandGate && CountKind(gates, Nand) > 0)
      || (task.requireNorGate && CountKind(gates, Nor) > 0)
      || (task.requireXorGate && CountKind(gates, Xor) > 0)
      || (task.requireXnorGate && CountKind(gates, Xnor) > 0)
      || (task.requireNotGate && CountKind(gates, Not) > 0)
  }

  /** The stricter reading: every required kind has an instance. */
  predicate AllRequiredPresent(task: LogicTask, gates: seq<Gate>)
  {
    forall k :: Required(task, k) ==> CountKind(gates, k) > 0
  }

  /** Whenever every required kind is present the check passes. */
  lemma AllRequiredPresentPasses(task: LogicTask, gates: seq<Gate>)
    requires AllRequiredPresent(task, gates)
    ensures CheckGatePresence(task, gates)
  {
    if NeedsAnyGate(task) {
      NeedsAnyGateIffSomeKind(task);
      var k :| Required(task, k);
      assert CountKind(gates, k) > 0;
    }
  }

  /** The converse fails: a task requiring And and Or passes with a lone AND gate. */
  lemma OneRequiredKindSuffices()
    ensures var task := LogicTask("", true, true, false, false, false, false, false, [], [], None, 50);
            var gates := [Gate(And, "AndGate_1")];
            CheckGatePresence(task, gates) && !AllRequiredPresent(task, gates)
  {
    var gates := [Gate(And, "AndGate_1")];
    assert CountKind(gates, Or) == 0;
  }

  /** Every instance of every required kind carries its kind's prefix. */
  ghost predicate NamesFollowPrefixes(task: LogicTask, gates: seq<Gate>)
  {
    forall j :: 0 <= j < |gates| && Required(task, gates[j].kind) ==> StartsWith(gates[j].name, Prefix(gates[j].kind))
  }

  lemma EveryKindIsScanned(k: GateKind)
    ensures k in Kinds
  {
  }

  /**
    `CheckGateNaming`: scans the required kinds in order; `warnings` are the
    gates reported by `LogWarning`, instances of required kinds with a wrong
    prefix. Instances of kinds that are not required are never examined.
   */
  method CheckGateNaming(task: LogicTask, gates: seq<Gate>) returns (namingOK: bool, warnings: seq<Gate>)
    ensures namingOK <==> NamesFollowPrefixes(task, gates)
    ensures forall g :: g in warnings <==> g in gates && Required(task, g.kind) && !StartsWith(g.name, Prefix(g.kind))
    ensures namingOK <==> warnings == []
  {
    if !NeedsAnyGate(task) {
      return true, [];
    }
    namingOK, warnings := true, [];
    for ki := 0 to |Kinds|
      invariant namingOK <==> warnings == []
      invariant forall g :: g in warnings <==>
        g in gates && g.kind in Kinds[..ki] && Required(task, g.kind) && !StartsWith(g.name, Prefix(g.kind))
    {
      var k := Kinds[ki];
      assert Kinds[..ki + 1] == Kinds[..ki] + [k];
      if Required(task, k) {
        for j := 0 to |gates|
          invariant namingOK <==> warnings == []
          invariant forall g :: g in warnings <==>
            g in gates && !StartsWith(g.name, Prefix(g.kind)) &&
            ((g.kind in Kinds[..ki] && Required(task, g.kind)) || (g.kind == k && g in gates[..j]))
        {
          assert gates[..j + 1] == gates[..j] + [gates[j]];
          if gates[j].kind == k && !StartsWith(gates[j].name, Prefix(k)) {
            warnings := warnings + [gates[j]];
            namingOK := false;
          }
        }
        assert gates[..|gates|] == gates;
      }
    }
    assert Kinds[..|Kinds|] == Kinds;
    forall g | g in gates
      ensures g.kind in Kinds
    {
      EveryKindIsScanned(g.kind);
    }
    if !namingOK {
      var g := warnings[0];
      assert g in warnings;
      var j :| 0 <= j < |gates| && gates[j] == g;
    }
  }

  /** A worked case: an AND gate named "Foo" fails the naming check, "AndGate_1" passes. */
  lemma NamingExamples()
    ensures var task := LogicTask("", true, false, false, false, false, false, false, [], [], None, 50);
            !NamesFollowPrefixes(task, [Gate(And, "Foo")]) && NamesFollowPrefixes(task, [Gate(And, "AndGate_1")])
  {
    var bad, good := [Gate(And, "Foo")], [Gate(And, "AndGate_1")];
    assert !StartsWith(bad[0].name, Prefix(bad[0].kind));
    assert good[0].name[..8] == "AndGate_";
    assert StartsWith(good[0].name, Prefix(good[0].kind));
  }

  // ---------------------------------------------------------------------------
  // 5) Scoring.
  // ---------------------------------------------------------------------------

  /** The sum before clamping: +30/-10, +20/-10, +15/-5, +15/-5. */
  function RawScore(toggle: bool, connection: bool, presence: bool, naming: bool): (s: int)
    ensures -30 <= s <= 80
    ensures s == 80 <==> toggle && connection && presence && naming
    ensures s == -30 <==> !toggle && !connection && !presence && !naming
  {
    (if toggle then 30 else -10) + (if connection then 20 else -10)
    + (if presence then 15 else -5) + (if naming then 15 else -5)
  }

  /** `CalculateScore`: the raw sum clamped to [0, task.score]. */
  function CalculateScore(task: LogicTask, toggle: bool, connection: bool, presence: bool, naming: bool): (s: int)
    ensures task.score >= 0 ==> 0 <= s <= task.score
    ensures !toggle && !connection && !presence && !naming ==> s == 0
    ensures toggle && connection && presence && naming ==> s == if task.score < 80 then task.score else 80
    ensures task.score < 0 ==> s == (if RawScore(toggle, connection, presence, naming) < 0 then 0 else task.score)
  {
    Clamp(RawScore(toggle, connection, presence, naming), 0, task.score)
  }

  /** With a non-negative full score, turning any verdict from false to true never lowers the score. */
  lemma ScoreMonotone(task: LogicTask, t: bool, c: bool, p: bool, n: bool, t': bool, c': bool, p': bool, n': bool)
    requires task.score >= 0
    requires (t ==> t') && (c ==> c') && (p ==> p') && (n ==> n')
    ensures CalculateScore(task, t, c, p, n) <= CalculateScore(task, t', c', p', n')
  {
    assert RawScore(t, c, p, n) <= RawScore(t', c', p', n');
  }

  // ---------------------------------------------------------------------------
  // The manager.
  // ---------------------------------------------------------------------------

  /** One line of the result message: whether every check passed, and the points. */
  datatype TaskReport = TaskReport(allCorrect: bool, score: int)

  /** `resultMessage`: the total, the maximum, and one line per task. */
  datatype ResultMessage = ResultMessage(total: int, maxScore: int, details: seq<TaskReport>)

  /** The switch states and connector values a grading run reads. */
  predicate TaskReadable(task: LogicTask, on: seq<bool>)
  {
    SlotsKnown(task.toggleSwitches, |on|) && ToggleReadable(task)
  }

  /** The line `CheckAllTasks` reports for one task. */
  ghost function GradeTask(task: LogicTask, scene: Scene, on: seq<bool>, signals: map<InId, bool>): TaskReport
    requires TaskReadable(task, on)
  {
    var t := ToggleVerdict(task, on, signals);
    var c := WiredToLed(scene.managers, task.ledToCheck);
    var p := CheckGatePresence(task, scene.gates);
    var n := NamesFollowPrefixes(task, scene.gates);
    TaskReport(t && c && p && n, CalculateScore(task, t, c, p, n))
  }

  /** The report lines of a sequence of tasks, in order. */
  ghost function GradeTasks(tasks: seq<LogicTask>, scene: Scene, on: seq<bool>, signals: map<InId, bool>): (r: seq<TaskReport>)
    requires forall i :: 0 <= i < |tasks| ==> TaskReadable(tasks[i], on)
    ensures |r| == |tasks|
    decreases |tasks|
  {
    if tasks == [] then []
    else GradeTasks(tasks[..|tasks| - 1], scene, on, signals) + [GradeTask(tasks[|tasks| - 1], scene, on, signals)]
  }

  lemma GradeTasksStep(tasks: seq<LogicTask>, i: nat, scene: Scene, on: seq<bool>, signals: map<InId, bool>)
    requires i < |tasks| && forall k :: 0 <= k < |tasks| ==> TaskReadable(tasks[k], on)
    ensures GradeTasks(tasks[..i + 1], scene, on, signals) == GradeTasks(tasks[..i], scene, on, signals) + [GradeTask(tasks[i], scene, on, signals)]
  {
    assert tasks[..i + 1][..i] == tasks[..i];
  }

  /** One `scoreAccumulated += scoreThisTask` keeps the accumulator at the wrapped sum of the reported scores. */
  lemma AccumulateStep(details: seq<TaskReport>, line: TaskReport, acc: int)
    requires acc == Wrap32(Sum(Scores(details)))
    ensures Wrap32(acc + line.score) == Wrap32(Sum(Scores(details + [line])))
  {
    SumAppend(Scores(details), line.score);
    assert Scores(details + [line]) == Scores(details) + [line.score];
    Wrap32Add(Sum(Scores(details)), line.score);
  }

  /** Line `i` of the report grades task `i`. */
  lemma {:induction false} GradeTasksLineByLine(tasks: seq<LogicTask>, scene: Scene, on: seq<bool>, signals: map<InId, bool>)
    requires forall i :: 0 <= i < |tasks| ==> TaskReadable(tasks[i], on)
    ensures forall i :: 0 <= i < |tasks| ==> GradeTasks(tasks, scene, on, signals)[i] == GradeTask(tasks[i], scene, on, signals)
    decreases |tasks|
  {
    if tasks != [] {
      var init := tasks[..|tasks| - 1];
      GradeTasksLineByLine(init, scene, on, signals);
      var r := GradeTasks(tasks, scene, on, signals);
      assert r == GradeTasks(init, scene, on, signals) + [GradeTask(tasks[|init|], scene, on, signals)];
      forall i | 0 <= i < |tasks|
        ensures r[i] == GradeTask(tasks[i], scene, on, signals)
      {
        if i < |init| {
          assert init[i] == tasks[i];
        }
      }
    }
  }

  function Scores(reports: seq<TaskReport>): (xs: seq<int>)
    ensures |xs| == |reports| && forall i :: 0 <= i < |reports| ==> xs[i] == reports[i].score
  {
    seq(|reports|, i requires 0 <= i < |reports| => reports[i].score)
  }

  function Caps(tasks: seq<LogicTask>): (xs: seq<int>)
    ensures |xs| == |tasks| && forall i :: 0 <= i < |tasks| ==> xs[i] == tasks[i].score
  {
    seq(|tasks|, i requires 0 <= i < |tasks| => tasks[i].score)
  }

  /** The sum of every task's full score. */
  function MaxScore(tasks: seq<LogicTask>): int
  {
    Sum(Caps(tasks))
  }

  /** With no negative full score, the graded total lies between 0 and the maximum. */
  lemma TotalWithinMax(tasks: seq<LogicTask>, scene: Scene, on: seq<bool>, signals: map<InId, bool>)
    requires forall i :: 0 <= i < |tasks| ==> TaskReadable(tasks[i], on)
    requires NonNegative(Caps(tasks))
    ensures 0 <= Sum(Scores(GradeTasks(tasks, scene, on, signals))) <= MaxScore(tasks)
  {
    GradeTasksLineByLine(tasks, scene, on, signals);
    SumWithinCaps(Scores(GradeTasks(tasks, scene, on, signals)), Caps(tasks));
  }

  /** `int` wrap-around of the full-score sum: two tasks worth 2^31 - 1 and 1 make `GetMaxScore` report -2^31. */
  lemma ReportedMaxCanWrap()
    ensures var tasks := [Worth(0x7FFF_FFFF), Worth(1)];
      NonNegative(Caps(tasks)) && MaxScore(tasks) == 0x8000_0000 && Wrap32(MaxScore(tasks)) == -0x8000_0000
  {
    var tasks := [Worth(0x7FFF_FFFF), Worth(1)];
    assert Caps(tasks) == [0x7FFF_FFFF, 1];
    assert Caps(tasks)[..1] == [0x7FFF_FFFF];
    assert [0x7FFF_FFFF][..0] == [];
    assert Sum([0x7FFF_FFFF]) == 0x7FFF_FFFF;
  }

  /** A task with no checks, worth `score`. */
  function Worth(score: int): (t: LogicTask)
    ensures t.score == score
  {
    LogicTask("", false, false, false, false, false, false, false, [], [], None, score)
  }

  class QuizManager2 {
    var tasks: seq<LogicTask>
    var totalScore: int
    var resultMessage: ResultMessage

    constructor (tasks: seq<LogicTask>)
      ensures this.tasks == tasks && totalScore == 0 && resultMessage == ResultMessage(0, 0, [])
    {
      this.tasks := tasks;
      totalScore := 0;
      resultMessage := ResultMessage(0, 0, []);
    }

    /** `GetMaxScore`: the sum of every task's `score`, whatever the checks say. */
    method GetMaxScore() returns (maxScore: int)
      ensures maxScore == Wrap32(MaxScore(tasks))
    {
      maxScore := 0;
      Wrap32InRange(0);
      for i := 0 to |tasks|
        invariant maxScore == Wrap32(Sum(Caps(tasks[..i])))
      {
        assert Caps(tasks[..i + 1]) == Caps(tasks[..i]) + [tasks[i].score];
        Wrap32Add(Sum(Caps(tasks[..i])), tasks[i].score);
        maxScore := Wrap32(maxScore + tasks[i].score);
      }
      assert tasks[..|tasks|] == tasks;
    }

    /** The body of `CheckAllTasks`' loop for one task: the four checks and the clamped score. */
    method CheckTask(task: LogicTask, scene: Scene, on: seq<bool>, signals: map<InId, bool>) returns (line: TaskReport)
      requires TaskReadable(task, on)
      ensures line == GradeTask(task, scene, on, signals)
    {
      var isToggleCorrect := CheckToggleSwitches(task, on, signals);
      var isConnectionCorrect := CheckConnections(task, scene);
      var isGatePresenceCorrect := CheckGatePresence(task, scene.gates);
      var isNamingCorrect, _ := CheckGateNaming(task, scene.gates);
      var isTaskAllCorrect := isToggleCorrect && isConnectionCorrect && isGatePresenceCorrect && isNamingCorrect;
      var scoreThisTask := CalculateScore(task, isToggleCorrect, isConnectionCorrect, isGatePresenceCorrect, isNamingCorrect);
      line := TaskReport(isTaskAllCorrect, scoreThisTask);
    }

    /**
      `CheckAllTasks`: one report line per task, the total is the sum of the
      task scores and, when no task has a negative full score, lies between 0
      and the maximum.
     */
    method CheckAllTasks(scene: Scene, on: seq<bool>, signals: map<InId, bool>)
      requires forall i :: 0 <= i < |tasks| ==> TaskReadable(tasks[i], on)
      modifies this`totalScore, this`resultMessage
      ensures resultMessage.details == GradeTasks(tasks, scene, on, signals)
      ensures totalScore == Wrap32(Sum(Scores(resultMessage.details))) == resultMessage.total
      ensures resultMessage.maxScore == Wrap32(MaxScore(tasks))
      ensures NonNegative(Caps(tasks)) && MaxScore(tasks) < 0x8000_0000 ==>
                0 <= totalScore <= resultMessage.maxScore == MaxScore(tasks)
    {
      var scoreAccumulated := 0;
      var details: seq<TaskReport> := [];
      Wrap32InRange(0);
      for i := 0 to |tasks|
        invariant details == GradeTasks(tasks[..i], scene, on, signals)
        invariant scoreAccumulated == Wrap32(Sum(Scores(details)))
      {
        var line := CheckTask(tasks[i], scene, on, signals);
        AccumulateStep(details, line, scoreAccumulated);
        scoreAccumulated := Wrap32(scoreAccumulated + line.score);
        GradeTasksStep(tasks, i, scene, on, signals);
        details := details + [line];
      }
      assert tasks[..|tasks|] == tasks;
      totalScore := scoreAccumulated;
      var maxScore := GetMaxScore();
      resultMessage := ResultMessage(scoreAccumulated, maxScore, details);
      if NonNegative(Caps(tasks)) && MaxScore(tasks) < 0x8000_0000 {
        TotalWithinMax(tasks, scene, on, signals);
        Wrap32InRange(Sum(Scores(details)));
        Wrap32InRange(MaxScore(tasks));
      }
    }

    /**
      `NotifySpawnedObject`: a spawned LED becomes the first task's LED (and
      nothing else happens); otherwise a spawned switch fills the first task's
      lowest empty slot. Everything else is left as it was.
     */
    method NotifySpawnedObject(obj: Spawned)
      modifies this`tasks
      ensures obj.led.Some? && |old(tasks)| > 0 ==> tasks == old(tasks)[0 := old(tasks)[0].(ledToCheck := obj.led)]
      ensures obj.led.None? && obj.toggle.Some? && |old(tasks)| > 0 ==>
                tasks == old(tasks)[0 := old(tasks)[0].(toggleSwitches := FillFirstEmpty(old(tasks)[0].toggleSwitches, obj.toggle.value))]
      ensures |old(tasks)| == 0 || (obj.led.None? && obj.toggle.None?) ==> tasks == old(tasks)
    {
      if obj.led.Some? {
        if |tasks| > 0 {
          tasks := tasks[0 := tasks[0].(ledToCheck := obj.led)];
        }
        return;
      }
      if obj.toggle.Some? {
        if |tasks| > 0 {
          var slots := tasks[0].toggleSwitches;
          var i := 0;
          while i < |slots|
            invariant 0 <= i <= |slots|
            invariant forall k :: 0 <= k < i ==> slots[k].Some?
            invariant slots == tasks[0].toggleSwitches
          {
            if slots[i].None? {
              FillFirstEmptyFillsLowest(slots, obj.toggle.value, i);
              slots := slots[i := obj.toggle];
              break;
            }
            i := i + 1;
          }
          if i == |slots| {
            FillFirstEmptyKeepsFull(slots, obj.toggle.value);
          }
          tasks := tasks[0 := tasks[0].(toggleSwitches := slots)];
        }
        return;
      }
    }
  }
}
