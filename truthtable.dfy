/**
  The truth-table side of QuizManager3: the table rows, the diagnostics a
  mismatch produces, the switch states that `CheckTruthTableOutput` drives in
  place, and the specification of a whole run over a table.

  `ForceUpdateCircuit` asks every LED and gate to update once; what the gates
  compute is not part of this model, so a board carries it as an opaque
  `recompute` function from the previous connector values and the switch states
  to the new connector values. It is applied exactly once per row, as in the
  source: there is no fixpoint iteration.
 */
module TruthTable {
  import opened Circuit

  /** `TruthTableEntry`: a combination of the six switches and the LED state it should give. */
  datatype Entry = Entry(input: int, expectedOutput: bool)

  /** What a failed truth-table check reports. */
  datatype TableDiag =
    | WrongArity          // the task does not have exactly six switch slots
    | LedUnbound          // the task has no LED
    | Mismatch(combo: int, binary: string, expected: bool, observed: bool)

  /** The circuit update: previous connector values and switch states to new connector values. */
  type Recompute = (map<InId, bool>, seq<bool>) -> map<InId, bool>

  /** The state a run changes: every switch's `isOn` and every connector's value. */
  datatype Snapshot = Snapshot(switchOn: seq<bool>, signals: map<InId, bool>)

  /** The table `Awake` writes into a task that has none: inputs 0 to 63, each expecting the LED off. */
  function DefaultTable(): seq<Entry>
  {
    seq(64, i => Entry(i, false))
  }

  /** The default table lists every six-switch combination exactly once, in order, each expecting the LED off. */
  lemma DefaultTableCoversEachComboOnce()
    ensures |DefaultTable()| == 64
    ensures forall i :: 0 <= i < 64 ==> DefaultTable()[i] == Entry(i, false)
    ensures forall c :: 0 <= c < 64 ==> Entry(c, false) in DefaultTable()
  {
    forall c | 0 <= c < 64
      ensures Entry(c, false) in DefaultTable()
    {
      assert DefaultTable()[c] == Entry(c, false);
    }
  }

  // ---------------------------------------------------------------------------
  // Binary formatting of a combination.
  // ---------------------------------------------------------------------------

  function Digit(b: bool): char
  {
    if b then '1' else '0'
  }

  /** Base-2 digits of `n` without leading zeros; zero prints as "0". */
  function Digits(n: nat): string
    decreases n
  {
    if n < 2 then [Digit(n == 1)] else Digits(n / 2) + [Digit(n % 2 == 1)]
  }

  /** `Convert.ToString(combo, 2)`: a negative 32-bit value prints as its two's complement. */
  function ToBinary(combo: int): string
  {
    if combo >= 0 then Digits(combo) else Digits(combo % 0x1_0000_0000)
  }

  /** `k` zero characters. */
  function Zeros(k: nat): (z: string)
    ensures |z| == k && forall i :: 0 <= i < k ==> z[i] == '0'
  {
    if k == 0 then [] else Zeros(k - 1) + ['0']
  }

  /** `s.PadLeft(width, '0')`. */
  function PadLeft(s: string, width: nat): string
  {
    if |s| >= width then s else Zeros(width - |s|) + s
  }

  /** The binary form a mismatch reports. */
  function Binary6(combo: int): string
  {
    PadLeft(ToBinary(combo), 6)
  }

  /** There is at least one digit, and just enough of them to hold `n`. */
  lemma {:induction false} DigitsHoldValue(n: nat)
    ensures 1 <= |Digits(n)| && n < Pow2(|Digits(n)|)
    decreases n
  {
    if n >= 2 {
      DigitsHoldValue(n / 2);
      assert |Digits(n)| == |Digits(n / 2)| + 1;
    }
  }

  /** The digits of `n` read from the right are its bits. */
  lemma {:induction false} DigitsAreBits(n: nat)
    ensures forall i :: 0 <= i < |Digits(n)| ==> Digits(n)[|Digits(n)| - 1 - i] == Digit(Bit(n, i))
    decreases n
  {
    if n >= 2 {
      var d := Digits(n / 2);
      DigitsAreBits(n / 2);
      assert Digits(n) == d + [Digit(n % 2 == 1)];
      forall i | 0 <= i < |Digits(n)|
        ensures Digits(n)[|Digits(n)| - 1 - i] == Digit(Bit(n, i))
      {
        if i > 0 {
          assert Bit(n, i) == Bit(n / 2, i - 1);
        }
      }
    }
  }

  lemma {:induction false} DigitsFit(n: nat, k: nat)
    requires 1 <= k && n < Pow2(k)
    ensures |Digits(n)| <= k
    decreases n
  {
    if n >= 2 {
      DigitsFit(n / 2, k - 1);
    }
  }

  /** A bit at or above position `k` of a value below `2^k` is clear. */
  lemma HighBitClear(n: nat, k: nat, i: nat)
    requires n < Pow2(k) && k <= i
    ensures !Bit(n, i)
  {
    Pow2Grows(k, i);
    BitAboveIsClear(n, i);
  }

  /** Padding to a width the string does not exceed puts exactly the missing zeros in front. */
  lemma PadLeftAddsZeros(s: string, width: nat)
    requires |s| <= width
    ensures PadLeft(s, width) == Zeros(width - |s|) + s
  {
    if |s| == width {
      assert Zeros(0) + s == s;
    }
  }

  /** Within the digits, the padded form shows bit `i` at position `width - 1 - i`. */
  lemma PaddedDigitLow(n: nat, width: nat, i: nat)
    requires |Digits(n)| <= width && i < |Digits(n)|
    ensures PadLeft(Digits(n), width)[width - 1 - i] == Digit(Bit(n, i))
  {
    var d := Digits(n);
    PadLeftAddsZeros(d, width);
    assert (Zeros(width - |d|) + d)[width - 1 - i] == d[|d| - 1 - i];
    DigitsAreBits(n);
  }

  /** Left of the digits, the padded form shows '0', and the bit there is clear. */
  lemma PaddedDigitHigh(n: nat, width: nat, i: nat)
    requires |Digits(n)| <= i < width
    ensures PadLeft(Digits(n), width)[width - 1 - i] == Digit(Bit(n, i))
  {
    var d := Digits(n);
    PadLeftAddsZeros(d, width);
    assert (Zeros(width - |d|) + d)[width - 1 - i] == '0';
    DigitsHoldValue(n);
    HighBitClear(n, |d|, i);
  }

  /** Character `width - 1 - i` of the zero-padded digits of a value below `2^width` is its bit `i`. */
  lemma PaddedDigitIsBit(n: nat, width: nat, i: nat)
    requires 1 <= width && n < Pow2(width) && i < width
    ensures |PadLeft(Digits(n), width)| == width
    ensures PadLeft(Digits(n), width)[width - 1 - i] == Digit(Bit(n, i))
  {
    DigitsFit(n, width);
    PadLeftAddsZeros(Digits(n), width);
    if i < |Digits(n)| {
      PaddedDigitLow(n, width, i);
    } else {
      PaddedDigitHigh(n, width, i);
    }
  }

  /** Zero-padding the digits of a value below `2^width` gives exactly its `width` low bits, most significant first. */
  lemma PaddedDigitsAreBits(n: nat, width: nat)
    requires 1 <= width && n < Pow2(width)
    ensures |PadLeft(Digits(n), width)| == width
    ensures forall i :: 0 <= i < width ==> PadLeft(Digits(n), width)[width - 1 - i] == Digit(Bit(n, i))
  {
    PaddedDigitIsBit(n, width, 0);
    forall i | 0 <= i < width
      ensures PadLeft(Digits(n), width)[width - 1 - i] == Digit(Bit(n, i))
    {
      PaddedDigitIsBit(n, width, i);
    }
  }

  /**
    For a combination of six switches the reported form has six characters,
    character `5 - i` giving switch `i` (most significant bit first).
   */
  lemma Binary6Bits(combo: int)
    requires 0 <= combo < 64
    ensures |Binary6(combo)| == 6
    ensures forall i :: 0 <= i < 6 ==> Binary6(combo)[5 - i] == Digit(Bit(combo, i))
  {
    assert Binary6(combo) == PadLeft(Digits(combo), 6);
    assert Pow2(6) == 64 by {
      assert Pow2(2) == 4 && Pow2(4) == 16;
    }
    PaddedDigitsAreBits(combo, 6);
  }


  // ---------------------------------------------------------------------------
  // Driving the switches and running a table.
  // ---------------------------------------------------------------------------

  /** Every slot holds a switch known to the board. */
  predicate SlotsBound(slots: seq<Option<SwitchId>>, switchCount: nat)
  {
    forall i :: 0 <= i < |slots| ==> slots[i].Some? && slots[i].value < switchCount
  }

  /** No switch sits in two slots. */
  predicate SlotsDistinct(slots: seq<Option<SwitchId>>)
  {
    forall i, j :: 0 <= i < j < |slots| ==> slots[i] != slots[j]
  }

  /**
    Switch states after `SetState(((combo >> i) & 1) == 1)` on slots
    `0 .. count - 1` in order. A slot naming no switch of the board changes
    nothing here; the method that drives the board rules such slots out.
   */
  function ApplyBits(states: seq<bool>, slots: seq<Option<SwitchId>>, combo: int, count: nat): (r: seq<bool>)
    requires count <= |slots|
    ensures |r| == |states|
    decreases count
  {
    if count == 0 then states
    else
      var prev := ApplyBits(states, slots, combo, count - 1);
      var slot := slots[count - 1];
      if slot.Some? && slot.value < |prev| then prev[slot.value := Bit(combo, count - 1)] else prev
  }

  /**
    With distinct slots, the switch in slot `i` ends up on exactly when bit `i`
    of the combination is set, and switches in no slot keep their state.
   */
  lemma {:induction false} ApplyBitsSetsSlots(states: seq<bool>, slots: seq<Option<SwitchId>>, combo: int, count: nat)
    requires count <= |slots| && SlotsBound(slots, |states|) && SlotsDistinct(slots)
    ensures forall i :: 0 <= i < count ==> ApplyBits(states, slots, combo, count)[slots[i].value] == Bit(combo, i)
    ensures forall x :: 0 <= x < |states| && (forall i :: 0 <= i < count ==> slots[i].value != x) ==>
              ApplyBits(states, slots, combo, count)[x] == states[x]
    decreases count
  {
    if count > 0 {
      ApplyBitsSetsSlots(states, slots, combo, count - 1);
      forall i | 0 <= i < count - 1
        ensures slots[i].value != slots[count - 1].value
      {
        assert slots[i] != slots[count - 1];
      }
    }
  }

  /** One row: every slot's switch takes its bit of the combination, then the circuit is recomputed once. */
  function RunRow(snap: Snapshot, slots: seq<Option<SwitchId>>, recompute: Recompute, combo: int): (r: Snapshot)
    ensures |r.switchOn| == |snap.switchOn|
  {
    var on := ApplyBits(snap.switchOn, slots, combo, |slots|);
    Snapshot(on, recompute(snap.signals, on))
  }

  /** The diagnostic for a row, if the LED disagrees with it. */
  function RowDiags(e: Entry, observed: bool): seq<TableDiag>
  {
    if observed == e.expectedOutput then [] else [Mismatch(e.input, Binary6(e.input), e.expectedOutput, observed)]
  }

  /** The rows of `entries` run in order from `snap`: the final state and the mismatches found. */
  function RunEntries(snap: Snapshot, slots: seq<Option<SwitchId>>, led: Led, recompute: Recompute, entries: seq<Entry>)
    : (r: (Snapshot, seq<TableDiag>))
    ensures |r.0.switchOn| == |snap.switchOn|
    decreases |entries|
  {
    if entries == [] then (snap, [])
    else
      var (s, ds) := RunEntries(snap, slots, led, recompute, entries[..|entries| - 1]);
      var e := entries[|entries| - 1];
      var s' := RunRow(s, slots, recompute, e.input);
      (s', ds + RowDiags(e, LedIsOn(led, s'.signals)))
  }

  /** The LED reading right after each row was run, in row order. */
  function Readings(snap: Snapshot, slots: seq<Option<SwitchId>>, led: Led, recompute: Recompute, entries: seq<Entry>): (r: seq<bool>)
    ensures |r| == |entries|
    decreases |entries|
  {
    if entries == [] then []
    else
      Readings(snap, slots, led, recompute, entries[..|entries| - 1])
      + [LedIsOn(led, RunEntries(snap, slots, led, recompute, entries).0.signals)]
  }

  /** Reading `k` is what the LED shows once rows `0 .. k` have run, whatever rows follow. */
  lemma {:induction false} ReadingAfterRow(snap: Snapshot, slots: seq<Option<SwitchId>>, led: Led, recompute: Recompute, entries: seq<Entry>, k: nat)
    requires k < |entries|
    ensures Readings(snap, slots, led, recompute, entries)[k] ==
            LedIsOn(led, RunEntries(snap, slots, led, recompute, entries[..k + 1]).0.signals)
    decreases |entries|
  {
    var n := |entries| - 1;
    var init := entries[..n];
    var rs0 := Readings(snap, slots, led, recompute, init);
    var rs := Readings(snap, slots, led, recompute, entries);
    assert rs == rs0 + [rs[n]];
    if k < n {
      ReadingAfterRow(snap, slots, led, recompute, init, k);
      assert rs[k] == rs0[k];
      assert init[..k + 1] == entries[..k + 1];
    } else {
      assert entries[..k + 1] == entries;
    }
  }

  /** A run reports no mismatch exactly when the LED matched every row's expected output. */
  lemma {:induction false} NoMismatchIffEveryRowMatches(snap: Snapshot, slots: seq<Option<SwitchId>>, led: Led, recompute: Recompute, entries: seq<Entry>)
    ensures RunEntries(snap, slots, led, recompute, entries).1 == [] <==>
            forall k :: 0 <= k < |entries| ==> Readings(snap, slots, led, recompute, entries)[k] == entries[k].expectedOutput
    decreases |entries|
  {
    if entries != [] {
      var n := |entries| - 1;
      var init := entries[..n];
      NoMismatchIffEveryRowMatches(snap, slots, led, recompute, init);
      var rs0 := Readings(snap, slots, led, recompute, init);
      var rs := Readings(snap, slots, led, recompute, entries);
      var ds0 := RunEntries(snap, slots, led, recompute, init).1;
      var ds := RunEntries(snap, slots, led, recompute, entries).1;
      assert rs == rs0 + [rs[n]];
      assert ds == ds0 + RowDiags(entries[n], rs[n]);
      assert (ds == []) == (ds0 == [] && rs[n] == entries[n].expectedOutput);
      assert forall k :: 0 <= k < n ==> rs[k] == rs0[k] && entries[k] == init[k];
    }
  }

  /**
    Every mismatch names a row of the table with its binary form and the value
    the LED showed instead of the expected one; there is at most one per row.
   */
  lemma {:induction false} MismatchesDescribeRows(snap: Snapshot, slots: seq<Option<SwitchId>>, led: Led, recompute: Recompute, entries: seq<Entry>)
    ensures |RunEntries(snap, slots, led, recompute, entries).1| <= |entries|
    ensures forall d :: d in RunEntries(snap, slots, led, recompute, entries).1 ==>
              && d.Mismatch?
              && d.binary == Binary6(d.combo)
              && d.observed != d.expected
              && Entry(d.combo, d.expected) in entries
    decreases |entries|
  {
    if entries != [] {
      var init := entries[..|entries| - 1];
      MismatchesDescribeRows(snap, slots, led, recompute, init);
      assert forall e :: e in init ==> e in entries;
      assert entries[|entries| - 1] in entries;
    }
  }

  /**
    After a run over a non-empty table the switch in slot `i` shows bit `i` of
    the last row's combination: nothing restores the states the switches had
    before. Switches in no slot keep their state.
   */
  lemma {:induction false} SwitchesKeepLastRow(snap: Snapshot, slots: seq<Option<SwitchId>>, led: Led, recompute: Recompute, entries: seq<Entry>)
    requires |slots| == 6 && SlotsBound(slots, |snap.switchOn|) && SlotsDistinct(slots)
    ensures var on := RunEntries(snap, slots, led, recompute, entries).0.switchOn;
            && (entries != [] ==> forall i :: 0 <= i < 6 ==> on[slots[i].value] == Bit(entries[|entries| - 1].input, i))
            && (forall x :: 0 <= x < |on| && (forall i :: 0 <= i < 6 ==> slots[i].value != x) ==> on[x] == snap.switchOn[x])
    decreases |entries|
  {
    if entries != [] {
      var init := entries[..|entries| - 1];
      SwitchesKeepLastRow(snap, slots, led, recompute, init);
      var s := RunEntries(snap, slots, led, recompute, init).0;
      ApplyBitsSetsSlots(s.switchOn, slots, entries[|entries| - 1].input, 6);
    }
  }

  /**
    A worked row: combination 5 (switches 0 and 2 on) expected to light the LED
    but read dark is reported as "Combo 5 (Toggle: 000101) -> expected True but got False".
   */
  lemma ComboFiveReport(snap: Snapshot, slots: seq<Option<SwitchId>>, led: Led, recompute: Recompute)
    requires !LedIsOn(led, RunRow(snap, slots, recompute, 5).signals)
    ensures RunEntries(snap, slots, led, recompute, [Entry(5, true)]).1 == [Mismatch(5, "000101", true, false)]
  {
    var one := [Entry(5, true)];
    assert one[..0] == [];
    Binary6Bits(5);
    assert Bit(5, 0) && !Bit(5, 1) && Bit(5, 2) && !Bit(5, 3) && !Bit(5, 4) && !Bit(5, 5);
    assert Binary6(5) == "000101";
  }

  // ---------------------------------------------------------------------------
  // The switches and connectors a truth-table run writes to.
  // ---------------------------------------------------------------------------

  /**
    The live circuit: the `isOn` state of every ToggleSwitch (indexed by its id)
    and the connector values left by the last recompute.
   */
  class Board {
    var switchOn: array<bool>
    var signals: map<InId, bool>
    const recompute: Recompute

    constructor (switchCount: nat, recompute: Recompute)
      ensures switchOn.Length == switchCount && fresh(switchOn)
      ensures forall i :: 0 <= i < switchCount ==> !switchOn[i]
      ensures signals == map[] && this.recompute == recompute
    {
      switchOn := new bool[switchCount](_ => false);
      signals := map[];
      this.recompute := recompute;
    }

    ghost function Snap(): Snapshot
      reads this, switchOn
    {
      Snapshot(switchOn[..], signals)
    }

    /** `ToggleSwitch.SetState`: switch `id` is turned on or off; no signal moves until the next update. */
    method SetState(id: SwitchId, isOn: bool)
      requires id < switchOn.Length
      modifies switchOn
      ensures switchOn[..] == old(switchOn[..])[id := isOn]
    {
      switchOn[id] := isOn;
    }

    /** `ForceUpdateCircuit`: one update pass over the whole circuit. */
    method ForceUpdateCircuit()
      modifies this`signals
      ensures signals == recompute(old(signals), switchOn[..])
    {
      signals := recompute(signals, switchOn[..]);
    }
  }
}
