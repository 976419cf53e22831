/**
  Shared vocabulary of the logic-circuit scene that the two quiz managers grade.

  The Unity scene is replaced by explicit values: connectors are numbered, the
  wires reported by every WireManager are sequences of (output, input) pairs, and
  what Unity would find by `GetComponentInParent` on an output connector's game
  object is recorded in an owner map.
 */
module Circuit {

  datatype Option<+T> = None | Some(value: T)

  /** Identity of an InputConnector. */
  type InId = nat
  /** Identity of an OutputConnector. */
  type OutId = nat
  /** Identity of a ToggleSwitch; also its index in the array of switch states. */
  type SwitchId = nat

  /** One entry of `WireManager.GetWireConnections()`: an edge from an output to an input. */
  type Wire = (OutId, InId)

  /** The seven gate scripts the managers look for. */
  datatype GateKind = And | Or | Nand | Nor | Xor | Xnor | Not

  /** The kinds in the order in which the source scans them. */
  const Kinds: seq<GateKind> := [And, Or, Nand, Nor, Xor, Xnor, Not]

  /**
    What the parents of an output connector's game object carry:
    `toggle` is the ToggleSwitch found by `GetComponentInParent<ToggleSwitch>()`,
    `isGate` is `HasAnyGateScriptInParentOrSelf`, and `gateInputs` is
    `GetAllGateInputs` (the inputs of every gate script found, concatenated).
   */
  datatype Owner = Owner(toggle: Option<SwitchId>, isGate: bool, gateInputs: seq<InId>)

  /** A gate instance as `FindObjectsOfType` reports it: its script kind and its object name. */
  datatype Gate = Gate(kind: GateKind, name: string)

  /** An LED: its identity and the input connector it reads (null when unwired). */
  datatype Led = Led(id: nat, input: Option<InId>)

  /**
    The scene population a grading run reads: the wires of every WireManager, the
    owner of every output connector that has one, and every gate instance.
   */
  datatype Scene = Scene(managers: seq<seq<Wire>>, owners: map<OutId, Owner>, gates: seq<Gate>)

  /** `NotifySpawnedObject`'s argument: the LED and ToggleSwitch components of the new object, if any. */
  datatype Spawned = Spawned(led: Option<Led>, toggle: Option<SwitchId>)

  /** The owner of an output connector; a connector with no component is owned by nothing. */
  function OwnerOf(scene: Scene, o: OutId): (r: Owner)
    ensures o !in scene.owners ==> r.toggle.None? && !r.isGate
  {
    if o in scene.owners then scene.owners[o] else Owner(None, false, [])
  }

  /** All wires of all managers, in the order the nested `foreach` loops visit them. */
  function Wires(managers: seq<seq<Wire>>): (ws: seq<Wire>)
    decreases |managers|
  {
    if managers == [] then [] else Wires(managers[..|managers| - 1]) + managers[|managers| - 1]
  }

  /** The merged index holds exactly the wires some manager holds. */
  lemma {:induction false} WiresHoldsEveryManager(managers: seq<seq<Wire>>, w: Wire)
    ensures w in Wires(managers) <==> exists m :: 0 <= m < |managers| && w in managers[m]
    decreases |managers|
  {
    if managers != [] {
      var init := managers[..|managers| - 1];
      WiresHoldsEveryManager(init, w);
      assert forall m :: 0 <= m < |init| ==> init[m] == managers[m];
      if w in managers[|managers| - 1] {
        assert w in Wires(managers);
      }
    }
  }

  /** Value of an input connector after the last recompute; a connector never driven reads false. */
  function SignalOf(signals: map<InId, bool>, i: InId): bool
  {
    i in signals && signals[i]
  }

  /** `LED.isOn`: the value of its input connector, false when the LED has no input. */
  function LedIsOn(led: Led, signals: map<InId, bool>): (on: bool)
    ensures led.input.None? ==> !on
  {
    match led.input
    case None => false
    case Some(i) => SignalOf(signals, i)
  }

  function Pow2(n: nat): (r: nat)
    ensures r >= 1
  {
    if n == 0 then 1 else 2 * Pow2(n - 1)
  }

  /**
    `combo >> i`. C#'s `>>` on `int` is an arithmetic shift: each step halves
    rounding toward negative infinity, which is what Dafny's `/` does for the
    divisor 2, so negative combinations shift as they do in the source.
   */
  function Shr(combo: int, i: nat): int
    decreases i
  {
    if i == 0 then combo else Shr(combo / 2, i - 1)
  }

  /** `((combo >> i) & 1) == 1`. */
  function Bit(combo: int, i: nat): bool
  {
    Shr(combo, i) % 2 == 1
  }

  /** Exponents add: `2^(a + b) == 2^a * 2^b`. */
  lemma {:induction false} Pow2Add(a: nat, b: nat)
    ensures Pow2(a + b) == Pow2(a) * Pow2(b)
    decreases a
  {
    if a > 0 {
      Pow2Add(a - 1, b);
    }
  }

  /** The powers of two the 32-bit reasoning needs, by repeated squaring. */
  lemma Pow2Of32()
    ensures Pow2(31) == 0x8000_0000 && Pow2(32) == 0x1_0000_0000
  {
    assert Pow2(2) == 4;
    Pow2Add(2, 2);
    assert Pow2(4) == 16;
    Pow2Add(4, 4);
    assert Pow2(8) == 256;
    Pow2Add(8, 8);
    assert Pow2(16) == 65536;
    Pow2Add(16, 16);
    assert Pow2(32) == 2 * Pow2(31);
  }

  lemma Pow2Grows(a: nat, b: nat)
    requires a <= b
    ensures Pow2(a) <= Pow2(b)
    decreases b
  {
    if a < b {
      Pow2Grows(a, b - 1);
    }
  }

  /** Shifting a value below `2^i` right by `i` leaves nothing, so its bit `i` is clear. */
  lemma {:induction false} BitAboveIsClear(n: nat, i: nat)
    requires n < Pow2(i)
    ensures Shr(n, i) == 0 && !Bit(n, i)
    decreases i
  {
    if i > 0 {
      BitAboveIsClear(n / 2, i - 1);
    }
  }

  /** `v | (1 << k)` for a shift count `k` already reduced to 0..31. */
  function SetBit(v: int, k: nat): int
  {
    if Bit(v, k) then v else v + Pow2(k)
  }

  /** Adding `2^k` to a value whose bit `k` is clear sets that bit and leaves every other bit alone. */
  lemma {:induction false} AddClearBit(v: int, k: nat, j: nat)
    requires !Bit(v, k)
    ensures Bit(v + Pow2(k), j) == (Bit(v, j) || j == k)
    decreases k
  {
    if j > 0 {
      assert Bit(v + Pow2(k), j) == Bit((v + Pow2(k)) / 2, j - 1);
      assert Bit(v, j) == Bit(v / 2, j - 1);
      if k == 0 {
        assert (v + 1) / 2 == v / 2;
      } else {
        assert (v + Pow2(k)) / 2 == v / 2 + Pow2(k - 1);
        assert !Bit(v / 2, k - 1);
        AddClearBit(v / 2, k - 1, j - 1);
      }
    }
  }

  /** `SetBit` sets bit `k` and no other. */
  lemma SetBitBits(v: int, k: nat, j: nat)
    ensures Bit(SetBit(v, k), j) == (Bit(v, j) || j == k)
  {
    if !Bit(v, k) {
      AddClearBit(v, k, j);
    }
  }

  /** Setting a bit below position `m` keeps a value below `2^m`. */
  lemma {:induction false} SetBitStaysBelow(v: nat, k: nat, m: nat)
    requires v < Pow2(m) && k < m
    ensures 0 <= SetBit(v, k) < Pow2(m)
    decreases k
  {
    if !Bit(v, k) {
      if k == 0 {
        assert v % 2 == 0;
        assert Pow2(m) == 2 * Pow2(m - 1);
      } else {
        assert Bit(v, k) == Bit(v / 2, k - 1);
        SetBitStaysBelow(v / 2, k - 1, m - 1);
        assert (v / 2) + Pow2(k - 1) < Pow2(m - 1);
      }
    }
  }

  /** Every bound slot names a switch of a board with `switchCount` switches. */
  predicate SlotsKnown(slots: seq<Option<SwitchId>>, switchCount: nat)
  {
    forall i :: 0 <= i < |slots| && slots[i].Some? ==> slots[i].value < switchCount
  }

  /**
    The spawn binder's loop over `toggleSwitches`: the lowest empty slot receives
    the new switch and the loop stops; a full array is left as it is.
   */
  function FillFirstEmpty(slots: seq<Option<SwitchId>>, t: SwitchId): (r: seq<Option<SwitchId>>)
    ensures |r| == |slots|
    decreases |slots|
  {
    if slots == [] then []
    else if slots[0].None? then [Some(t)] + slots[1..]
    else [slots[0]] + FillFirstEmpty(slots[1..], t)
  }

  /** A slot array with no empty slot is left as it is. */
  lemma {:induction false} FillFirstEmptyKeepsFull(slots: seq<Option<SwitchId>>, t: SwitchId)
    requires forall i :: 0 <= i < |slots| ==> slots[i].Some?
    ensures FillFirstEmpty(slots, t) == slots
    decreases |slots|
  {
    if slots != [] {
      FillFirstEmptyKeepsFull(slots[1..], t);
      assert slots == [slots[0]] + slots[1..];
    }
  }

  /** The lowest empty slot, and no other, receives the switch. */
  lemma {:induction false} FillFirstEmptyFillsLowest(slots: seq<Option<SwitchId>>, t: SwitchId, j: nat)
    requires j < |slots| && slots[j].None?
    requires forall i :: 0 <= i < j ==> slots[i].Some?
    ensures FillFirstEmpty(slots, t) == slots[j := Some(t)]
    decreases j
  {
    if j == 0 {
      assert slots[0 := Some(t)] == [Some(t)] + slots[1..];
    } else {
      FillFirstEmptyFillsLowest(slots[1..], t, j - 1);
      assert slots[j := Some(t)] == [slots[0]] + slots[1..][j - 1 := Some(t)];
    }
  }

  /** `string.StartsWith` with an ordinal comparison. */
  predicate StartsWith(s: string, prefix: string)
  {
    |prefix| <= |s| && s[..|prefix|] == prefix
  }

  /** The name prefix required of every instance of a gate kind. */
  function Prefix(k: GateKind): string
  {
    match k
    case And => "AndGate_"
    case Or => "OrGate_"
    case Nand => "NandGate_"
    case Nor => "NorGate_"
    case Xor => "XorGate_"
    case Xnor => "XnorGate_"
    case Not => "NotGate_"
  }

  /** `FindObjectsOfType<K>().Length`: the number of instances of kind `k`. */
  function CountKind(gates: seq<Gate>, k: GateKind): (n: nat)
    ensures n <= |gates|
    ensures n > 0 <==> exists j :: 0 <= j < |gates| && gates[j].kind == k
  {
    if gates == [] then 0
    else CountKind(gates[1..], k) + (if gates[0].kind == k then 1 else 0)
  }

  /** Unity's `Mathf.Clamp(int value, int min, int max)`: the lower bound is tested first. */
  function Clamp(value: int, min: int, max: int): int
  {
    if value < min then min else if value > max then max else value
  }

  /** Sum of a sequence of integers (the running totals of both managers). */
  function Sum(xs: seq<int>): int
    decreases |xs|
  {
    if xs == [] then 0 else Sum(xs[..|xs| - 1]) + xs[|xs| - 1]
  }

  /** Appending one value to a sequence adds it to the sum. */
  lemma SumAppend(xs: seq<int>, x: int)
    ensures Sum(xs + [x]) == Sum(xs) + x
  {
    assert (xs + [x])[..|xs|] == xs;
  }

  /** No value of the sequence is negative. */
  predicate NonNegative(xs: seq<int>)
  {
    forall i :: 0 <= i < |xs| ==> xs[i] >= 0
  }

  /** C#'s unchecked `int` addition: a value brought into the 32-bit two's-complement range by whole turns of 2^32. */
  function Wrap32(v: int): (r: int)
    ensures -0x8000_0000 <= r < 0x8000_0000
    decreases if v >= 0x8000_0000 then v else if v < -0x8000_0000 then -v else 0
  {
    if v >= 0x8000_0000 then Wrap32(v - 0x1_0000_0000)
    else if v < -0x8000_0000 then Wrap32(v + 0x1_0000_0000)
    else v
  }

  /** The wrapped value is the residue of `v + 2^31` modulo 2^32, shifted back by 2^31. */
  lemma {:induction false} Wrap32IsResidue(v: int)
    ensures Wrap32(v) == (v + 0x8000_0000) % 0x1_0000_0000 - 0x8000_0000
    decreases if v >= 0x8000_0000 then v else if v < -0x8000_0000 then -v else 0
  {
    if v >= 0x8000_0000 {
      Wrap32IsResidue(v - 0x1_0000_0000);
    } else if v < -0x8000_0000 {
      Wrap32IsResidue(v + 0x1_0000_0000);
    }
  }

  /** The wrapped value differs from the mathematical one by a multiple of 2^32. */
  lemma Wrap32Congruent(v: int)
    ensures (Wrap32(v) - v) % 0x1_0000_0000 == 0
  {
    Wrap32IsResidue(v);
  }

  /** A value already in `int` range is left alone. */
  lemma Wrap32InRange(v: int)
    requires -0x8000_0000 <= v < 0x8000_0000
    ensures Wrap32(v) == v
  {
  }

  /** Wrapping after every `+=` gives the wrapped mathematical sum. */
  lemma Wrap32Add(a: int, b: int)
    ensures Wrap32(Wrap32(a) + b) == Wrap32(a + b)
  {
    Wrap32IsResidue(a);
    Wrap32IsResidue(a + b);
    Wrap32IsResidue(Wrap32(a) + b);
    var m := (a + 0x8000_0000) % 0x1_0000_0000;
    var q := (a + 0x8000_0000) / 0x1_0000_0000;
    assert a + b + 0x8000_0000 == (m + b) + q * 0x1_0000_0000;
    assert Wrap32(a) + b + 0x8000_0000 == m + b;
  }

  /** Scores each within [0, cap] add up to a total within [0, sum of caps]. */
  lemma {:induction false} SumWithinCaps(scores: seq<int>, caps: seq<int>)
    requires |scores| == |caps|
    requires forall i :: 0 <= i < |scores| ==> 0 <= scores[i] <= caps[i]
    ensures 0 <= Sum(scores) <= Sum(caps)
    decreases |scores|
  {
    if scores != [] {
      SumWithinCaps(scores[..|scores| - 1], caps[..|caps| - 1]);
    }
  }
}
