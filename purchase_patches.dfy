// The purchase-cost patch: a rewrite of the host's MapTilePurchaseSystem.UpdateStatus
// instruction stream that caps a running total at 441 and routes every m_Cost
// store after the first through CheckFreeTiles, plus CheckFreeTiles itself.
module MapTilePurchaseSystemPatches {

  // ---------------------------------------------------------------- CheckFreeTiles

  newtype int32 = x: int | -0x8000_0000 <= x < 0x8000_0000

  /** Two's-complement 32-bit addition, as C#'s unchecked int `+`. */
  function AddWrapped(a: int32, b: int32): (r: int32)
    ensures -0x8000_0000 <= a as int + b as int < 0x8000_0000 ==> r as int == a as int + b as int
    ensures r as int == a as int + b as int
      || r as int == a as int + b as int - 0x1_0000_0000
      || r as int == a as int + b as int + 0x1_0000_0000
  {
    var s := a as int + b as int;
    if s >= 0x8000_0000 then (s - 0x1_0000_0000) as int32
    else if s < -0x8000_0000 then (s + 0x1_0000_0000) as int32
    else s as int32
  }

  /** The first nine tiles (this update's plus those already owned) are free;
      any other tile keeps its computed cost. */
  function CheckFreeTiles(cost: real, numTiles: int32, ownedTiles: int32): (r: real)
    ensures r == 0.0 || r == cost
    ensures -0x8000_0000 <= numTiles as int + ownedTiles as int < 0x8000_0000 ==>
      (numTiles as int + ownedTiles as int <= 9 ==> r == 0.0)
      && (numTiles as int + ownedTiles as int > 9 ==> r == cost)
  {
    if AddWrapped(numTiles, ownedTiles) <= 9 then 0.0 else cost
  }

  /** The sum is not overflow-checked: a count past int.MaxValue wraps negative
      and makes the tile free. */
  lemma CheckFreeTilesWrapsAround(cost: real)
    ensures CheckFreeTiles(cost, 0x7fff_ffff, 1) == 0.0
  {
    assert AddWrapped(0x7fff_ffff, 1) == -0x8000_0000;
  }

  // ---------------------------------------------------------------- instructions

  /** The operand of an ldloc.s: a LocalBuilder as the host's compiled code
      carries it, or a plain index as the instructions the patch creates. */
  datatype Local = Builder(index: int) | Index(index: int)

  datatype Field = MCost | OtherField(token: int)

  datatype Callee = MathMin | CheckFreeTilesMethod | OtherMethod(token: int)

  /** Abstract IL: only the opcodes the patch looks at or emits are distinguished;
      other opcodes, fields and methods are kept as opaque numeric tokens. */
  datatype Instr =
    | LdlocS(local: Local)
    | Add
    | Stfld(field: Field)
    | Stsfld(field: Field)
    | LdcI4(k: int)
    | Call(callee: Callee)
    | Other(opcode: int)

  /** `ldloc.s` whose operand is a LocalBuilder with local index 5. */
  predicate IsLoad5(i: Instr) {
    i.LdlocS? && i.local.Builder? && i.local.index == 5
  }

  /** Harmony's StoresField(m_Cost): stfld or stsfld of that field. */
  predicate StoresCost(i: Instr) {
    (i.Stfld? || i.Stsfld?) && i.field == MCost
  }

  /** Emitted after the found add: push 441 and call math.min(int, int). */
  const Clamp: seq<Instr> := [LdcI4(441), Call(MathMin)]

  /** Emitted before later m_Cost stores: push locals 5 and 6, call CheckFreeTiles. */
  const FreeTileCheck: seq<Instr> := [LdlocS(Index(5)), LdlocS(Index(6)), Call(CheckFreeTilesMethod)]

  /** How many instructions one iteration of the source loop takes from the
      head of s: two after ldloc.s 5 (the extra MoveNext), otherwise one. */
  function Width(s: seq<Instr>): nat
    requires s != []
  {
    if IsLoad5(s[0]) then 2 else 1
  }

  /** The scan never needs a successor that is not there: after an ldloc.s 5
      the source reads the next instruction without checking MoveNext. */
  predicate NoDanglingLoad(s: seq<Instr>)
    decreases |s|
  {
    s == [] || (Width(s) <= |s| && NoDanglingLoad(s[Width(s)..]))
  }

  /** It is enough that the last instruction is not ldloc.s 5. */
  lemma {:induction false} LastNotLoad5Suffices(s: seq<Instr>)
    requires s == [] || !IsLoad5(s[|s| - 1])
    ensures NoDanglingLoad(s)
    decreases |s|
  {
    if s != [] {
      var w := Width(s);
      assert w <= |s|;
      if w < |s| {
        assert s[w..][|s[w..]| - 1] == s[|s| - 1];
      }
      LastNotLoad5Suffices(s[w..]);
    }
  }

  /** What one iteration of the source loop emits, and the firstCost flag after it. */
  datatype Emission = Emission(emitted: seq<Instr>, firstCost: bool)

  /** One iteration of the source loop on the instructions it reads (`window`:
      an ldloc.s 5 and its successor, or a single other instruction). */
  function Step(window: seq<Instr>, firstCost: bool): Emission
    requires window != [] && Width(window) == |window|
  {
    if IsLoad5(window[0]) then
      Emission([window[0], window[1]] + (if window[1].Add? then Clamp else []), firstCost)
    else if StoresCost(window[0]) then
      Emission((if firstCost then FreeTileCheck else []) + [window[0]], true)
    else
      Emission([window[0]], firstCost)
  }

  /** The output of the transpiler on `s`, given whether an m_Cost store has been seen. */
  function Transpile(s: seq<Instr>, firstCost: bool): seq<Instr>
    requires NoDanglingLoad(s)
    decreases |s|
  {
    if s == [] then []
    else
      var e := Step(s[..Width(s)], firstCost);
      e.emitted + Transpile(s[Width(s)..], e.firstCost)
  }

  /** How many ldloc.s 5 / add pairs the scan meets. */
  function LoadAddPairs(s: seq<Instr>): nat
    requires NoDanglingLoad(s)
    decreases |s|
  {
    if s == [] then 0
    else (if IsLoad5(s[0]) && s[1].Add? then 1 else 0) + LoadAddPairs(s[Width(s)..])
  }

  /** How many m_Cost stores the scan examines (a successor of ldloc.s 5 is not examined). */
  function CostStores(s: seq<Instr>): nat
    requires NoDanglingLoad(s)
    decreases |s|
  {
    if s == [] then 0
    else (if StoresCost(s[0]) then 1 else 0) + CostStores(s[Width(s)..])
  }

  /** The number of m_Cost stores anywhere in `s`. */
  function AllCostStores(s: seq<Instr>): nat
    decreases |s|
  {
    if s == [] then 0 else (if StoresCost(s[0]) then 1 else 0) + AllCostStores(s[1..])
  }

  /** How many examined stores get a CheckFreeTiles call: all of them once one has been seen. */
  function LateCostStores(s: seq<Instr>, firstCost: bool): nat
    requires NoDanglingLoad(s)
  {
    if firstCost then CostStores(s) else if CostStores(s) == 0 then 0 else CostStores(s) - 1
  }

  lemma Assoc(a: seq<Instr>, b: seq<Instr>, c: seq<Instr>)
    ensures a + (b + c) == (a + b) + c
  {
  }

  // ---------------------------------------------------------------- the transpiler

  /** UpdateStatusTranspiler: the enumerator loop, with the extra MoveNext after
      ldloc.s 5 and the firstCost flag. */
  method UpdateStatusTranspiler(instructions: seq<Instr>) returns (output: seq<Instr>)
    requires NoDanglingLoad(instructions)
    ensures output == Transpile(instructions, false)
  {
    var firstCost := false;
    output := [];
    var i := 0;
    while i < |instructions|
      invariant 0 <= i <= |instructions|
      invariant NoDanglingLoad(instructions[i..])
      invariant output + Transpile(instructions[i..], firstCost) == Transpile(instructions, false)
    {
      ghost var rest, before, wasFirst := instructions[i..], output, firstCost;
      var instruction := instructions[i];
      i := i + 1;
      if IsLoad5(instruction) {
        output := output + [instruction];
        instruction := instructions[i];
        i := i + 1;
        assert rest[..Width(rest)] == [rest[0], instruction];
        if instruction.Add? {
          output := output + [instruction] + Clamp;
          assert instructions[i..] == rest[Width(rest)..];
          LoopStep(rest, before, wasFirst, output, firstCost);
          continue;
        }
      } else {
        assert rest[..Width(rest)] == [instruction];
        if StoresCost(instruction) {
          if !firstCost {
            firstCost := true;
          } else {
            output := output + FreeTileCheck;
          }
        }
      }
      output := output + [instruction];
      assert instructions[i..] == rest[Width(rest)..];
      LoopStep(rest, before, wasFirst, output, firstCost);
    }
    assert instructions[i..] == [];
  }

  // One iteration of UpdateStatusTranspiler keeps its loop invariant.
  lemma LoopStep(rest: seq<Instr>, before: seq<Instr>, wasFirst: bool, output: seq<Instr>, firstCost: bool)
    requires rest != [] && NoDanglingLoad(rest)
    requires output == before + Step(rest[..Width(rest)], wasFirst).emitted
    requires firstCost == Step(rest[..Width(rest)], wasFirst).firstCost
    ensures NoDanglingLoad(rest[Width(rest)..])
    ensures output + Transpile(rest[Width(rest)..], firstCost) == before + Transpile(rest, wasFirst)
  {
    Assoc(before, Step(rest[..Width(rest)], wasFirst).emitted, Transpile(rest[Width(rest)..], firstCost));
  }

  // ---------------------------------------------------------------- properties

  /** Output length: two instructions per pair, three per late m_Cost store. */
  lemma {:induction false} TranspileLength(s: seq<Instr>, firstCost: bool)
    requires NoDanglingLoad(s)
    ensures |Transpile(s, firstCost)| == |s| + 2 * LoadAddPairs(s) + 3 * LateCostStores(s, firstCost)
    decreases |s|
  {
    if s != [] {
      var w := Width(s);
      var e := Step(s[..w], firstCost);
      TranspileLength(s[w..], e.firstCost);
      assert |e.emitted| == w + (if IsLoad5(s[0]) && s[1].Add? then 2 else 0)
        + (if StoresCost(s[0]) && firstCost then 3 else 0);
      assert LateCostStores(s, firstCost)
        == (if StoresCost(s[0]) && firstCost then 1 else 0) + LateCostStores(s[w..], e.firstCost);
    }
  }

  /** The scan on a window it reads in one iteration followed by q: one step, then q. */
  lemma TranspileWindow(window: seq<Instr>, q: seq<Instr>, firstCost: bool)
    requires window != [] && Width(window) == |window| && NoDanglingLoad(q)
    ensures NoDanglingLoad(window + q)
    ensures Transpile(window + q, firstCost)
      == Step(window, firstCost).emitted + Transpile(q, Step(window, firstCost).firstCost)
    ensures CostStores(window + q) == (if StoresCost(window[0]) then 1 else 0) + CostStores(q)
    ensures LoadAddPairs(window + q) == (if IsLoad5(window[0]) && window[1].Add? then 1 else 0) + LoadAddPairs(q)
  {
    var s := window + q;
    assert s[0] == window[0];
    assert |window| == 2 ==> s[1] == window[1];
    assert s[..Width(s)] == window;
    assert s[Width(s)..] == q;
  }

  /** Every non-empty well-formed sequence is a window followed by the rest. */
  lemma SplitWindow(s: seq<Instr>)
    requires s != [] && NoDanglingLoad(s)
    ensures Width(s[..Width(s)]) == Width(s) == |s[..Width(s)]|
    ensures NoDanglingLoad(s[Width(s)..])
    ensures s == s[..Width(s)] + s[Width(s)..]
  {
    assert s[..Width(s)][0] == s[0];
  }

  /** The transpiler splits at any boundary the scan passes through: the output
      of p + q is that of p followed by that of q, with the flag p leaves behind. */
  lemma {:induction false} TranspileAppend(p: seq<Instr>, q: seq<Instr>, firstCost: bool)
    requires NoDanglingLoad(p) && NoDanglingLoad(q)
    ensures NoDanglingLoad(p + q)
    ensures Transpile(p + q, firstCost) == Transpile(p, firstCost) + Transpile(q, firstCost || CostStores(p) > 0)
    decreases |p|
  {
    if p == [] {
      assert p + q == q;
    } else {
      var w := Width(p);
      SplitWindow(p);
      var window, rest := p[..w], p[w..];
      var e := Step(window, firstCost);
      TranspileAppend(rest, q, e.firstCost);
      assert p + q == window + (rest + q);
      AppendStep(window, rest, q, firstCost);
    }
  }

  // The inductive step of TranspileAppend, with p split into its first window and the rest.
  lemma AppendStep(window: seq<Instr>, rest: seq<Instr>, q: seq<Instr>, firstCost: bool)
    requires window != [] && Width(window) == |window|
    requires NoDanglingLoad(rest) && NoDanglingLoad(q) && NoDanglingLoad(rest + q)
    requires var f := Step(window, firstCost).firstCost;
      Transpile(rest + q, f) == Transpile(rest, f) + Transpile(q, f || CostStores(rest) > 0)
    ensures NoDanglingLoad(window + rest) && NoDanglingLoad(window + (rest + q))
    ensures Transpile(window + (rest + q), firstCost)
      == Transpile(window + rest, firstCost) + Transpile(q, firstCost || CostStores(window + rest) > 0)
  {
    var e := Step(window, firstCost);
    TranspileWindow(window, rest + q, firstCost);
    TranspileWindow(window, rest, firstCost);
    Assoc(e.emitted, Transpile(rest, e.firstCost), Transpile(q, e.firstCost || CostStores(rest) > 0));
  }

  /** A window the scan reads in one iteration, between p and q: the output is
      p's, then that step's, then q's after it. */
  lemma Around(p: seq<Instr>, window: seq<Instr>, q: seq<Instr>, firstCost: bool)
    requires NoDanglingLoad(p) && NoDanglingLoad(q)
    requires window != [] && Width(window) == |window|
    ensures NoDanglingLoad(p + window + q)
    ensures var e := Step(window, firstCost || CostStores(p) > 0);
      Transpile(p + window + q, firstCost) == Transpile(p, firstCost) + e.emitted + Transpile(q, e.firstCost)
  {
    var e := Step(window, firstCost || CostStores(p) > 0);
    TranspileWindow(window, q, firstCost || CostStores(p) > 0);
    TranspileAppend(p, window + q, firstCost);
    assert p + window + q == p + (window + q);
    Assoc(Transpile(p, firstCost), e.emitted, Transpile(q, e.firstCost));
  }

  /** A scanned ldloc.s 5 followed by add is emitted with the clamp after it. */
  lemma LoadAddIsClamped(p: seq<Instr>, q: seq<Instr>, firstCost: bool)
    requires NoDanglingLoad(p) && NoDanglingLoad(q)
    ensures NoDanglingLoad(p + [LdlocS(Builder(5)), Add] + q)
    ensures Transpile(p + [LdlocS(Builder(5)), Add] + q, firstCost)
      == Transpile(p, firstCost) + [LdlocS(Builder(5)), Add, LdcI4(441), Call(MathMin)]
         + Transpile(q, firstCost || CostStores(p) > 0)
  {
    var f := firstCost || CostStores(p) > 0;
    var e := Step([LdlocS(Builder(5)), Add], f);
    assert e.emitted == [LdlocS(Builder(5)), Add, LdcI4(441), Call(MathMin)] && e.firstCost == f;
    Around(p, [LdlocS(Builder(5)), Add], q, firstCost);
  }

  /** A scanned ldloc.s 5 followed by anything but add is emitted unchanged with
      its successor, and the successor is not examined, even if it stores m_Cost. */
  lemma LoadWithoutAddPassesThrough(p: seq<Instr>, y: Instr, q: seq<Instr>, firstCost: bool)
    requires NoDanglingLoad(p) && NoDanglingLoad(q) && !y.Add?
    ensures NoDanglingLoad(p + [LdlocS(Builder(5)), y] + q)
    ensures Transpile(p + [LdlocS(Builder(5)), y] + q, firstCost)
      == Transpile(p, firstCost) + [LdlocS(Builder(5)), y] + Transpile(q, firstCost || CostStores(p) > 0)
  {
    var f := firstCost || CostStores(p) > 0;
    var e := Step([LdlocS(Builder(5)), y], f);
    assert e.emitted == [LdlocS(Builder(5)), y] && e.firstCost == f;
    Around(p, [LdlocS(Builder(5)), y], q, firstCost);
  }

  /** A scanned m_Cost store passes through if it is the first one seen;
      every later one is preceded by the CheckFreeTiles call. */
  lemma CostStoreRule(p: seq<Instr>, st: Instr, q: seq<Instr>, firstCost: bool)
    requires NoDanglingLoad(p) && NoDanglingLoad(q) && StoresCost(st)
    ensures NoDanglingLoad(p + [st] + q)
    ensures Transpile(p + [st] + q, firstCost)
      == Transpile(p, firstCost)
         + ((if firstCost || CostStores(p) > 0 then FreeTileCheck else []) + [st])
         + Transpile(q, true)
  {
    var f := firstCost || CostStores(p) > 0;
    var e := Step([st], f);
    assert e.emitted == (if f then FreeTileCheck else []) + [st] && e.firstCost;
    Around(p, [st], q, firstCost);
  }

  /** Any other scanned instruction is emitted unchanged. */
  lemma OtherPassesThrough(p: seq<Instr>, x: Instr, q: seq<Instr>, firstCost: bool)
    requires NoDanglingLoad(p) && NoDanglingLoad(q) && !IsLoad5(x) && !StoresCost(x)
    ensures NoDanglingLoad(p + [x] + q)
    ensures Transpile(p + [x] + q, firstCost)
      == Transpile(p, firstCost) + [x] + Transpile(q, firstCost || CostStores(p) > 0)
  {
    var f := firstCost || CostStores(p) > 0;
    var e := Step([x], f);
    assert e.emitted == [x] && e.firstCost == f;
    Around(p, [x], q, firstCost);
  }

  /** An ldloc.s 5 taken as the successor of an earlier ldloc.s 5 is not examined,
      so an add directly after it is not clamped. */
  lemma ShadowedPairNotClamped()
    ensures var s := [LdlocS(Builder(5)), LdlocS(Builder(5)), Add];
      NoDanglingLoad(s) && Transpile(s, false) == s
  {
    var s := [LdlocS(Builder(5)), LdlocS(Builder(5)), Add];
    assert s[..2] == [LdlocS(Builder(5)), LdlocS(Builder(5))] && s[2..] == [Add];
    assert [Add][1..] == [];
    assert Transpile([Add], false) == [Add];
  }

  /** With no pair and no late m_Cost store, the output is the input. */
  lemma {:induction false} TranspileIdentity(s: seq<Instr>, firstCost: bool)
    requires NoDanglingLoad(s)
    requires LoadAddPairs(s) == 0 && LateCostStores(s, firstCost) == 0
    ensures Transpile(s, firstCost) == s
    decreases |s|
  {
    if s != [] {
      SplitWindow(s);
      var window, rest := s[..Width(s)], s[Width(s)..];
      var e := Step(window, firstCost);
      TranspileWindow(window, rest, firstCost);
      assert LateCostStores(rest, e.firstCost) == 0;
      TranspileIdentity(rest, e.firstCost);
      IdentityStep(window, rest, firstCost);
    }
  }

  // The inductive step of TranspileIdentity.
  lemma IdentityStep(window: seq<Instr>, rest: seq<Instr>, firstCost: bool)
    requires window != [] && Width(window) == |window| && NoDanglingLoad(rest)
    requires NoDanglingLoad(window + rest)
    requires LoadAddPairs(window + rest) == 0 && LateCostStores(window + rest, firstCost) == 0
    requires Transpile(rest, Step(window, firstCost).firstCost) == rest
    ensures Transpile(window + rest, firstCost) == window + rest
  {
    TranspileWindow(window, rest, firstCost);
    assert Step(window, firstCost).emitted == window;
  }

  lemma {:induction false} CostStoresAtMostAll(s: seq<Instr>)
    requires NoDanglingLoad(s)
    ensures CostStores(s) <= AllCostStores(s)
    decreases |s|
  {
    if s != [] {
      var w := Width(s);
      CostStoresAtMostAll(s[w..]);
      if w == 2 {
        assert s[1..][1..] == s[2..];
        assert AllCostStores(s[1..]) >= AllCostStores(s[2..]);
      }
    }
  }

  lemma {:induction false} NoAdjacentPairNoPairs(s: seq<Instr>)
    requires NoDanglingLoad(s)
    requires forall i :: 0 <= i < |s| - 1 ==> !(IsLoad5(s[i]) && s[i + 1].Add?)
    ensures LoadAddPairs(s) == 0
    decreases |s|
  {
    if s != [] {
      var w := Width(s);
      if w == 2 {
        assert !s[1].Add?;
      }
      forall i | 0 <= i < |s[w..]| - 1
        ensures !(IsLoad5(s[w..][i]) && s[w..][i + 1].Add?)
      {
        assert s[w..][i] == s[i + w] && s[w..][i + 1] == s[i + w + 1];
      }
      NoAdjacentPairNoPairs(s[w..]);
    }
  }

  /** If ldloc.s 5 is never directly followed by add and m_Cost is stored at
      most once, the transpiler returns its input unchanged. */
  lemma NoPatternNoChange(s: seq<Instr>)
    requires NoDanglingLoad(s)
    requires forall i :: 0 <= i < |s| - 1 ==> !(IsLoad5(s[i]) && s[i + 1].Add?)
    requires AllCostStores(s) <= 1
    ensures Transpile(s, false) == s
  {
    NoAdjacentPairNoPairs(s);
    CostStoresAtMostAll(s);
    TranspileIdentity(s, false);
  }

  // ---------------------------------------------------------------- insertion only

  /** `at` places each element of s at increasing positions of r holding the same instruction. */
  ghost predicate Embeds(s: seq<Instr>, r: seq<Instr>, at: seq<int>) {
    && |at| == |s|
    && (forall i :: 0 <= i < |s| ==> 0 <= at[i] < |r| && r[at[i]] == s[i])
    && (forall i, j :: 0 <= i < j < |s| ==> at[i] < at[j])
  }

  ghost predicate IsSubsequence(s: seq<Instr>, r: seq<Instr>) {
    exists at :: Embeds(s, r, at)
  }

  function Shifted(at: seq<int>, d: int): (r: seq<int>)
    ensures |r| == |at| && forall i :: 0 <= i < |at| ==> r[i] == at[i] + d
  {
    seq(|at|, i requires 0 <= i < |at| => at[i] + d)
  }

  lemma EmbedsConcat(a: seq<Instr>, x: seq<Instr>, ia: seq<int>, b: seq<Instr>, y: seq<Instr>, ib: seq<int>)
    requires Embeds(a, x, ia) && Embeds(b, y, ib)
    ensures Embeds(a + b, x + y, ia + Shifted(ib, |x|))
  {
    var at := ia + Shifted(ib, |x|);
    forall i | 0 <= i < |a + b|
      ensures 0 <= at[i] < |x + y| && (x + y)[at[i]] == (a + b)[i]
    {
      if i >= |a| {
        assert at[i] == ib[i - |a|] + |x|;
      }
    }
  }

  /** Each iteration emits the instructions it read, in order, among those it inserts. */
  lemma StepEmbedsWindow(window: seq<Instr>, firstCost: bool) returns (at: seq<int>)
    requires window != [] && Width(window) == |window|
    ensures Embeds(window, Step(window, firstCost).emitted, at)
  {
    var e := Step(window, firstCost).emitted;
    if IsLoad5(window[0]) {
      at := [0, 1];
    } else {
      at := [|e| - 1];
    }
  }

  /** The transpiler only inserts: its input appears in its output, in order. */
  lemma {:induction false} TranspileOnlyInserts(s: seq<Instr>, firstCost: bool)
    requires NoDanglingLoad(s)
    ensures IsSubsequence(s, Transpile(s, firstCost))
    decreases |s|
  {
    if s == [] {
      assert Embeds(s, [], []);
    } else {
      SplitWindow(s);
      var window, rest := s[..Width(s)], s[Width(s)..];
      var e := Step(window, firstCost);
      TranspileWindow(window, rest, firstCost);
      TranspileOnlyInserts(rest, e.firstCost);
      var tail :| Embeds(rest, Transpile(rest, e.firstCost), tail);
      var head := StepEmbedsWindow(window, firstCost);
      EmbedsConcat(window, e.emitted, head, rest, Transpile(rest, e.firstCost), tail);
    }
  }
}
