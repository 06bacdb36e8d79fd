/**
  An object dictionary that enforces the remapping rules of CiA 301 v4.2.0,
  sections 7.5.2.35 to 7.5.2.38, and what the write lists of PdoConfig do to it.
 */
module PdoDevice {
  import opened Wrappers
  import opened PdoConfig

  /** One PDO: COB-ID entry (bit 31 set means switched off), parameters, mapping. */
  datatype PdoState = PdoState(cob: U32, transmissionType: U8, inhibitTime: U16, eventTimer: U16,
                               count: U8, mapping: seq<U32>)

  type Pdo = p: PdoState | |p.mapping| == 64
    witness PdoState(0x8000_0000, 0, 0, 0, 0, seq(64, _ => 0))

  /**
    What the device insists on. `noRtr`: bit 30 of the COB-ID must be set.
    `strict`: the COB-ID bits may not change in the very write that switches an
    active PDO off. `mappable`: the mapping entries it supports.
   */
  datatype Rules = Rules(noRtr: bool, strict: bool, mappable: set<U32>)

  datatype Op =
    | SetCob(cob: U32) | SetType(t: U8) | SetInhibit(i: U16) | SetTimer(e: U16)
    | SetCount(n: U8) | SetEntry(k: nat, packed: U32)

  predicate Enabled(cob: U32) {
    cob < 0x8000_0000
  }

  function LowBits(cob: U32): nat {
    cob % 0x4000_0000
  }

  function MappedBits(mapping: seq<U32>): nat {
    if mapping == [] then 0 else MappedBits(mapping[..|mapping| - 1]) + mapping[|mapping| - 1] % 0x100
  }

  predicate CobAllowed(rules: Rules, p: Pdo, cob: U32) {
    && (rules.noRtr ==> cob / 0x4000_0000 % 2 == 1)
    && (Enabled(p.cob) && (Enabled(cob) || rules.strict) ==> LowBits(cob) == LowBits(p.cob))
  }

  predicate CountAllowed(rules: Rules, p: Pdo, n: U8) {
    && !Enabled(p.cob)
    && n <= 64 && MappedBits(p.mapping[..n]) <= 512
    && forall i :: 0 <= i < n ==> p.mapping[i] in rules.mappable
  }

  /** The device's answer to one write: the new state, or None for an SDO abort. */
  function Accept(rules: Rules, p: Pdo, op: Op): Option<Pdo> {
    match op
    case SetCob(cob) => if CobAllowed(rules, p, cob) then Some(p.(cob := cob)) else None
    case SetType(t) => Some(p.(transmissionType := t))
    case SetInhibit(i) => if Enabled(p.cob) then None else Some(p.(inhibitTime := i))
    case SetTimer(e) => Some(p.(eventTimer := e))
    case SetCount(n) => if CountAllowed(rules, p, n) then Some(p.(count := n)) else None
    case SetEntry(k, packed) =>
      if Enabled(p.cob) || p.count != 0 || !(1 <= k <= 64) || packed !in rules.mappable then None
      else Some(p.(mapping := p.mapping[k - 1 := packed]))
  }

  function RunOps(rules: Rules, p: Pdo, ops: seq<Op>): Option<Pdo> {
    if ops == [] then Some(p)
    else
      var q := RunOps(rules, p, ops[..|ops| - 1]);
      if q.None? then None else Accept(rules, q.value, ops[|ops| - 1])
  }

  lemma {:induction false} RunOpsStep(rules: Rules, p: Pdo, ops: seq<Op>, j: nat)
    requires j < |ops|
    ensures var q := RunOps(rules, p, ops[..j]);
            RunOps(rules, p, ops[..j + 1]) == if q.None? then None else Accept(rules, q.value, ops[j])
  {
    assert ops[..j + 1][..j] == ops[..j];
  }

  predicate AllTrue(allowed: seq<bool>) {
    forall i :: 0 <= i < |allowed| ==> allowed[i]
  }

  /** Operation i leads from stage i to stage i + 1, or is refused. */
  predicate StageStep(rules: Rules, stages: seq<Pdo>, ops: seq<Op>, allowed: seq<bool>, i: nat)
    requires |stages| == |ops| + 1 && |allowed| == |ops| && i < |ops|
  {
    Accept(rules, stages[i], ops[i]) == if allowed[i] then Some(stages[i + 1]) else None
  }

  /** Step by step acceptance gives the state after any number of operations. */
  lemma {:induction false} RunFollowsStages(rules: Rules, stages: seq<Pdo>, ops: seq<Op>, allowed: seq<bool>, j: nat)
    requires |stages| == |ops| + 1 && |allowed| == |ops| && j <= |ops|
    requires forall i :: 0 <= i < |ops| ==> StageStep(rules, stages, ops, allowed, i)
    ensures RunOps(rules, stages[0], ops[..j]) == if AllTrue(allowed[..j]) then Some(stages[j]) else None
  {
    if j == 0 {
      assert ops[..0] == [];
    } else {
      assert StageStep(rules, stages, ops, allowed, j - 1);
      RunFollowsStages(rules, stages, ops, allowed, j - 1);
      RunOpsStep(rules, stages[0], ops, j - 1);
      assert allowed[..j] == allowed[..j - 1] + [allowed[j - 1]];
      AllTrueAppend(allowed[..j - 1], allowed[j - 1]);
    }
  }

  lemma {:induction false} AllTrueAppend(allowed: seq<bool>, last: bool)
    ensures AllTrue(allowed + [last]) == (AllTrue(allowed) && last)
  {
    if AllTrue(allowed + [last]) {
      assert (allowed + [last])[|allowed|] == last;
      assert forall i :: 0 <= i < |allowed| ==> (allowed + [last])[i] == allowed[i];
    }
  }

  // ---------------------------------------------------------------------
  // The two write lists as operations on one PDO, and the state after each
  // ---------------------------------------------------------------------

  function EntryOps(entries: seq<Entry>): (r: seq<Op>)
    ensures |r| == |entries|
  {
    seq(|entries|, i requires 0 <= i < |entries| => SetEntry((i + 1) % 0x100, Packed(entries[i])))
  }

  function TpdoOps(r: TpdoRecipe): seq<Op> {
    [SetCob(0xC000_0000 + r.cobId), SetCount(0)] + EntryOps(r.entries)
    + [SetCount(|r.entries| % 0x100), SetType(r.comm.transmissionType), SetInhibit(r.comm.inhibitTime),
       SetTimer(r.comm.eventTimer), SetCob(0x4000_0000 + r.cobId)]
  }

  function RpdoOps(r: RpdoRecipe): seq<Op> {
    [SetCob(0x8000_0000 + r.cobId), SetType(r.transmissionType), SetCount(0)] + EntryOps(r.entries)
    + [SetCount(|r.entries| % 0x100), SetCob(r.cobId)]
  }

  predicate Valid(index: nat, entries: seq<Entry>, cobId: nat) {
    Validate(index, entries, cobId).None?
  }

  function Overwrite(mapping: seq<U32>, es: seq<Entry>, m: nat): seq<U32>
    requires m <= |es| <= |mapping|
  {
    PackedAll(es)[..m] + mapping[m..]
  }

  function Clip(x: int, hi: nat): nat {
    if x < 0 then 0 else if x > hi then hi else x
  }

  /** The PDO after the first j writes of the TPDO list. */
  function TpdoStage(p: Pdo, r: TpdoRecipe, j: nat): Pdo
    requires |r.entries| <= 64
  {
    var n := |r.entries|;
    PdoState(
      if j == 0 then p.cob else if j < n + 7 then 0xC000_0000 + r.cobId else 0x4000_0000 + r.cobId,
      if j < n + 4 then p.transmissionType else r.comm.transmissionType,
      if j < n + 5 then p.inhibitTime else r.comm.inhibitTime,
      if j < n + 6 then p.eventTimer else r.comm.eventTimer,
      if j < 2 then p.count else if j < n + 3 then 0 else n,
      Overwrite(p.mapping, r.entries, Clip(j - 2, n)))
  }

  /** The PDO after the first j writes of the RPDO list. */
  function RpdoStage(p: Pdo, r: RpdoRecipe, j: nat): Pdo
    requires |r.entries| <= 64
  {
    var n := |r.entries|;
    PdoState(
      if j == 0 then p.cob else if j < n + 5 then 0x8000_0000 + r.cobId else r.cobId,
      if j < 2 then p.transmissionType else r.transmissionType,
      p.inhibitTime,
      p.eventTimer,
      if j < 3 then p.count else if j < n + 4 then 0 else n,
      Overwrite(p.mapping, r.entries, Clip(j - 3, n)))
  }

  /** The switch-off write is acceptable. */
  predicate MayDisable(rules: Rules, p: Pdo, cobId: nat) {
    !rules.strict || !Enabled(p.cob) || LowBits(p.cob) == cobId
  }

  ghost predicate AllMappable(rules: Rules, entries: seq<Entry>) {
    forall i :: 0 <= i < |entries| ==> Packed(entries[i]) in rules.mappable
  }

  lemma {:induction false} OverwriteNext(mapping: seq<U32>, es: seq<Entry>, m: nat)
    requires m < |es| <= |mapping|
    ensures Overwrite(mapping, es, m)[m := Packed(es[m])] == Overwrite(mapping, es, m + 1)
  {
  }

  lemma {:induction false} OverwrittenPrefix(mapping: seq<U32>, es: seq<Entry>)
    requires |es| <= |mapping|
    ensures Overwrite(mapping, es, |es|)[..|es|] == PackedAll(es)
  {
  }

  lemma {:induction false} PackedBits(es: seq<Entry>)
    ensures MappedBits(PackedAll(es)) == TotalBits(es)
  {
    if es != [] {
      var n := |es| - 1;
      assert PackedAll(es)[..n] == PackedAll(es[..n]);
      PackedBits(es[..n]);
      PackedBitLen(es[n]);
    }
  }

  lemma {:induction false} PackedBitLen(e: Entry)
    ensures Packed(e) % 0x100 == e.bitLen
  {
  }

  /** The count write succeeds exactly when every entry is mappable. */
  lemma {:induction false} CountStep(rules: Rules, p: Pdo, es: seq<Entry>, mapping: seq<U32>)
    requires |es| <= 64 && |mapping| == 64 && TotalBits(es) <= 512
    requires !Enabled(p.cob) && p.mapping == Overwrite(mapping, es, |es|)
    ensures CountAllowed(rules, p, |es|) <==> AllMappable(rules, es)
  {
    OverwrittenPrefix(mapping, es);
    PackedBits(es);
    assert forall i :: 0 <= i < |es| ==> p.mapping[i] == p.mapping[..|es|][i] == Packed(es[i]);
  }

  /** Whether write j of the TPDO list is accepted once the earlier ones were. */
  ghost predicate TpdoStepAllowed(rules: Rules, p: Pdo, r: TpdoRecipe, j: nat) {
    var n := |r.entries|;
    && (j == 0 ==> MayDisable(rules, p, r.cobId))
    && (2 <= j < n + 2 ==> Packed(r.entries[j - 2]) in rules.mappable)
    && (j == n + 2 ==> AllMappable(rules, r.entries))
  }

  ghost predicate RpdoStepAllowed(rules: Rules, p: Pdo, r: RpdoRecipe, j: nat) {
    var n := |r.entries|;
    && (j == 0 ==> MayDisable(rules, p, r.cobId))
    && (3 <= j < n + 3 ==> Packed(r.entries[j - 3]) in rules.mappable)
    && (j == n + 3 ==> AllMappable(rules, r.entries))
  }

  lemma {:induction false} TpdoEdges(rules: Rules, p: Pdo, r: TpdoRecipe)
    requires Valid(r.tpdoIndex, r.entries, r.cobId)
    ensures Accept(rules, TpdoStage(p, r, 0), SetCob(0xC000_0000 + r.cobId))
            == if MayDisable(rules, p, r.cobId) then Some(TpdoStage(p, r, 1)) else None
    ensures Accept(rules, TpdoStage(p, r, 1), SetCount(0)) == Some(TpdoStage(p, r, 2))
    ensures var n := |r.entries|;
            && Accept(rules, TpdoStage(p, r, n + 3), SetType(r.comm.transmissionType)) == Some(TpdoStage(p, r, n + 4))
            && Accept(rules, TpdoStage(p, r, n + 4), SetInhibit(r.comm.inhibitTime)) == Some(TpdoStage(p, r, n + 5))
            && Accept(rules, TpdoStage(p, r, n + 5), SetTimer(r.comm.eventTimer)) == Some(TpdoStage(p, r, n + 6))
            && Accept(rules, TpdoStage(p, r, n + 6), SetCob(0x4000_0000 + r.cobId)) == Some(TpdoStage(p, r, n + 7))
  {
    assert TpdoStage(p, r, 0).mapping == p.mapping;
    assert TpdoStage(p, r, 1).mapping[..0] == [];
  }

  lemma {:induction false} TpdoEntryStep(rules: Rules, p: Pdo, r: TpdoRecipe, k: nat)
    requires Valid(r.tpdoIndex, r.entries, r.cobId) && k < |r.entries|
    ensures Accept(rules, TpdoStage(p, r, k + 2), SetEntry(k + 1, Packed(r.entries[k])))
            == if Packed(r.entries[k]) in rules.mappable then Some(TpdoStage(p, r, k + 3)) else None
  {
    OverwriteNext(p.mapping, r.entries, k);
  }

  lemma {:induction false} TpdoCountStep(rules: Rules, p: Pdo, r: TpdoRecipe)
    requires Valid(r.tpdoIndex, r.entries, r.cobId)
    ensures var n := |r.entries|;
            Accept(rules, TpdoStage(p, r, n + 2), SetCount(n))
            == if AllMappable(rules, r.entries) then Some(TpdoStage(p, r, n + 3)) else None
  {
    CountStep(rules, TpdoStage(p, r, |r.entries| + 2), r.entries, p.mapping);
  }

  lemma {:induction false} TpdoOpAt(r: TpdoRecipe, j: nat)
    requires |r.entries| <= 64 && j < |r.entries| + 7
    ensures var n := |r.entries|;
            TpdoOps(r)[j]
            == if j == 0 then SetCob(0xC000_0000 + r.cobId)
               else if j == 1 then SetCount(0)
               else if j < n + 2 then SetEntry(j - 1, Packed(r.entries[j - 2]))
               else if j == n + 2 then SetCount(n)
               else if j == n + 3 then SetType(r.comm.transmissionType)
               else if j == n + 4 then SetInhibit(r.comm.inhibitTime)
               else if j == n + 5 then SetTimer(r.comm.eventTimer)
               else SetCob(0x4000_0000 + r.cobId)
  {
  }

  lemma {:induction false} TpdoStep(rules: Rules, p: Pdo, r: TpdoRecipe, j: nat)
    requires Valid(r.tpdoIndex, r.entries, r.cobId) && j < |r.entries| + 7
    ensures Accept(rules, TpdoStage(p, r, j), TpdoOps(r)[j])
            == if TpdoStepAllowed(rules, p, r, j) then Some(TpdoStage(p, r, j + 1)) else None
  {
    var n := |r.entries|;
    TpdoOpAt(r, j);
    if 2 <= j < n + 2 {
      TpdoEntryStep(rules, p, r, j - 2);
    } else if j == n + 2 {
      TpdoCountStep(rules, p, r);
    } else {
      TpdoEdges(rules, p, r);
    }
  }

  function TpdoStages(p: Pdo, r: TpdoRecipe): (s: seq<Pdo>)
    requires |r.entries| <= 64
    ensures |s| == |r.entries| + 8
  {
    seq(|r.entries| + 8, j requires j >= 0 => TpdoStage(p, r, j))
  }

  ghost function TpdoAllowed(rules: Rules, p: Pdo, r: TpdoRecipe): (s: seq<bool>)
    ensures |s| == |r.entries| + 7
  {
    seq(|r.entries| + 7, j requires 0 <= j < |r.entries| + 7 => TpdoStepAllowed(rules, p, r, j))
  }

  /** After j writes the PDO is in stage j, unless one of them was refused. */
  lemma {:induction false} TpdoRun(rules: Rules, p: Pdo, r: TpdoRecipe, j: nat)
    requires Valid(r.tpdoIndex, r.entries, r.cobId) && j <= |r.entries| + 7
    ensures RunOps(rules, p, TpdoOps(r)[..j])
            == if AllTrue(TpdoAllowed(rules, p, r)[..j]) then Some(TpdoStage(p, r, j)) else None
  {
    var stages, ops, allowed := TpdoStages(p, r), TpdoOps(r), TpdoAllowed(rules, p, r);
    forall i | 0 <= i < |ops|
      ensures StageStep(rules, stages, ops, allowed, i)
    {
      TpdoStep(rules, p, r, i);
    }
    assert TpdoStage(p, r, 0).mapping == p.mapping;
    RunFollowsStages(rules, stages, ops, allowed, j);
  }

  lemma {:induction false} RpdoEdges(rules: Rules, p: Pdo, r: RpdoRecipe)
    requires Valid(r.rpdoIndex, r.entries, r.cobId) && !rules.noRtr
    ensures Accept(rules, RpdoStage(p, r, 0), SetCob(0x8000_0000 + r.cobId))
            == if MayDisable(rules, p, r.cobId) then Some(RpdoStage(p, r, 1)) else None
    ensures Accept(rules, RpdoStage(p, r, 1), SetType(r.transmissionType)) == Some(RpdoStage(p, r, 2))
    ensures Accept(rules, RpdoStage(p, r, 2), SetCount(0)) == Some(RpdoStage(p, r, 3))
    ensures var n := |r.entries|;
            Accept(rules, RpdoStage(p, r, n + 4), SetCob(r.cobId)) == Some(RpdoStage(p, r, n + 5))
  {
    assert RpdoStage(p, r, 0).mapping == p.mapping;
    assert RpdoStage(p, r, 2).mapping[..0] == [];
  }

  lemma {:induction false} RpdoEntryStep(rules: Rules, p: Pdo, r: RpdoRecipe, k: nat)
    requires Valid(r.rpdoIndex, r.entries, r.cobId) && k < |r.entries|
    ensures Accept(rules, RpdoStage(p, r, k + 3), SetEntry(k + 1, Packed(r.entries[k])))
            == if Packed(r.entries[k]) in rules.mappable then Some(RpdoStage(p, r, k + 4)) else None
  {
    OverwriteNext(p.mapping, r.entries, k);
  }

  lemma {:induction false} RpdoCountStep(rules: Rules, p: Pdo, r: RpdoRecipe)
    requires Valid(r.rpdoIndex, r.entries, r.cobId)
    ensures var n := |r.entries|;
            Accept(rules, RpdoStage(p, r, n + 3), SetCount(n))
            == if AllMappable(rules, r.entries) then Some(RpdoStage(p, r, n + 4)) else None
  {
    CountStep(rules, RpdoStage(p, r, |r.entries| + 3), r.entries, p.mapping);
  }

  lemma {:induction false} RpdoOpAt(r: RpdoRecipe, j: nat)
    requires |r.entries| <= 64 && j < |r.entries| + 5
    ensures var n := |r.entries|;
            RpdoOps(r)[j]
            == if j == 0 then SetCob(0x8000_0000 + r.cobId)
               else if j == 1 then SetType(r.transmissionType)
               else if j == 2 then SetCount(0)
               else if j < n + 3 then SetEntry(j - 2, Packed(r.entries[j - 3]))
               else if j == n + 3 then SetCount(n)
               else SetCob(r.cobId)
  {
  }

  lemma {:induction false} RpdoStep(rules: Rules, p: Pdo, r: RpdoRecipe, j: nat)
    requires Valid(r.rpdoIndex, r.entries, r.cobId) && !rules.noRtr && j < |r.entries| + 5
    ensures Accept(rules, RpdoStage(p, r, j), RpdoOps(r)[j])
            == if RpdoStepAllowed(rules, p, r, j) then Some(RpdoStage(p, r, j + 1)) else None
  {
    var n := |r.entries|;
    RpdoOpAt(r, j);
    if 3 <= j < n + 3 {
      RpdoEntryStep(rules, p, r, j - 3);
    } else if j == n + 3 {
      RpdoCountStep(rules, p, r);
    } else {
      RpdoEdges(rules, p, r);
    }
  }

  function RpdoStages(p: Pdo, r: RpdoRecipe): (s: seq<Pdo>)
    requires |r.entries| <= 64
    ensures |s| == |r.entries| + 6
  {
    seq(|r.entries| + 6, j requires j >= 0 => RpdoStage(p, r, j))
  }

  ghost function RpdoAllowed(rules: Rules, p: Pdo, r: RpdoRecipe): (s: seq<bool>)
    ensures |s| == |r.entries| + 5
  {
    seq(|r.entries| + 5, j requires 0 <= j < |r.entries| + 5 => RpdoStepAllowed(rules, p, r, j))
  }

  /** After j writes the PDO is in stage j, unless one of them was refused. */
  lemma {:induction false} RpdoRun(rules: Rules, p: Pdo, r: RpdoRecipe, j: nat)
    requires Valid(r.rpdoIndex, r.entries, r.cobId) && !rules.noRtr && j <= |r.entries| + 5
    ensures RunOps(rules, p, RpdoOps(r)[..j])
            == if AllTrue(RpdoAllowed(rules, p, r)[..j]) then Some(RpdoStage(p, r, j)) else None
  {
    var stages, ops, allowed := RpdoStages(p, r), RpdoOps(r), RpdoAllowed(rules, p, r);
    forall i | 0 <= i < |ops|
      ensures StageStep(rules, stages, ops, allowed, i)
    {
      RpdoStep(rules, p, r, i);
    }
    assert RpdoStage(p, r, 0).mapping == p.mapping;
    RunFollowsStages(rules, stages, ops, allowed, j);
  }
}
