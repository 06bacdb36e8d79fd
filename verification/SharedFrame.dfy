/**
  One shared CAN-FD frame for several motors: the fixed-point packing of
  src/cia402/compressed_mit.rs and the per-motor lane mappings of
  src/cia402/compressed_mit.rs and src/meow_motor/pdo.rs.

  Floating point is replaced by exact reals.
 */
module SharedFrame {
  import opened Wrappers
  import opened PdoConfig
  import opened PdoDevice
  import opened PdoReconfiguration
  import LS = LeastSquares

  datatype Range = Range(lo: real, hi: real)

  datatype Mapping = Mapping(position: Range, velocity: Range, torque: Range, kp: Range, kd: Range)

  datatype Target = Target(position: real, velocity: real, torque: real, kp: real, kd: real)

  /** The source panics on an inverted range. */
  predicate Ordered(m: Mapping) {
    && m.position.lo <= m.position.hi && m.velocity.lo <= m.velocity.hi && m.torque.lo <= m.torque.hi
    && m.kp.lo <= m.kp.hi && m.kd.lo <= m.kd.hi
  }

  // ---------------------------------------------------------------------
  // Quantisation
  // ---------------------------------------------------------------------

  function Clamp(x: real, r: Range): real
    requires r.lo <= r.hi
  {
    if x < r.lo then r.lo else if x > r.hi then r.hi else x
  }

  function Scaled(x: real, r: Range, scale: real): real
    requires r.lo < r.hi
  {
    (Clamp(x, r) - r.lo) * scale / (r.hi - r.lo)
  }

  /** Truncation to a whole number of steps; an empty range yields zero. */
  function FloatToUint(x: real, r: Range, top: nat): nat
    requires r.lo <= r.hi
  {
    if r.lo == r.hi then 0
    else
      ScaledBounds(x, r, top);
      Scaled(x, r, top as real).Floor
  }

  lemma {:induction false} ScaledBounds(x: real, r: Range, top: nat)
    requires r.lo < r.hi
    ensures 0.0 <= Scaled(x, r, top as real) <= top as real
  {
    var c, span := Clamp(x, r) - r.lo, r.hi - r.lo;
    ProductNonNegative(c, top as real);
    ProductNonNegative(span - c, top as real);
    assert (span - c) * top as real == span * top as real - c * top as real;
    DivideBounds(c * top as real, span, top as real);
  }

  lemma {:induction false} ProductNonNegative(a: real, b: real)
    requires a >= 0.0 && b >= 0.0
    ensures a * b >= 0.0
  {
  }

  lemma {:induction false} DivideBounds(n: real, d: real, top: real)
    requires d > 0.0 && 0.0 <= n <= d * top
    ensures 0.0 <= n / d <= top
  {
    var q := n / d;
    assert q * d == n;
    if q < 0.0 {
      NegativeProduct(q, d);
    }
    if q > top {
      NegativeProduct(top - q, d);
      assert (top - q) * d == top * d - q * d;
    }
  }

  lemma {:induction false} NegativeProduct(a: real, b: real)
    requires a < 0.0 && b > 0.0
    ensures a * b < 0.0
  {
  }

  /** The value a receiver reconstructs from q steps. */
  function Restored(q: nat, r: Range, top: nat): real
    requires top > 0
  {
    r.lo + LS.Mul(q as real, (r.hi - r.lo) / top as real)
  }

  /** Packing loses less than one quantisation step, and always rounds down. */
  lemma {:induction false} QuantisedWithinStep(x: real, r: Range, top: nat)
    requires r.lo < r.hi && top > 0
    ensures FloatToUint(x, r, top) <= top
    ensures var back := Restored(FloatToUint(x, r, top), r, top);
            back <= Clamp(x, r) < back + (r.hi - r.lo) / top as real
  {
    ScaledBounds(x, r, top);
    var v, q, step := Scaled(x, r, top as real), FloatToUint(x, r, top), (r.hi - r.lo) / top as real;
    StepsCover(Clamp(x, r) - r.lo, r.hi - r.lo, top as real, v, step);
    StepMonotone(q as real, v, step);
    StepMonotone(v, q as real + 1.0, step);
    assert LS.Mul(q as real + 1.0, step) == LS.Mul(q as real, step) + step;
  }

  /** A component in range is worth q steps of (hi - lo) / top, rounded down; outside, it is the nearer end. */
  lemma {:induction false} StepsAreExact(x: real, r: Range, top: nat)
    requires r.lo < r.hi && top > 0
    ensures x <= r.lo ==> FloatToUint(x, r, top) == 0
    ensures x >= r.hi ==> FloatToUint(x, r, top) == top
    ensures r.lo <= x <= r.hi ==>
              var q, span := FloatToUint(x, r, top), r.hi - r.lo;
              q as real * span <= (x - r.lo) * top as real < (q as real + 1.0) * span
  {
    ScaledBounds(x, r, top);
    var v, q, span := Scaled(x, r, top as real), FloatToUint(x, r, top), r.hi - r.lo;
    WholeSteps(Clamp(x, r) - r.lo, span, top as real, v, q as real);
    if x >= r.hi {
      FullScale(span, top as real, v);
      assert v.Floor == top;
    } else if x <= r.lo {
      NoScale(span, top as real, v);
    }
  }

  lemma {:induction false} WholeSteps(c: real, span: real, top: real, v: real, q: real)
    requires span > 0.0 && v == c * top / span && q <= v < q + 1.0
    ensures q * span <= c * top < (q + 1.0) * span
  {
    assert v * span == c * top;
    ProductNonNegative(v - q, span);
    assert (v - q) * span == v * span - q * span;
    NegativeProduct(v - (q + 1.0), span);
    assert (v - (q + 1.0)) * span == v * span - (q + 1.0) * span;
  }

  lemma {:induction false} FullScale(span: real, top: real, v: real)
    requires span > 0.0 && v == span * top / span
    ensures v == top
  {
    assert v * span == top * span;
    assert (v - top) * span == v * span - top * span;
    ZeroProduct(v - top, span);
  }

  lemma {:induction false} NoScale(span: real, top: real, v: real)
    requires span > 0.0 && v == 0.0 * top / span
    ensures v == 0.0
  {
    assert 0.0 * top == 0.0;
  }

  lemma {:induction false} StepsCover(c: real, span: real, top: real, v: real, step: real)
    requires span > 0.0 && top > 0.0 && v == c * top / span && step == span / top
    ensures LS.Mul(v, step) == c && step > 0.0
  {
    assert v * span == c * top;
    assert step * top == span;
    var e := v * step - c;
    assert e * top == v * (step * top) - c * top;
    ZeroProduct(e, top);
    PositiveFactor(step, top);
  }

  lemma {:induction false} ZeroProduct(a: real, b: real)
    requires a * b == 0.0 && b > 0.0
    ensures a == 0.0
  {
  }

  lemma {:induction false} PositiveFactor(a: real, b: real)
    requires a * b > 0.0 && b > 0.0
    ensures a > 0.0
  {
  }

  lemma {:induction false} StepMonotone(a: real, b: real, step: real)
    requires step > 0.0 && a <= b
    ensures LS.Mul(a, step) <= LS.Mul(b, step)
    ensures a < b ==> LS.Mul(a, step) < LS.Mul(b, step)
  {
    assert (b - a) * step == b * step - a * step;
    if a < b {
      NegativeProduct(a - b, step);
      assert (a - b) * step == a * step - b * step;
    }
  }

  // ---------------------------------------------------------------------
  // Packing
  // ---------------------------------------------------------------------

  /** Five quantised components: 16 bits of position, 12 bits of each other. */
  datatype Quint = Quint(position: nat, velocity: nat, torque: nat, kp: nat, kd: nat)

  predicate Fits(q: Quint) {
    q.position < 0x1_0000 && q.velocity < 0x1000 && q.torque < 0x1000 && q.kp < 0x1000 && q.kd < 0x1000
  }

  function Quantise(t: Target, m: Mapping): (q: Quint)
    requires Ordered(m)
    ensures Fits(q)
  {
    UintBounds(t.position, m.position, 0xFFFF);
    UintBounds(t.velocity, m.velocity, 0xFFF);
    UintBounds(t.torque, m.torque, 0xFFF);
    UintBounds(t.kp, m.kp, 0xFFF);
    UintBounds(t.kd, m.kd, 0xFFF);
    Quint(FloatToUint(t.position, m.position, 0xFFFF), FloatToUint(t.velocity, m.velocity, 0xFFF),
          FloatToUint(t.torque, m.torque, 0xFFF), FloatToUint(t.kp, m.kp, 0xFFF), FloatToUint(t.kd, m.kd, 0xFFF))
  }

  lemma {:induction false} UintBounds(x: real, r: Range, top: nat)
    requires r.lo <= r.hi && top > 0
    ensures FloatToUint(x, r, top) <= top
  {
    if r.lo < r.hi {
      QuantisedWithinStep(x, r, top);
    }
  }

  /** The shifted fields of the two words do not overlap, so OR is addition. */
  function Lower(q: Quint): U32
    requires Fits(q)
  {
    q.torque + q.kd * 0x1000 + q.kp % 0x100 * 0x100_0000
  }

  function Upper(q: Quint): U32
    requires Fits(q)
  {
    q.kp / 0x100 + q.velocity * 0x10 + q.position * 0x1_0000
  }

  function ToLeBytes(t: Target, m: Mapping): seq<U8>
    requires Ordered(m)
  {
    LeBytes(Lower(Quantise(t, m)), 4) + LeBytes(Upper(Quantise(t, m)), 4)
  }

  /** How the motor takes the two words apart again. */
  function Unpack(lower: U32, upper: U32): Quint {
    Quint(upper / 0x1_0000, upper / 0x10 % 0x1000, lower % 0x1000,
          upper % 0x10 * 0x100 + lower / 0x100_0000, lower / 0x1000 % 0x1000)
  }

  /** Packing keeps all five components apart, each at its place in the two words. */
  lemma {:induction false} UnpackPack(q: Quint)
    requires Fits(q)
    ensures Unpack(Lower(q), Upper(q)) == q
    ensures Upper(q) / 0x1_0000 == q.position && Upper(q) / 0x10 % 0x1000 == q.velocity
    ensures Lower(q) % 0x1000 == q.torque && Lower(q) / 0x1000 % 0x1000 == q.kd
    ensures Upper(q) % 0x10 * 0x100 + Lower(q) / 0x100_0000 == q.kp
  {
    UnpackLower(q.torque, q.kd, q.kp % 0x100);
    UnpackUpper(q.kp / 0x100, q.velocity, q.position);
  }

  lemma {:induction false} UnpackLower(torque: nat, kd: nat, kpLow: nat)
    requires torque < 0x1000 && kd < 0x1000
    ensures var w := torque + kd * 0x1000 + kpLow * 0x100_0000;
            w % 0x1000 == torque && w / 0x1000 % 0x1000 == kd && w / 0x100_0000 == kpLow
  {
    var w := torque + kd * 0x1000 + kpLow * 0x100_0000;
    assert w / 0x1000 == kd + kpLow * 0x1000;
  }

  lemma {:induction false} UnpackUpper(kpHigh: nat, velocity: nat, position: nat)
    requires kpHigh < 0x10 && velocity < 0x1000
    ensures var w := kpHigh + velocity * 0x10 + position * 0x1_0000;
            w % 0x10 == kpHigh && w / 0x10 % 0x1000 == velocity && w / 0x1_0000 == position
  {
    var w := kpHigh + velocity * 0x10 + position * 0x1_0000;
    assert w / 0x10 == velocity + position * 0x1000;
  }

  // ---------------------------------------------------------------------
  // Lanes
  // ---------------------------------------------------------------------

  /** Lane bytes of the first n motors. */
  function Frame(targets: seq<Target>, mappings: seq<Mapping>): seq<U8>
    requires |targets| == |mappings| && forall i :: 0 <= i < |mappings| ==> Ordered(mappings[i])
  {
    if targets == [] then []
    else
      var n := |targets| - 1;
      Frame(targets[..n], mappings[..n]) + ToLeBytes(targets[n], mappings[n])
  }

  method PackSharedFrame(targets: seq<Target>, mappings: seq<Mapping>) returns (data: seq<U8>)
    requires forall i :: 0 <= i < |mappings| && i < |targets| ==> Ordered(mappings[i])
    ensures var n := if |targets| < |mappings| then |targets| else |mappings|;
            data == Frame(targets[..n], mappings[..n])
  {
    var n := if |targets| < |mappings| then |targets| else |mappings|;
    data := [];
    for i := 0 to n
      invariant data == Frame(targets[..i], mappings[..i])
    {
      assert targets[..i + 1][..i] == targets[..i] && mappings[..i + 1][..i] == mappings[..i];
      data := data + ToLeBytes(targets[i], mappings[i]);
    }
  }

  /** The mapping of the motor in `slot`: its own objects in its own lane, filler in every other lane. */
  function LaneEntries(own: seq<Entry>, filler: seq<Entry>, slot: nat, total: nat): seq<Entry> {
    if total == 0 then []
    else LaneEntries(own, filler, slot, total - 1) + if total - 1 == slot then own else filler
  }

  /** The two 32-bit target objects of a motor. */
  function TargetObjects(index: U16): seq<Entry> {
    [Entry(index, 2, 32), Entry(index, 3, 32)]
  }

  const MIT_OWN: seq<Entry> := TargetObjects(0x2004)
  const MEOW_OWN: seq<Entry> := TargetObjects(0x4103)
  const FILLER: seq<Entry> := [Entry(0x3000, 3, 32), Entry(0x3000, 3, 32)]
  const MODE_OWN: seq<Entry> := [Entry(0x4401, 0, 8)]
  const MODE_FILLER: seq<Entry> := [Entry(0x3000, 1, 8)]

  method RpdoEntries(slice: U8, total: U8) returns (entries: seq<Entry>)
    ensures entries == LaneEntries(MIT_OWN, FILLER, slice, total)
  {
    entries := [];
    for i := 0 to total as nat
      invariant entries == LaneEntries(MIT_OWN, FILLER, slice, i)
    {
      if i == slice {
        entries := entries + [Entry(0x2004, 2, 32)];
        entries := entries + [Entry(0x2004, 3, 32)];
      } else {
        entries := entries + [Entry(0x3000, 3, 32)];
        entries := entries + [Entry(0x3000, 3, 32)];
      }
    }
  }

  datatype RecipeProblem = BadSlotCount | BadSlot | BadHost | BadIndex

  function ValidateSlot(slot: nat, total: nat): Option<RecipeProblem> {
    if total == 0 || total > 8 then Some(BadSlotCount) else if slot >= total then Some(BadSlot) else None
  }

  predicate NodeIdValid(node: nat) {
    1 <= node <= 127
  }

  /** The identifier under which the host sends its TPDO1 to TPDO4. */
  function HostTpdoCobId(host: U8, index: U8): (r: Result<U16, RecipeProblem>)
    ensures r.Ok? <==> 1 <= host <= 127 && index <= 3
    ensures r.Ok? ==> r.value % 0x80 == host && r.value / 0x80 == 3 + 2 * index
  {
    if !NodeIdValid(host) then Err(BadHost)
    else if index > 3 then Err(BadIndex)
    else Ok(0x180 + 0x100 * index + host)
  }

  /** Host TPDO1 and TPDO2 carry the shared frames. */
  function LaneRecipe(index: U8, own: seq<Entry>, filler: seq<Entry>, slot: nat, total: nat, host: U8): RpdoRecipe
    requires index <= 3 && 1 <= host <= 127
  {
    RpdoRecipe(index, HostTpdoCobId(host, index).value, LaneEntries(own, filler, slot, total), 255)
  }

  method CompressedMitRpdo1Recipe(slot: U8, total: U8, host: U8) returns (r: Result<RpdoRecipe, RecipeProblem>)
    ensures r.Ok? <==> 1 <= total <= 8 && slot < total && 1 <= host <= 127
    ensures r.Ok? ==> r.value == LaneRecipe(0, MEOW_OWN, FILLER, slot, total, host)
    ensures r.Ok? ==> r.value.rpdoIndex == 0 && r.value.cobId == 0x180 + host && r.value.transmissionType == 255
    ensures r.Err? ==> r.error == if total == 0 || total > 8 then BadSlotCount
                                  else if slot >= total then BadSlot else BadHost
    ensures r.Ok? ==> Valid(r.value.rpdoIndex, r.value.entries, r.value.cobId)
  {
    var problem := ValidateSlot(slot, total);
    if problem.Some? {
      return Err(problem.value);
    }
    var entries := [];
    for i := 0 to total as nat
      invariant entries == LaneEntries(MEOW_OWN, FILLER, slot, i)
    {
      if i == slot {
        entries := entries + [Entry(0x4103, 2, 32)];
        entries := entries + [Entry(0x4103, 3, 32)];
      } else {
        entries := entries + [Entry(0x3000, 3, 32)];
        entries := entries + [Entry(0x3000, 3, 32)];
      }
    }
    var cobId := HostTpdoCobId(host, 0);
    if cobId.Err? {
      return Err(cobId.error);
    }
    var recipe := RpdoRecipe(0, cobId.value, entries, 255);
    // The closing validation never fails: eight lanes of 64 bits just fit.
    LaneSize(MEOW_OWN, FILLER, slot, total, 64);
    assert Valid(recipe.rpdoIndex, recipe.entries, recipe.cobId);
    return Ok(recipe);
  }

  method ModeRpdo2Recipe(slot: U8, total: U8, host: U8) returns (r: Result<RpdoRecipe, RecipeProblem>)
    ensures r.Ok? <==> 1 <= total <= 8 && slot < total && 1 <= host <= 127
    ensures r.Ok? ==> r.value == LaneRecipe(1, MODE_OWN, MODE_FILLER, slot, total, host)
    ensures r.Ok? ==> r.value.rpdoIndex == 1 && r.value.cobId == 0x280 + host && r.value.transmissionType == 255
    ensures r.Err? ==> r.error == if total == 0 || total > 8 then BadSlotCount
                                  else if slot >= total then BadSlot else BadHost
    ensures r.Ok? ==> Valid(r.value.rpdoIndex, r.value.entries, r.value.cobId)
  {
    var problem := ValidateSlot(slot, total);
    if problem.Some? {
      return Err(problem.value);
    }
    var cobId := HostTpdoCobId(host, 1);
    if cobId.Err? {
      return Err(cobId.error);
    }
    var recipe := RpdoRecipe(1, cobId.value, LaneEntries(MODE_OWN, MODE_FILLER, slot, total), 255);
    LaneSize(MODE_OWN, MODE_FILLER, slot, total, 8);
    assert Valid(recipe.rpdoIndex, recipe.entries, recipe.cobId);
    return Ok(recipe);
  }

  lemma {:induction false} TotalBitsAppend(a: seq<Entry>, b: seq<Entry>)
    ensures TotalBits(a + b) == TotalBits(a) + TotalBits(b)
  {
    if b == [] {
      assert a + b == a;
    } else {
      assert (a + b)[..|a + b| - 1] == a + b[..|b| - 1];
      TotalBitsAppend(a, b[..|b| - 1]);
    }
  }

  lemma {:induction false} LaneSize(own: seq<Entry>, filler: seq<Entry>, slot: nat, total: nat, bits: nat)
    requires |own| == |filler| && TotalBits(own) == TotalBits(filler) == bits
    ensures |LaneEntries(own, filler, slot, total)| == |own| * total
    ensures TotalBits(LaneEntries(own, filler, slot, total)) == bits * total
  {
    if total > 0 {
      LaneSize(own, filler, slot, total - 1, bits);
      TotalBitsAppend(LaneEntries(own, filler, slot, total - 1), if total - 1 == slot then own else filler);
      assert |own| * (total - 1) + |own| == |own| * total;
      assert bits * (total - 1) + bits == bits * total;
    }
  }

  /** The lane count is bounded exactly by what a CAN-FD frame holds. */
  lemma {:induction false} LanesFitExactly(own: seq<Entry>, filler: seq<Entry>, slot: nat, total: nat, cobId: nat)
    requires |own| == |filler| == 2 && TotalBits(own) == TotalBits(filler) == 64 && cobId <= 0x7FF
    ensures Valid(0, LaneEntries(own, filler, slot, total), cobId) <==> 1 <= total <= 8
  {
    LaneSize(own, filler, slot, total, 64);
  }

  // ---------------------------------------------------------------------
  // What a motor takes from a frame
  // ---------------------------------------------------------------------

  datatype Delivery = Delivery(index: nat, subindex: nat, value: nat)

  /** The filler objects swallow their bytes. */
  predicate IsFiller(word: U32) {
    word / 0x1_0000 == 0x3000
  }

  /** A device walks its mapping over the received bytes and updates the mapped objects in order. */
  function Deliver(words: seq<U32>, data: seq<U8>): seq<Delivery> {
    if words == [] then []
    else
      var w, n := words[0], words[0] % 0x100 / 8;
      if |data| < n then []
      else
        (if IsFiller(w) then [] else [Delivery(w / 0x1_0000, w / 0x100 % 0x100, LeValue(data[..n]))])
        + Deliver(words[1..], data[n..])
  }

  /** The bytes a mapping consumes. */
  function Width(words: seq<U32>): nat {
    if words == [] then 0 else words[0] % 0x100 / 8 + Width(words[1..])
  }

  lemma {:induction false} DeliverConcat(a: seq<U32>, b: seq<U32>, x: seq<U8>, y: seq<U8>)
    requires |x| == Width(a)
    ensures Deliver(a + b, x + y) == Deliver(a, x) + Deliver(b, y)
    decreases |a|
  {
    if a == [] {
      assert a + b == b && x + y == y;
    } else {
      var n := a[0] % 0x100 / 8;
      assert (a + b)[1..] == a[1..] + b && (x + y)[n..] == x[n..] + y && (x + y)[..n] == x[..n];
      DeliverConcat(a[1..], b, x[n..], y);
      DeliverSplit(a, x);
      DeliverSplit(a + b, x + y);
      ConcatAssociates(First(a, x), Deliver(a[1..], x[n..]), Deliver(b, y));
    }
  }

  function First(words: seq<U32>, data: seq<U8>): seq<Delivery>
    requires words != [] && words[0] % 0x100 / 8 <= |data|
  {
    var w := words[0];
    if IsFiller(w) then [] else [Delivery(w / 0x1_0000, w / 0x100 % 0x100, LeValue(data[..w % 0x100 / 8]))]
  }

  lemma {:induction false} DeliverSplit(words: seq<U32>, data: seq<U8>)
    requires words != [] && words[0] % 0x100 / 8 <= |data|
    ensures Deliver(words, data) == First(words, data) + Deliver(words[1..], data[words[0] % 0x100 / 8..])
  {
  }

  lemma {:induction false} ConcatAssociates(a: seq<Delivery>, b: seq<Delivery>, c: seq<Delivery>)
    ensures (a + b) + c == a + (b + c)
  {
  }

  lemma {:induction false} WidthConcat(a: seq<U32>, b: seq<U32>)
    ensures Width(a + b) == Width(a) + Width(b)
    decreases |a|
  {
    if a == [] {
      assert a + b == b;
    } else {
      assert (a + b)[1..] == a[1..] + b;
      WidthConcat(a[1..], b);
    }
  }

  /** The lanes of a frame, each of the same width. */
  function Concat(lanes: seq<seq<U8>>): seq<U8> {
    if lanes == [] then [] else Concat(lanes[..|lanes| - 1]) + lanes[|lanes| - 1]
  }

  /**
    A motor mapped to `slot` takes from a frame of any lanes exactly what its own
    objects take from its own lane, and nothing from any other lane.
   */
  lemma {:induction false} LaneIsolation(own: seq<Entry>, filler: seq<Entry>, slot: nat, lanes: seq<seq<U8>>,
      width: nat)
    requires Width(PackedAll(own)) == Width(PackedAll(filler)) == width
    requires forall i :: 0 <= i < |filler| ==> IsFiller(Packed(filler[i]))
    requires forall i :: 0 <= i < |lanes| ==> |lanes[i]| == width
    ensures Width(PackedAll(LaneEntries(own, filler, slot, |lanes|))) == |Concat(lanes)|
    ensures Deliver(PackedAll(LaneEntries(own, filler, slot, |lanes|)), Concat(lanes))
         == if slot < |lanes| then Deliver(PackedAll(own), lanes[slot]) else []
    decreases |lanes|
  {
    if lanes != [] {
      var n := |lanes| - 1;
      LaneIsolation(own, filler, slot, lanes[..n], width);
      FillerDeliversNothing(filler, lanes[n]);
      var earlier := if slot < n then Deliver(PackedAll(own), lanes[slot]) else [];
      LaneCase(LaneEntries(own, filler, slot, n), own, filler, n == slot, Concat(lanes[..n]), lanes[n], earlier);
    }
  }

  lemma {:induction false} LaneCase(before: seq<Entry>, own: seq<Entry>, filler: seq<Entry>, mine: bool,
                                   data: seq<U8>, lane: seq<U8>, earlier: seq<Delivery>)
    requires Width(PackedAll(before)) == |data| && Deliver(PackedAll(before), data) == earlier
    requires Width(PackedAll(own)) == Width(PackedAll(filler)) == |lane|
    requires Deliver(PackedAll(filler), lane) == [] && (mine ==> earlier == [])
    ensures Width(PackedAll(before + if mine then own else filler)) == |data + lane|
    ensures Deliver(PackedAll(before + if mine then own else filler), data + lane)
         == if mine then Deliver(PackedAll(own), lane) else earlier
  {
    LaneStep(before, if mine then own else filler, data, lane);
    NothingAdds(earlier);
    NothingAdds(Deliver(PackedAll(own), lane));
  }

  lemma {:induction false} NothingAdds(x: seq<Delivery>)
    ensures x + [] == x && [] + x == x
  {
  }

  lemma {:induction false} LaneStep(before: seq<Entry>, last: seq<Entry>, data: seq<U8>, lane: seq<U8>)
    requires Width(PackedAll(before)) == |data|
    ensures Width(PackedAll(before + last)) == |data| + Width(PackedAll(last))
    ensures Deliver(PackedAll(before + last), data + lane)
            == Deliver(PackedAll(before), data) + Deliver(PackedAll(last), lane)
  {
    assert PackedAll(before + last) == PackedAll(before) + PackedAll(last);
    WidthConcat(PackedAll(before), PackedAll(last));
    DeliverConcat(PackedAll(before), PackedAll(last), data, lane);
  }

  lemma {:induction false} FillerDeliversNothing(filler: seq<Entry>, data: seq<U8>)
    requires forall i :: 0 <= i < |filler| ==> IsFiller(Packed(filler[i]))
    ensures Deliver(PackedAll(filler), data) == []
    decreases |filler|
  {
    if filler != [] {
      assert PackedAll(filler)[1..] == PackedAll(filler[1..]);
      var n := Packed(filler[0]) % 0x100 / 8;
      if n <= |data| {
        FillerDeliversNothing(filler[1..], data[n..]);
      }
    }
  }

  // ---------------------------------------------------------------------
  // End to end
  // ---------------------------------------------------------------------

  function Lanes(targets: seq<Target>, mappings: seq<Mapping>): (r: seq<seq<U8>>)
    requires |targets| == |mappings| && forall i :: 0 <= i < |mappings| ==> Ordered(mappings[i])
    ensures |r| == |targets|
  {
    seq(|targets|, i requires 0 <= i < |targets| => ToLeBytes(targets[i], mappings[i]))
  }

  lemma {:induction false} FrameIsLanes(targets: seq<Target>, mappings: seq<Mapping>)
    requires |targets| == |mappings| && forall i :: 0 <= i < |mappings| ==> Ordered(mappings[i])
    ensures Frame(targets, mappings) == Concat(Lanes(targets, mappings))
  {
    if targets != [] {
      var n := |targets| - 1;
      assert Lanes(targets, mappings)[..n] == Lanes(targets[..n], mappings[..n]);
      FrameIsLanes(targets[..n], mappings[..n]);
    }
  }

  /** What the motor should receive: its own packed target, lower word first. */
  function OwnWords(index: U16, t: Target, m: Mapping): seq<Delivery>
    requires Ordered(m)
  {
    [Delivery(index, 2, Lower(Quantise(t, m))), Delivery(index, 3, Upper(Quantise(t, m)))]
  }

  lemma {:induction false} TwoWords(index: U16, lower: U32, upper: U32)
    requires index != 0x3000
    ensures Width(PackedAll(TargetObjects(index))) == 8
    ensures Deliver(PackedAll(TargetObjects(index)), LeBytes(lower, 4) + LeBytes(upper, 4))
         == [Delivery(index, 2, lower), Delivery(index, 3, upper)]
  {
    var a, b := Packed(Entry(index, 2, 32)), Packed(Entry(index, 3, 32));
    assert PackedAll(TargetObjects(index)) == [a] + [b];
    OneWord(index, 2, lower);
    OneWord(index, 3, upper);
    DeliverConcat([a], [b], LeBytes(lower, 4), LeBytes(upper, 4));
    WidthConcat([a], [b]);
  }

  lemma {:induction false} OneWord(index: U16, sub: U8, v: U32)
    requires index != 0x3000
    ensures |LeBytes(v, 4)| == 4 && Width([Packed(Entry(index, sub, 32))]) == 4
    ensures Deliver([Packed(Entry(index, sub, 32))], LeBytes(v, 4)) == [Delivery(index, sub, v)]
  {
    assert Pow256(4) == 0x1_0000_0000;
    LeRoundTrip(v, 4);
    PackedFields(Entry(index, sub, 32));
    OneObject(Packed(Entry(index, sub, 32)), LeBytes(v, 4));
  }

  lemma {:induction false} PackedFields(e: Entry)
    ensures Packed(e) / 0x1_0000 == e.index && Packed(e) / 0x100 % 0x100 == e.subindex && Packed(e) % 0x100 == e.bitLen
  {
    LastByte(e.index * 0x100 + e.subindex, e.bitLen);
    LastByte(e.index, e.subindex);
    assert Packed(e) / 0x1_0000 == Packed(e) / 0x100 / 0x100;
  }

  lemma {:induction false} LastByte(x: nat, low: U8)
    ensures (x * 0x100 + low) / 0x100 == x && (x * 0x100 + low) % 0x100 == low
  {
  }

  lemma {:induction false} OneObject(w: U32, data: seq<U8>)
    requires |data| == w % 0x100 / 8
    ensures Width([w]) == |data|
    ensures Deliver([w], data) == if IsFiller(w) then [] else [Delivery(w / 0x1_0000, w / 0x100 % 0x100, LeValue(data))]
  {
    assert [w][1..] == [] && data[..|data|] == data;
  }

  lemma {:induction false} FillerWidth()
    ensures Width(PackedAll(FILLER)) == 8
  {
    var a := Packed(Entry(0x3000, 3, 32));
    assert PackedAll(FILLER) == [a] + [a];
    WidthConcat([a], [a]);
    assert [a][1..] == [];
  }

  lemma {:induction false} FrameDeliversOwn(index: U16, targets: seq<Target>, mappings: seq<Mapping>, slot: nat)
    requires |targets| == |mappings| && slot < |targets| && index != 0x3000
    requires forall i :: 0 <= i < |mappings| ==> Ordered(mappings[i])
    ensures Deliver(PackedAll(LaneEntries(TargetObjects(index), FILLER, slot, |targets|)), Frame(targets, mappings))
         == OwnWords(index, targets[slot], mappings[slot])
  {
    FrameIsLanes(targets, mappings);
    LanesAreWide(targets, mappings);
    FillerWidth();
    OwnLaneDelivers(index, targets[slot], mappings[slot]);
    LaneIsolation(TargetObjects(index), FILLER, slot, Lanes(targets, mappings), 8);
  }

  lemma {:induction false} OwnLaneDelivers(index: U16, t: Target, m: Mapping)
    requires index != 0x3000 && Ordered(m)
    ensures Width(PackedAll(TargetObjects(index))) == 8
    ensures Deliver(PackedAll(TargetObjects(index)), ToLeBytes(t, m)) == OwnWords(index, t, m)
  {
    TwoWords(index, Lower(Quantise(t, m)), Upper(Quantise(t, m)));
  }

  lemma {:induction false} LanesAreWide(targets: seq<Target>, mappings: seq<Mapping>)
    requires |targets| == |mappings| && forall i :: 0 <= i < |mappings| ==> Ordered(mappings[i])
    ensures forall i :: 0 <= i < |Lanes(targets, mappings)| ==> |Lanes(targets, mappings)[i]| == 8
  {
    forall i | 0 <= i < |Lanes(targets, mappings)|
      ensures |Lanes(targets, mappings)[i]| == 8
    {
      LaneWidth(targets[i], mappings[i]);
    }
  }

  lemma {:induction false} LaneWidth(t: Target, m: Mapping)
    requires Ordered(m)
    ensures |ToLeBytes(t, m)| == 8
  {
    assert Pow256(4) == 0x1_0000_0000;
    LeRoundTrip(Lower(Quantise(t, m)), 4);
    LeRoundTrip(Upper(Quantise(t, m)), 4);
  }

  /** What a device does with the payload of a frame that matches its RPDO. */
  function Received(p: Pdo, data: seq<U8>): seq<Delivery> {
    Deliver(p.mapping[..if p.count <= 64 then p.count else 64], data)
  }

  lemma {:induction false} ConfiguredReceives(e: Device, r: RpdoRecipe, data: seq<U8>)
    requires RpdoConfigured(e, r)
    ensures Received(e.rpdos[r.rpdoIndex], data) == Deliver(PackedAll(r.entries), data)
  {
  }

  /** A frame on the bus. */
  datatype BusFrame = BusFrame(id: nat, data: seq<U8>)

  /** An RPDO takes a frame if it is switched on and the identifiers agree. */
  function Taken(p: Pdo, frame: BusFrame): seq<Delivery> {
    if p.cob < 0x8000_0000 && p.cob == frame.id then Received(p, frame.data) else []
  }

  /** A device that accepted the write list of a recipe takes the frames of its COB-ID, and no others. */
  lemma {:induction false} AcceptedTakes(d: Device, e: Device, r: RpdoRecipe, frame: BusFrame)
    requires Valid(r.rpdoIndex, r.entries, r.cobId) && Run(d, RpdoWrites(r)) == Some(e)
    ensures r.rpdoIndex <= 3
    ensures Taken(e.rpdos[r.rpdoIndex], frame)
         == if frame.id == r.cobId then Deliver(PackedAll(r.entries), frame.data) else []
  {
    RpdoListConfigures(d, r);
    ConfiguredReceives(e, r, frame.data);
  }

  /**
    For every slot count a frame can hold: a CiA 402 motor that accepted the write list
    of its lane takes from the shared frame, sent under the COB-ID it was given, exactly
    its own target's 64 bits, through objects 0x2004:02 and 0x2004:03, and takes nothing
    under any other identifier; taking the bits apart gives back all five quantised
    components.
   */
  lemma {:induction false} MotorReceivesItsTarget(d: Device, e: Device, cobId: U16, id: nat, targets: seq<Target>,
                               mappings: seq<Mapping>, slot: nat)
    requires |targets| == |mappings| && slot < |targets| <= 8 && cobId <= 0x7FF
    requires forall i :: 0 <= i < |mappings| ==> Ordered(mappings[i])
    requires Run(d, RpdoWrites(RpdoRecipe(0, cobId, LaneEntries(MIT_OWN, FILLER, slot, |targets|), 255))) == Some(e)
    ensures var q := Quantise(targets[slot], mappings[slot]);
            && Taken(e.rpdos[0], BusFrame(id, Frame(targets, mappings)))
               == (if id == cobId then [Delivery(0x2004, 2, Lower(q)), Delivery(0x2004, 3, Upper(q))] else [])
            && Unpack(Lower(q), Upper(q)) == q
  {
    LaneTakesTarget(d, e, 0x2004, cobId, id, targets, mappings, slot);
  }

  lemma {:induction false} LaneTakesTarget(d: Device, e: Device, index: U16, cobId: U16, id: nat,
                               targets: seq<Target>, mappings: seq<Mapping>, slot: nat)
    requires |targets| == |mappings| && slot < |targets| <= 8 && index != 0x3000 && cobId <= 0x7FF
    requires forall i :: 0 <= i < |mappings| ==> Ordered(mappings[i])
    requires Run(d, RpdoWrites(RpdoRecipe(0, cobId, LaneEntries(TargetObjects(index), FILLER, slot, |targets|), 255)))
               == Some(e)
    ensures Taken(e.rpdos[0], BusFrame(id, Frame(targets, mappings)))
            == if id == cobId then OwnWords(index, targets[slot], mappings[slot]) else []
    ensures var q := Quantise(targets[slot], mappings[slot]); Unpack(Lower(q), Upper(q)) == q
  {
    var recipe := RpdoRecipe(0, cobId, LaneEntries(TargetObjects(index), FILLER, slot, |targets|), 255);
    LanesFitExactly(TargetObjects(index), FILLER, slot, |targets|, cobId);
    AcceptedTakes(d, e, recipe, BusFrame(id, Frame(targets, mappings)));
    FrameDeliversOwn(index, targets, mappings, slot);
    UnpackPack(Quantise(targets[slot], mappings[slot]));
  }

  /**
    The same for a Meow motor and the recipe made for it: it takes its own target's 64
    bits, through objects 0x4103:02 and 0x4103:03, from the frame sent under the
    identifier 0x180 plus the host's node ID, and nothing under any other.
   */
  lemma {:induction false} MeowReceivesItsTarget(d: Device, e: Device, host: U8, id: nat, targets: seq<Target>,
                               mappings: seq<Mapping>, slot: nat)
    requires |targets| == |mappings| && slot < |targets| <= 8 && 1 <= host <= 127
    requires forall i :: 0 <= i < |mappings| ==> Ordered(mappings[i])
    requires Run(d, RpdoWrites(LaneRecipe(0, MEOW_OWN, FILLER, slot, |targets|, host))) == Some(e)
    ensures var q := Quantise(targets[slot], mappings[slot]);
            && Taken(e.rpdos[0], BusFrame(id, Frame(targets, mappings)))
               == (if id == 0x180 + host then [Delivery(0x4103, 2, Lower(q)), Delivery(0x4103, 3, Upper(q))] else [])
            && Unpack(Lower(q), Upper(q)) == q
  {
    MeowRecipe(slot, |targets|, host);
    LaneTakesTarget(d, e, 0x4103, 0x180 + host, id, targets, mappings, slot);
  }

  lemma {:induction false} MeowRecipe(slot: nat, total: nat, host: U8)
    requires 1 <= host <= 127
    ensures LaneRecipe(0, MEOW_OWN, FILLER, slot, total, host)
         == RpdoRecipe(0, 0x180 + host, LaneEntries(TargetObjects(0x4103), FILLER, slot, total), 255)
  {
  }

  /** Within one quantisation step below the clamped input. */
  predicate Near(q: nat, x: real, r: Range, top: nat)
    requires top > 0
  {
    r.lo < r.hi ==> Restored(q, r, top) <= Clamp(x, r) < Restored(q, r, top) + (r.hi - r.lo) / top as real
  }

  /** Every component arrives within one quantisation step of the clamped input. */
  lemma {:induction false} QuantiseIsNear(t: Target, m: Mapping)
    requires Ordered(m)
    ensures var q := Quantise(t, m);
            && Near(q.position, t.position, m.position, 0xFFFF) && Near(q.velocity, t.velocity, m.velocity, 0xFFF)
            && Near(q.torque, t.torque, m.torque, 0xFFF)
            && Near(q.kp, t.kp, m.kp, 0xFFF) && Near(q.kd, t.kd, m.kd, 0xFFF)
  {
    UintIsNear(t.position, m.position, 0xFFFF);
    UintIsNear(t.velocity, m.velocity, 0xFFF);
    UintIsNear(t.torque, m.torque, 0xFFF);
    UintIsNear(t.kp, m.kp, 0xFFF);
    UintIsNear(t.kd, m.kd, 0xFFF);
  }

  lemma {:induction false} UintIsNear(x: real, r: Range, top: nat)
    requires r.lo <= r.hi && top > 0
    ensures Near(FloatToUint(x, r, top), x, r, top)
  {
    if r.lo < r.hi {
      QuantisedWithinStep(x, r, top);
    }
  }

  lemma {:induction false} ModeLaneDelivers(modes: seq<seq<U8>>, slot: nat)
    requires slot < |modes| && forall i :: 0 <= i < |modes| ==> |modes[i]| == 1
    ensures Deliver(PackedAll(LaneEntries(MODE_OWN, MODE_FILLER, slot, |modes|)), Concat(modes))
         == [Delivery(0x4401, 0, modes[slot][0])]
  {
    OneByte(0x4401, 0, 0);
    OneByte(0x3000, 1, 0);
    LaneIsolation(MODE_OWN, MODE_FILLER, slot, modes, 1);
    OneByte(0x4401, 0, modes[slot][0]);
    assert modes[slot] == [modes[slot][0]];
  }

  /**
    The mode command frame, one byte per motor: a device that accepted the write
    list of its mode lane takes exactly its own byte, as object 0x4401, from the frame
    sent under the identifier 0x280 plus the host's node ID, and nothing under any other.
   */
  lemma {:induction false} MotorReceivesItsMode(d: Device, e: Device, host: U8, id: nat, modes: seq<seq<U8>>, slot: nat)
    requires slot < |modes| <= 8 && forall i :: 0 <= i < |modes| ==> |modes[i]| == 1
    requires 1 <= host <= 127
    requires Run(d, RpdoWrites(LaneRecipe(1, MODE_OWN, MODE_FILLER, slot, |modes|, host))) == Some(e)
    ensures Taken(e.rpdos[1], BusFrame(id, Concat(modes)))
            == if id == 0x280 + host then [Delivery(0x4401, 0, modes[slot][0])] else []
  {
    var recipe := LaneRecipe(1, MODE_OWN, MODE_FILLER, slot, |modes|, host);
    LaneSize(MODE_OWN, MODE_FILLER, slot, |modes|, 8);
    AcceptedTakes(d, e, recipe, BusFrame(id, Concat(modes)));
    ModeLaneDelivers(modes, slot);
  }

  lemma {:induction false} OneByte(index: U16, sub: U8, v: U8)
    ensures Width(PackedAll([Entry(index, sub, 8)])) == 1
    ensures index != 0x3000 ==> Deliver(PackedAll([Entry(index, sub, 8)]), [v]) == [Delivery(index, sub, v)]
  {
    assert PackedAll([Entry(index, sub, 8)]) == [Packed(Entry(index, sub, 8))];
    PackedFields(Entry(index, sub, 8));
    OneObject(Packed(Entry(index, sub, 8)), [v]);
    assert [v][1..] == [];
  }
}
