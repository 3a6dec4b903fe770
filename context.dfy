/** The bit-position context of the struct code generator
    (cmd/struc-gen/internal/structag/context.go): the pending bit count, made of a
    static part known when the code is generated and an optional dynamic part computed
    by the generated code, and `Flush`, which emits the statements that move the byte
    offset `m` past those bits and align it to the `Pack` directive. The emitted
    statements are modelled by their effect on `m`. */
module Structag {

  /** Go's `a / b` on integers, which truncates toward zero (here `b > 0`). */
  function GoQuo(a: int, b: int): (q: int)
    requires b > 0
    ensures a >= 0 ==> b * q <= a < b * q + b
    ensures a < 0 ==> b * q - b < a <= b * q
  {
    if a >= 0 then a / b else -((-a) / b)
  }

  /** Go's `a % b`, which takes the sign of `a` (here `b > 0`). */
  function GoRem(a: int, b: int): (r: int)
    requires b > 0
    ensures a == b * GoQuo(a, b) + r
    ensures a >= 0 ==> 0 <= r < b
    ensures a < 0 ==> -b < r <= 0
  {
    a - b * GoQuo(a, b)
  }

  /** The `*jen.Statement` of the dynamic part of the pending bits: nil, or a Go
      expression whose value is known only when the generated code runs. */
  datatype DynamicBits = Absent | Present(expr: string)

  /** The pending bit expression `(static)` or `(static + dynamic)`. */
  datatype BitExpr = BitExpr(staticBits: int, dynamicBits: DynamicBits)

  /** The value of a bit expression when the dynamic part evaluates to `dyn`. */
  function Eval(e: BitExpr, dyn: int): (bits: int)
    ensures e.dynamicBits.Absent? ==> bits == e.staticBits
    ensures e.dynamicBits.Present? ==> bits == e.staticBits + dyn
  {
    match e.dynamicBits
    case Absent => e.staticBits
    case Present(_) => e.staticBits + dyn
  }

  /** The `jen.Null()` statement a check-bound placeholder stands for; later code fills it
      in through the context's `checkBound` pointer, so it has an identity. */
  class Placeholder {
    constructor () {}
  }

  /** The statements `Flush` emits, by what they do to `m`. */
  datatype Stmt =
    | AddBytes(bits: BitExpr)  // m += bits / 8
    | RoundUp(bits: BitExpr)   // if bits % 8 != 0 { m++ }
    | AlignTo(pack: int)       // if m % pack != 0 { m += pack - (m % pack) }
    | Bound(slot: Placeholder) // the empty check-bound placeholder

  /** `m += bits / 8` followed by `if bits % 8 != 0 { m++ }`. */
  function ByteAdvance(bits: int): int {
    GoQuo(bits, 8) + (if GoRem(bits, 8) != 0 then 1 else 0)
  }

  /** `if m % pack != 0 { m += pack - (m % pack) }` when `pack > 0`; nothing is emitted
      otherwise. */
  function Align(m: int, pack: int): int {
    if pack > 0 && GoRem(m, pack) != 0 then m + (pack - GoRem(m, pack)) else m
  }

  /** The effect of one emitted statement on `m`, the dynamic bits evaluating to `dyn`. */
  function Step(s: Stmt, m: int, dyn: int): int {
    match s
    case AddBytes(e) => m + GoQuo(Eval(e, dyn), 8)
    case RoundUp(e) => if GoRem(Eval(e, dyn), 8) != 0 then m + 1 else m
    case AlignTo(pack) => Align(m, pack)
    case Bound(_) => m
  }

  /** The effect of a statement list, in order. */
  function Run(stmts: seq<Stmt>, m: int, dyn: int): int
    decreases |stmts|
  {
    if stmts == [] then m else Run(stmts[1..], Step(stmts[0], m, dyn), dyn)
  }

  /** The arithmetic rule the flushed code implements: advance past the pending bits to
      the next whole byte, then pad to the `Pack` boundary. */
  function FlushEffect(m: int, bits: int, pack: int): int {
    Align(m + ByteAdvance(bits), pack)
  }

  /** The statement `Flush` returns for the pending bits `e`, the directive `pack` and
      the new placeholder `slot`. */
  function FlushCode(e: BitExpr, pack: int, slot: Placeholder): (stmts: seq<Stmt>)
    ensures |stmts| == if pack > 0 then 4 else 3
    ensures stmts[|stmts| - 1] == Bound(slot)
    ensures (exists i :: 0 <= i < |stmts| && stmts[i].AlignTo?) <==> pack > 0
  {
    var stmts := [AddBytes(e), RoundUp(e)] + (if pack > 0 then [AlignTo(pack)] else []) + [Bound(slot)];
    assert stmts[0].AddBytes? && stmts[1].RoundUp? && stmts[|stmts| - 1].Bound?;
    assert pack > 0 ==> stmts[2].AlignTo?;
    stmts
  }

  /** The generator's bit-position state: `checkBound` points at the placeholder the
      next bound check fills in, the pending bits are `staticBitPos` plus the optional
      `dynamicBitPos`, and `Pack` is the packing directive (0 for natural layout). */
  class Context {
    var checkBound: Placeholder?
    var staticBitPos: int
    var dynamicBitPos: DynamicBits
    var Pack: int

    /** A zero-valued `Context{Pack: pack}`. */
    constructor (pack: int)
      ensures checkBound == null && staticBitPos == 0 && dynamicBitPos.Absent? && Pack == pack
    {
      checkBound := null;
      staticBitPos := 0;
      dynamicBitPos := Absent;
      Pack := pack;
    }

    /** The pending bit expression Flush consumes. */
    function Pending(): BitExpr
      reads this
    {
      BitExpr(staticBitPos, dynamicBitPos)
    }

    /** Nothing is pending. */
    predicate Empty()
      reads this
    {
      staticBitPos == 0 && dynamicBitPos.Absent?
    }

    /** `insertNewCheckBound`: a fresh empty placeholder becomes the one `checkBound`
        points to, and the statement returned ends with it. */
    method InsertNewCheckBound() returns (s: Stmt)
      modifies this
      ensures checkBound != null && fresh(checkBound)
      ensures s == Bound(checkBound)
      ensures staticBitPos == old(staticBitPos) && dynamicBitPos == old(dynamicBitPos) && Pack == old(Pack)
    {
      var slot := new Placeholder();
      checkBound := slot;
      s := Bound(slot);
    }

    /** `Flush`: the context is emptied, `Pack` is kept, `checkBound` moves to a new
        placeholder that closes the returned statements, and those statements move `m`
        as the flush rule says for the bits that were pending. */
    method Flush() returns (stmts: seq<Stmt>)
      modifies this
      ensures Empty() && Pack == old(Pack)
      ensures checkBound != null && fresh(checkBound)
      ensures stmts == FlushCode(old(Pending()), Pack, checkBound)
      ensures forall m, dyn :: Run(stmts, m, dyn) == FlushEffect(m, Eval(old(Pending()), dyn), Pack)
    {
      var bitExpr := BitExpr(staticBitPos, dynamicBitPos);
      staticBitPos := 0;
      dynamicBitPos := Absent;
      stmts := [AddBytes(bitExpr), RoundUp(bitExpr)];
      if Pack > 0 {
        stmts := stmts + [AlignTo(Pack)];
      }
      var bound := InsertNewCheckBound();
      stmts := stmts + [bound];
      forall m, dyn ensures Run(stmts, m, dyn) == FlushEffect(m, Eval(bitExpr, dyn), Pack) {
        FlushCodeEffect(bitExpr, Pack, checkBound, m, dyn);
      }
    }
  }

  /** Running the flushed code has the effect of the flush rule. */
  lemma FlushCodeEffect(e: BitExpr, pack: int, slot: Placeholder, m: int, dyn: int)
    ensures Run(FlushCode(e, pack, slot), m, dyn) == FlushEffect(m, Eval(e, dyn), pack)
  {
    var stmts := FlushCode(e, pack, slot);
    var m1 := m + GoQuo(Eval(e, dyn), 8);
    var m2 := m + ByteAdvance(Eval(e, dyn));
    assert Run(stmts, m, dyn) == Run(stmts[1..], m1, dyn);
    assert Run(stmts[1..], m1, dyn) == Run(stmts[2..], m2, dyn);
    if pack > 0 {
      assert Run(stmts[2..], m2, dyn) == Run(stmts[3..], Align(m2, pack), dyn);
      assert Run(stmts[3..], Align(m2, pack), dyn) == Run([], Align(m2, pack), dyn);
    } else {
      assert Run(stmts[2..], m2, dyn) == Run([], m2, dyn);
    }
  }

  /** For a non-negative bit count the advance is the ceiling of `bits / 8`: the fewest
      whole bytes that hold the bits. */
  lemma CeilingBytes(bits: int)
    requires bits >= 0
    ensures ByteAdvance(bits) == (bits + 7) / 8
    ensures 8 * ByteAdvance(bits) >= bits && 8 * (ByteAdvance(bits) - 1) < bits
  {
  }

  /** A multiple of `pack` has no remainder. */
  lemma {:induction false} MultipleRem(pack: int, k: int)
    requires pack > 0
    ensures GoRem(pack * k, pack) == 0
  {
    var a := pack * k;
    var r := GoRem(a, pack);
    var d := k - GoQuo(a, pack);
    assert pack * d == r by {
      assert a == pack * GoQuo(a, pack) + r;
    }
  }

  /** Alignment lands on a multiple of `pack`, never moves `m` backwards, and moves it
      exactly when it was not aligned. */
  lemma AlignedToPack(m: int, pack: int)
    requires pack > 0
    ensures GoRem(Align(m, pack), pack) == 0
    ensures Align(m, pack) >= m
    ensures Align(m, pack) == m <==> GoRem(m, pack) == 0
  {
    var q := GoQuo(m, pack);
    var r := GoRem(m, pack);
    if r != 0 {
      assert Align(m, pack) == pack * (q + 1);
      MultipleRem(pack, q + 1);
    }
  }

  /** For a non-negative offset the padding is less than `pack`, so the result is the
      next multiple of `pack` at or after `m`. */
  lemma PaddingBelowPack(m: int, pack: int)
    requires pack > 0 && m >= 0
    ensures 0 <= Align(m, pack) - m < pack
    ensures Align(m, pack) - m == 0 <==> GoRem(m, pack) == 0
  {
  }

  /** With a negative offset Go's remainder is negative and the padding exceeds `pack`:
      from -3 with a pack of 4 the code goes to 4, not 0. The generated code starts `m`
      at zero and only moves it forward, so this never arises there. */
  lemma NegativeOffsetOverpads()
    ensures Align(-3, 4) == 4
  {
    assert GoRem(-3, 4) == -3;
  }

  /** Aligning twice is aligning once. */
  lemma AlignIdempotent(m: int, pack: int)
    ensures Align(Align(m, pack), pack) == Align(m, pack)
  {
    if pack > 0 {
      AlignedToPack(m, pack);
    }
  }

  /** With `Pack > 0` the flushed offset is a multiple of `Pack`, and for a non-negative
      offset and bit count it is the first multiple of `Pack` at or after the byte
      boundary past the bits. */
  lemma PackedFlush(m: int, bits: int, pack: int)
    requires pack > 0
    ensures GoRem(FlushEffect(m, bits, pack), pack) == 0
    ensures m >= 0 && bits >= 0 ==>
      var b := m + (bits + 7) / 8;
      b <= FlushEffect(m, bits, pack) < b + pack
  {
    AlignedToPack(m + ByteAdvance(bits), pack);
    if m >= 0 && bits >= 0 {
      CeilingBytes(bits);
      PaddingBelowPack(m + ByteAdvance(bits), pack);
    }
  }

  /** With natural packing no alignment is applied: the offset moves to the byte
      boundary past the bits. */
  lemma NaturalFlush(m: int, bits: int, pack: int)
    requires pack <= 0 && bits >= 0
    ensures FlushEffect(m, bits, pack) == m + (bits + 7) / 8
  {
    CeilingBytes(bits);
  }

  /** For non-negative pending bits a flush never moves `m` backwards. */
  lemma FlushMonotone(m: int, bits: int, pack: int)
    requires bits >= 0
    ensures FlushEffect(m, bits, pack) >= m
  {
    CeilingBytes(bits);
    if pack > 0 {
      AlignedToPack(m + ByteAdvance(bits), pack);
    }
  }

  /** After a flush the context is empty and `m` is aligned, so flushing again moves
      nothing: the second flush has no pending bits and finds `m` already aligned. */
  lemma FlushTwice(m: int, bits: int, pack: int)
    ensures FlushEffect(FlushEffect(m, bits, pack), 0, pack) == FlushEffect(m, bits, pack)
  {
    assert ByteAdvance(0) == 0;
    AlignIdempotent(m + ByteAdvance(bits), pack);
  }

  /** For negative pending bits the rounding step adds a byte where the ceiling would
      not: `-3` bits advance `m` by one byte. */
  lemma NegativeBitsRoundAway()
    ensures ByteAdvance(-3) == 1
  {
    assert GoQuo(-3, 8) == 0 && GoRem(-3, 8) == -3;
  }
}
