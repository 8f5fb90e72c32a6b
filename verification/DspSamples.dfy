/**
 Audio samples and the arithmetic the interpreter performs on them.

 Samples are an abstract type and FLOAT an arbitrary record of operations on it,
 so every theorem about signal graphs holds whatever the float unit computes:
 no law of addition, rounding or comparison is ever used.
 */
module Samples {

  type Sample(==, 0, !new)

  datatype BinOp =
    | Add | Sub | Mul | Div | Mod | Pow | Min | Max
    | And | Or | Xor | Shl | Shr | Atan2 | Rem

  datatype UnaryOp =
    | Sin | Cos | Tan | Asin | Acos | Atan | Sqrt | Exp
    | Log | Log10 | Abs | Floor | Ceil | Rint | ToInt | ToFloat | Neg

  /** The operations of the float unit; `binary` and `unary` cover the rest of the instruction set. */
  datatype Arithmetic = Arithmetic(
    zero: Sample,
    one: Sample,
    add: (Sample, Sample) -> Sample,
    neg: Sample -> Sample,
    sin: Sample -> Sample,
    cos: Sample -> Sample,
    ofInt: int -> Sample,
    toInt: Sample -> int,
    nonZero: Sample -> bool,
    clamp: (Sample, Sample, Sample) -> Sample,
    binary: (BinOp, Sample, Sample) -> Sample,
    unary: (UnaryOp, Sample) -> Sample)

  const FLOAT: Arithmetic

  const ZERO: Sample := FLOAT.zero

  type Frame = seq<Sample>

  type Params = map<string, Sample>

  function Lesser(a: int, b: int): int { if a <= b then a else b }

  function Larger(a: int, b: int): int { if a >= b then a else b }

  function Clamp(d: int, lo: int, hi: int): int {
    if d < lo then lo else if hi < d then hi else d
  }

  /** A channel of a frame; missing channels read as zero, as every node does. */
  function At(f: Frame, c: nat): Sample {
    if c < |f| then f[c] else ZERO
  }

  function Zeros(n: nat): (f: Frame)
    ensures |f| == n && forall i :: 0 <= i < n ==> f[i] == ZERO
  {
    seq(n, _ => ZERO)
  }

  function Apply2(op: BinOp, a: Sample, b: Sample): Sample {
    match op
    case Add => FLOAT.add(a, b)
    case Div => if FLOAT.nonZero(b) then FLOAT.binary(Div, a, b) else ZERO
    case Mod => if FLOAT.nonZero(b) then FLOAT.binary(Mod, a, b) else ZERO
    case Rem => if FLOAT.nonZero(b) then FLOAT.binary(Rem, a, b) else ZERO
    case _ => FLOAT.binary(op, a, b)
  }

  function Apply1(op: UnaryOp, a: Sample): Sample {
    match op
    case Neg => FLOAT.neg(a)
    case Sin => FLOAT.sin(a)
    case Cos => FLOAT.cos(a)
    case ToInt => FLOAT.ofInt(FLOAT.toInt(a))
    case ToFloat => a
    case _ => FLOAT.unary(op, a)
  }
}
