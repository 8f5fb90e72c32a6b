/**
 Signal graphs: the tree of nodes that evaluation builds, with the arity every
 node reports and the state ids every node owns.
 */
module Graphs {
  import opened Samples

  datatype Leaf =
    | Const(val: Sample)
    | Wire
    | Cut
    | Binary(bop: BinOp)
    | Unary(uop: UnaryOp)
    | Select2
    | Mem(id: int)
    | VarDelay(id: int, len: int)
    | FixedDelay(id: int, len: int)
    | ReadTable(table: seq<Sample>)
    | RwTable(id: int, len: int)
    | Slider(name: string, init: Sample, lo: Sample, hi: Sample)
    | Button(name: string)
    | Checkbox(name: string)

  datatype Graph =
    | Prim(leaf: Leaf)
    | Seq(a: Graph, b: Graph)
    | Par(a: Graph, b: Graph)
    | Split(a: Graph, b: Graph)
    | Merge(a: Graph, b: Graph)
    | Rec(a: Graph, b: Graph, id: int)
    | Group(body: Graph)

  function LeafIn(l: Leaf): nat {
    match l
    case Const(_) => 0
    case Binary(_) => 2
    case Select2 => 3
    case VarDelay(_, _) => 2
    case RwTable(_, _) => 3
    case Slider(_, _, _, _) => 0
    case Button(_) => 0
    case Checkbox(_) => 0
    case _ => 1
  }

  function LeafOuts(l: Leaf): nat { if l.Cut? then 0 else 1 }

  function NIn(g: Graph): nat {
    match g
    case Prim(l) => LeafIn(l)
    case Seq(a, _) => NIn(a)
    case Par(a, b) => NIn(a) + NIn(b)
    case Split(a, _) => NIn(a)
    case Merge(a, _) => NIn(a)
    case Rec(a, b, _) => Larger(0, NIn(a) - NOut(b))
    case Group(body) => NIn(body)
  }

  function NOut(g: Graph): nat {
    match g
    case Prim(l) => LeafOuts(l)
    case Seq(_, b) => NOut(b)
    case Par(a, b) => NOut(a) + NOut(b)
    case Split(_, b) => NOut(b)
    case Merge(_, b) => NOut(b)
    case Rec(a, _, _) => NOut(a)
    case Group(body) => NOut(body)
  }

  predicate LeafWellFormed(l: Leaf) {
    match l
    case VarDelay(_, len) => len >= 1
    case FixedDelay(_, len) => len >= 1
    case ReadTable(table) => table != []
    case RwTable(_, len) => len >= 1
    case _ => true
  }

  /**
   The graphs whose tick never divides by zero or indexes outside a buffer.
   Arities need not match at a Seq: short inputs are padded and long ones ignored.
   */
  predicate WellFormed(g: Graph) {
    match g
    case Prim(l) => LeafWellFormed(l)
    case Seq(a, b) => WellFormed(a) && WellFormed(b)
    case Par(a, b) => WellFormed(a) && WellFormed(b)
    case Split(a, b) => WellFormed(a) && WellFormed(b) && (NIn(b) > 0 ==> NOut(a) > 0)
    case Merge(a, b) => WellFormed(a) && WellFormed(b) && (NOut(a) > 0 ==> NIn(b) > 0)
    case Rec(a, b, _) => WellFormed(a) && WellFormed(b) && NOut(b) <= NIn(a)
    case Group(body) => WellFormed(body)
  }

  function IdRange(id: int, n: nat): (ids: set<int>)
    ensures forall i :: i in ids <==> id <= i < id + n
  {
    if n == 0 then {} else IdRange(id, n - 1) + {id + n - 1}
  }

  /** The keys of the feedback map that a graph reads and writes. */
  function FeedbackIds(g: Graph): set<int> {
    match g
    case Prim(l) => if l.Mem? then {l.id} else {}
    case Seq(a, b) => FeedbackIds(a) + FeedbackIds(b)
    case Par(a, b) => FeedbackIds(a) + FeedbackIds(b)
    case Split(a, b) => FeedbackIds(a) + FeedbackIds(b)
    case Merge(a, b) => FeedbackIds(a) + FeedbackIds(b)
    case Rec(a, b, id) => FeedbackIds(a) + FeedbackIds(b) + IdRange(id, NOut(b))
    case Group(body) => FeedbackIds(body)
  }

  /** The delay buffers a graph owns, with their lengths. */
  function Buffers(g: Graph): map<int, int> {
    match g
    case Prim(l) => if l.VarDelay? || l.FixedDelay? || l.RwTable? then map[l.id := l.len] else map[]
    case Seq(a, b) => Buffers(a) + Buffers(b)
    case Par(a, b) => Buffers(a) + Buffers(b)
    case Split(a, b) => Buffers(a) + Buffers(b)
    case Merge(a, b) => Buffers(a) + Buffers(b)
    case Rec(a, b, _) => Buffers(a) + Buffers(b)
    case Group(body) => Buffers(body)
  }

  /** No two nodes own the same delay buffer. */
  predicate BuffersDistinct(g: Graph) {
    match g
    case Prim(_) => true
    case Seq(a, b) => BuffersDistinct(a) && BuffersDistinct(b) && Buffers(a).Keys !! Buffers(b).Keys
    case Par(a, b) => BuffersDistinct(a) && BuffersDistinct(b) && Buffers(a).Keys !! Buffers(b).Keys
    case Split(a, b) => BuffersDistinct(a) && BuffersDistinct(b) && Buffers(a).Keys !! Buffers(b).Keys
    case Merge(a, b) => BuffersDistinct(a) && BuffersDistinct(b) && Buffers(a).Keys !! Buffers(b).Keys
    case Rec(a, b, _) => BuffersDistinct(a) && BuffersDistinct(b) && Buffers(a).Keys !! Buffers(b).Keys
    case Group(body) => BuffersDistinct(body)
  }

  /** No two nodes share a feedback cell. */
  predicate FeedbackDistinct(g: Graph) {
    match g
    case Prim(_) => true
    case Seq(a, b) => FeedbackDistinct(a) && FeedbackDistinct(b) && FeedbackIds(a) !! FeedbackIds(b)
    case Par(a, b) => FeedbackDistinct(a) && FeedbackDistinct(b) && FeedbackIds(a) !! FeedbackIds(b)
    case Split(a, b) => FeedbackDistinct(a) && FeedbackDistinct(b) && FeedbackIds(a) !! FeedbackIds(b)
    case Merge(a, b) => FeedbackDistinct(a) && FeedbackDistinct(b) && FeedbackIds(a) !! FeedbackIds(b)
    case Rec(a, b, id) =>
      FeedbackDistinct(a) && FeedbackDistinct(b) && FeedbackIds(a) !! FeedbackIds(b) &&
      IdRange(id, NOut(b)) !! FeedbackIds(a) + FeedbackIds(b)
    case Group(body) => FeedbackDistinct(body)
  }

  /** Widths of two graphs put together, and when they fit. */
  lemma Sides(a: Graph, b: Graph, id: int)
    ensures NIn(Seq(a, b)) == NIn(Split(a, b)) == NIn(Merge(a, b)) == NIn(a) && NIn(Par(a, b)) == NIn(a) + NIn(b)
    ensures NOut(Seq(a, b)) == NOut(Split(a, b)) == NOut(Merge(a, b)) == NOut(b) && NOut(Par(a, b)) == NOut(a) + NOut(b)
    ensures NOut(b) <= NIn(a) ==> NIn(Rec(a, b, id)) == NIn(a) - NOut(b)
    ensures NOut(Rec(a, b, id)) == NOut(a)
    ensures WellFormed(Seq(a, b)) == WellFormed(Par(a, b)) == (WellFormed(a) && WellFormed(b))
    ensures WellFormed(Split(a, b)) == (WellFormed(a) && WellFormed(b) && (NIn(b) > 0 ==> NOut(a) > 0))
    ensures WellFormed(Merge(a, b)) == (WellFormed(a) && WellFormed(b) && (NOut(a) > 0 ==> NIn(b) > 0))
    ensures WellFormed(Rec(a, b, id)) == (WellFormed(a) && WellFormed(b) && NOut(b) <= NIn(a))
  {
  }
}
