/**
 One sample period of a graph over explicit state: the operational meaning of
 `tick`, branch for branch, on map values.
 */
module Steps {
  import opened Samples
  import opened Graphs
  import opened Streams

  /** The mutable maps of the interpreter's state. */
  datatype Store = Store(feedback: map<int, Sample>, delays: map<int, seq<Sample>>, delayPos: map<int, int>)

  function GetFeedback(s: Store, id: int): Sample {
    if id in s.feedback then s.feedback[id] else ZERO
  }

  predicate Unused(s: Store, id: int) { id !in s.delays || s.delays[id] == [] }

  function Buffer(s: Store, id: int, len: nat): seq<Sample> {
    if Unused(s, id) then Zeros(len) else s.delays[id]
  }

  function WritePos(s: Store, id: int): int {
    if Unused(s, id) || id !in s.delayPos then 0 else s.delayPos[id]
  }

  /** A buffer is either unused or has the length its owner expects. */
  predicate Shaped(s: Store, id: int, len: int) {
    (!Unused(s, id) ==> |s.delays[id]| == len) && (id in s.delayPos ==> 0 <= s.delayPos[id] < len)
  }

  predicate AllShaped(s: Store, lens: map<int, int>) {
    forall id :: id in lens ==> Shaped(s, id, lens[id])
  }

  /** Writes x at the write position, reads d samples back, advances. */
  function DelayWriteRead(s: Store, id: int, len: int, x: Sample, d: int): (r: (Sample, Store))
    requires len >= 1 && Shaped(s, id, len)
    ensures Shaped(r.1, id, len) && SameOutside(s, r.1, {}, {id})
  {
    var wp := WritePos(s, id);
    var buf := Buffer(s, id, len)[wp := x];
    (buf[(wp - Clamp(d, 0, len - 1) + len) % len],
     s.(delays := s.delays[id := buf], delayPos := s.delayPos[id := (wp + 1) % len]))
  }

  /** Feedback cells id, id+1, ... as a frame. */
  function ReadFeedback(s: Store, id: int, n: nat): (f: Frame)
    ensures |f| == n
  {
    seq(n, i requires 0 <= i < n => GetFeedback(s, id + i))
  }

  /** The store after writing the first k channels of f to cells id, id+1, ... */
  function WriteFeedback(s: Store, id: int, f: Frame, k: nat): (r: Store)
    requires k <= |f|
    ensures r.delays == s.delays && r.delayPos == s.delayPos
    ensures forall i :: GetFeedback(r, i) == if id <= i < id + k then f[i - id] else GetFeedback(s, i)
  {
    if k == 0 then s
    else
      var t := WriteFeedback(s, id, f, k - 1);
      SetCell(t, id + k - 1, f[k - 1]);
      t.(feedback := t.feedback[id + k - 1 := f[k - 1]])
  }

  lemma SetCell(s: Store, id: int, v: Sample)
    ensures var t := s.(feedback := s.feedback[id := v]);
      forall i :: GetFeedback(t, i) == if i == id then v else GetFeedback(s, i)
  {
  }

  ghost predicate SameCell(s: Store, t: Store, i: int) {
    GetFeedback(s, i) == GetFeedback(t, i)
  }

  ghost predicate SameBuffer(s: Store, t: Store, i: int) {
    && (i in s.delays <==> i in t.delays)
    && (i in s.delays ==> s.delays[i] == t.delays[i])
    && (i in s.delayPos <==> i in t.delayPos)
    && (i in s.delayPos ==> s.delayPos[i] == t.delayPos[i])
  }

  /** Two stores agree on everything except the given feedback cells and delay buffers. */
  ghost predicate SameOutside(s: Store, t: Store, cells: set<int>, bufs: set<int>) {
    && (forall i :: i !in cells ==> SameCell(s, t, i))
    && (forall i :: i !in bufs ==> SameBuffer(s, t, i))
  }

  lemma ShapedFrame(s: Store, t: Store, cells: set<int>, bufs: set<int>, lens: map<int, int>)
    requires SameOutside(s, t, cells, bufs) && AllShaped(s, lens) && lens.Keys !! bufs
    ensures AllShaped(t, lens)
  {
    forall id | id in lens ensures Shaped(t, id, lens[id]) {
      assert Shaped(s, id, lens[id]) && SameBuffer(s, t, id);
    }
  }

  /** Two ticks in sequence over disjoint buffers: shapes survive and the frames add up. */
  lemma Chain(s: Store, t: Store, u: Store, a: Graph, b: Graph)
    requires Buffers(a).Keys !! Buffers(b).Keys
    requires AllShaped(t, Buffers(a)) && AllShaped(u, Buffers(b))
    requires SameOutside(s, t, FeedbackIds(a), Buffers(a).Keys)
    requires SameOutside(t, u, FeedbackIds(b), Buffers(b).Keys)
    ensures AllShaped(u, Buffers(a) + Buffers(b))
    ensures SameOutside(s, u, FeedbackIds(a) + FeedbackIds(b), (Buffers(a) + Buffers(b)).Keys)
  {
    ShapedFrame(t, u, FeedbackIds(b), Buffers(b).Keys, Buffers(a));
    forall i | i !in FeedbackIds(a) + FeedbackIds(b) ensures SameCell(s, u, i) {
      assert SameCell(s, t, i) && SameCell(t, u, i);
    }
    forall i | i !in (Buffers(a) + Buffers(b)).Keys ensures SameBuffer(s, u, i) {
      assert SameBuffer(s, t, i) && SameBuffer(t, u, i);
    }
  }

  /** The left operand of a combinator sees shaped buffers, and leaves the right one's alone. */
  lemma Halves(s: Store, a: Graph, b: Graph)
    requires Buffers(a).Keys !! Buffers(b).Keys && AllShaped(s, Buffers(a) + Buffers(b))
    ensures AllShaped(s, Buffers(a)) && AllShaped(s, Buffers(b))
  {
    forall id | id in Buffers(a) ensures Shaped(s, id, Buffers(a)[id]) {
      assert id in Buffers(a) + Buffers(b);
    }
    forall id | id in Buffers(b) ensures Shaped(s, id, Buffers(b)[id]) {
      assert id in Buffers(a) + Buffers(b);
    }
  }

  function StepLeaf(l: Leaf, s: Store, p: Params, x: Frame): (r: (Frame, Store))
    requires LeafWellFormed(l) && AllShaped(s, Buffers(Prim(l)))
    ensures |r.0| == LeafOuts(l)
    ensures AllShaped(r.1, Buffers(Prim(l)))
    ensures SameOutside(s, r.1, FeedbackIds(Prim(l)), Buffers(Prim(l)).Keys)
  {
    assert l.VarDelay? || l.FixedDelay? || l.RwTable? ==> Shaped(s, l.id, l.len) by {
      if l.VarDelay? || l.FixedDelay? || l.RwTable? { assert l.id in Buffers(Prim(l)); }
    }
    if l.Mem? then
      ([GetFeedback(s, l.id)], s.(feedback := s.feedback[l.id := At(x, 0)]))
    else if l.VarDelay? then
      var r := DelayWriteRead(s, l.id, l.len, At(x, 0), DelayArg(x));
      ([r.0], r.1)
    else if l.FixedDelay? then
      var r := DelayWriteRead(s, l.id, l.len, At(x, 0), l.len);
      ([r.0], r.1)
    else if l.RwTable? then
      var buf := Buffer(s, l.id, l.len)[TableIndex(x, 0, l.len) := At(x, 1)];
      ([buf[TableIndex(x, 2, l.len)]], s.(delays := s.delays[l.id := buf]))
    else
      (Instant(l, p, x), s)
  }

  /** One tick of a graph: its output frame and the state it leaves. */
  function Step(g: Graph, s: Store, p: Params, x: Frame): (r: (Frame, Store))
    requires WellFormed(g) && BuffersDistinct(g) && AllShaped(s, Buffers(g))
    ensures |r.0| == NOut(g)
    ensures AllShaped(r.1, Buffers(g))
    ensures SameOutside(s, r.1, FeedbackIds(g), Buffers(g).Keys)
    decreases g
  {
    hide StepLeaf, ReadFeedback, WriteFeedback, Fan, Fold, Pad;
    match g
    case Prim(l) => StepLeaf(l, s, p, x)
    case Seq(a, b) => 
      Halves(s, a, b);
      var ra := Step(a, s, p, x);
      ShapedFrame(s, ra.1, FeedbackIds(a), Buffers(a).Keys, Buffers(b));
      var rb := Step(b, ra.1, p, ra.0);
      Chain(s, ra.1, rb.1, a, b);
      rb
    case Par(a, b) =>
      Halves(s, a, b);
      var ra := Step(a, s, p, Take(x, NIn(a)));
      ShapedFrame(s, ra.1, FeedbackIds(a), Buffers(a).Keys, Buffers(b));
      var rb := Step(b, ra.1, p, Drop(x, NIn(a)));
      Chain(s, ra.1, rb.1, a, b);
      (ra.0 + rb.0, rb.1)
    case Split(a, b) =>
      Halves(s, a, b);
      var ra := Step(a, s, p, x);
      ShapedFrame(s, ra.1, FeedbackIds(a), Buffers(a).Keys, Buffers(b));
      var rb := Step(b, ra.1, p, Fan(ra.0, NIn(b)));
      Chain(s, ra.1, rb.1, a, b);
      rb
    case Merge(a, b) =>
      Halves(s, a, b);
      var ra := Step(a, s, p, x);
      ShapedFrame(s, ra.1, FeedbackIds(a), Buffers(a).Keys, Buffers(b));
      var rb := Step(b, ra.1, p, Fold(ra.0, NIn(b)));
      Chain(s, ra.1, rb.1, a, b);
      rb
    case Rec(a, b, id) =>
      Halves(s, a, b);
      var ra := Step(a, s, p, Pad(x, NIn(a) - NOut(b)) + ReadFeedback(s, id, NOut(b)));
      ShapedFrame(s, ra.1, FeedbackIds(a), Buffers(a).Keys, Buffers(b));
      var rb := Step(b, ra.1, p, ra.0);
      Chain(s, ra.1, rb.1, a, b);
      (ra.0, WriteFeedback(rb.1, id, rb.0, NOut(b)))
    case Group(body) => Step(body, s, p, x)
  }

  // ---- The definition of Step, one combinator at a time, for proofs that hide its body.

  predicate TwoSided(g: Graph) { g.Seq? || g.Par? || g.Split? || g.Merge? || g.Rec? }

  /** What a combinator needs of the state, it needs of its operands, which do not interfere. */
  lemma Operands(g: Graph, s: Store)
    requires TwoSided(g) && WellFormed(g) && BuffersDistinct(g) && AllShaped(s, Buffers(g))
    ensures WellFormed(g.a) && BuffersDistinct(g.a) && AllShaped(s, Buffers(g.a))
    ensures WellFormed(g.b) && BuffersDistinct(g.b) && AllShaped(s, Buffers(g.b))
    ensures Buffers(g.a).Keys !! Buffers(g.b).Keys
    ensures g.Split? && NIn(g.b) > 0 ==> NOut(g.a) > 0
    ensures g.Merge? && NOut(g.a) > 0 ==> NIn(g.b) > 0
    ensures g.Rec? ==> NOut(g.b) <= NIn(g.a)
  {
    Halves(s, g.a, g.b);
  }

  lemma AfterLeft(g: Graph, s: Store, p: Params, z: Frame)
    requires TwoSided(g) && WellFormed(g.a) && BuffersDistinct(g.a) && AllShaped(s, Buffers(g.a))
    requires AllShaped(s, Buffers(g.b)) && Buffers(g.a).Keys !! Buffers(g.b).Keys
    ensures AllShaped(Step(g.a, s, p, z).1, Buffers(g.b))
  {
    hide Step, Buffers, FeedbackIds;
    ShapedFrame(s, Step(g.a, s, p, z).1, FeedbackIds(g.a), Buffers(g.a).Keys, Buffers(g.b));
  }

  lemma SeqStep(g: Graph, s: Store, p: Params, x: Frame, ra: (Frame, Store), rb: (Frame, Store))
    requires g.Seq? && WellFormed(g) && BuffersDistinct(g) && AllShaped(s, Buffers(g))
    requires AllShaped(s, Buffers(g.a)) && ra == Step(g.a, s, p, x)
    requires AllShaped(ra.1, Buffers(g.b)) && rb == Step(g.b, ra.1, p, ra.0)
    ensures Step(g, s, p, x) == rb
  {
  }

  lemma ParStep(g: Graph, s: Store, p: Params, x: Frame, ra: (Frame, Store), rb: (Frame, Store))
    requires g.Par? && WellFormed(g) && BuffersDistinct(g) && AllShaped(s, Buffers(g))
    requires AllShaped(s, Buffers(g.a)) && ra == Step(g.a, s, p, Take(x, NIn(g.a)))
    requires AllShaped(ra.1, Buffers(g.b)) && rb == Step(g.b, ra.1, p, Drop(x, NIn(g.a)))
    ensures Step(g, s, p, x) == (ra.0 + rb.0, rb.1)
  {
  }

  lemma SplitStep(g: Graph, s: Store, p: Params, x: Frame, ra: (Frame, Store), rb: (Frame, Store))
    requires g.Split? && WellFormed(g) && BuffersDistinct(g) && AllShaped(s, Buffers(g))
    requires AllShaped(s, Buffers(g.a)) && ra == Step(g.a, s, p, x)
    requires AllShaped(ra.1, Buffers(g.b)) && rb == Step(g.b, ra.1, p, Fan(ra.0, NIn(g.b)))
    ensures Step(g, s, p, x) == rb
  {
  }

  lemma MergeStep(g: Graph, s: Store, p: Params, x: Frame, ra: (Frame, Store), rb: (Frame, Store))
    requires g.Merge? && WellFormed(g) && BuffersDistinct(g) && AllShaped(s, Buffers(g))
    requires AllShaped(s, Buffers(g.a)) && ra == Step(g.a, s, p, x)
    requires AllShaped(ra.1, Buffers(g.b)) && rb == Step(g.b, ra.1, p, Fold(ra.0, NIn(g.b)))
    ensures Step(g, s, p, x) == rb
  {
  }

  lemma RecStep(g: Graph, s: Store, p: Params, x: Frame, ra: (Frame, Store), rb: (Frame, Store))
    requires g.Rec? && WellFormed(g) && BuffersDistinct(g) && AllShaped(s, Buffers(g)) && NOut(g.b) <= NIn(g.a)
    requires AllShaped(s, Buffers(g.a))
    requires ra == Step(g.a, s, p, Pad(x, NIn(g.a) - NOut(g.b)) + ReadFeedback(s, g.id, NOut(g.b)))
    requires AllShaped(ra.1, Buffers(g.b)) && rb == Step(g.b, ra.1, p, ra.0)
    ensures Step(g, s, p, x) == (ra.0, WriteFeedback(rb.1, g.id, rb.0, NOut(g.b)))
  {
  }
}
