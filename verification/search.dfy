/** The search engine: the two-ply minimax over either evaluator, and the
    single-ply pick. */
module Search {
  import opened Wrappers
  import opened Board
  import opened MoveGen

  /** The reply loop's running minimum: starting from `acc`, lowered to the
      score of each reply in list order whenever that score is smaller. */
  function ReplyMin<B>(eval: (B, Move, Side) -> int, p: Perspective, after: B, replies: seq<Move>, acc: int): (v: int)
    ensures v <= acc
    ensures forall k :: 0 <= k < |replies| ==> v <= eval(after, replies[k], p.theirs)
    ensures v == acc || exists k :: 0 <= k < |replies| && v == eval(after, replies[k], p.theirs)
    decreases |replies|
  {
    if |replies| == 0 then acc
    else
      var s := eval(after, replies[0], p.theirs);
      ReplyMin(eval, p, after, replies[1..], if s < acc then s else acc)
  }

  /** The value the search gives to the engine playing `m` on `b`: its
      immediate score, lowered to the worst score (for the engine) among
      the opponent's legal replies on the board it leads to. */
  function CandidateValue<B>(o: Oracle<B>, eval: (B, Move, Side) -> int, p: Perspective, b: B, m: Move): (v: int)
    ensures v <= eval(b, m, p.mine)
    ensures forall r :: IsLegal(o, o.apply(b, m, p.mine), r, p.theirs) ==>
      v <= eval(o.apply(b, m, p.mine), r, p.theirs)
    ensures v == eval(b, m, p.mine) ||
      exists r :: IsLegal(o, o.apply(b, m, p.mine), r, p.theirs) &&
        v == eval(o.apply(b, m, p.mine), r, p.theirs)
  {
    var after := o.apply(b, m, p.mine);
    PossibleMovesExact(o, after, p.theirs);
    ReplyMin(eval, p, after, PossibleMoves(o, after, p.theirs), eval(b, m, p.mine))
  }

  /** The scores of a move list, position by position. */
  function Scores(ms: seq<Move>, f: Move -> int): (vs: seq<int>)
    ensures |vs| == |ms|
  {
    seq(|ms|, i requires 0 <= i < |ms| => f(ms[i]))
  }

  /** `k` is the first position holding the maximum of `vs`. */
  predicate IsFirstMax(vs: seq<int>, k: int) {
    && 0 <= k < |vs|
    && (forall j :: 0 <= j < |vs| ==> vs[j] <= vs[k])
    && (forall j :: 0 <= j < k ==> vs[j] < vs[k])
  }

  /** The selection loop from position `i` on, with `best` the running pick:
      the pick moves only on a strictly greater value. */
  function ArgMaxFrom(vs: seq<int>, i: int, best: int): (k: int)
    requires 0 <= best < |vs| && best <= i <= |vs|
    requires forall j :: 0 <= j < i ==> vs[j] <= vs[best]
    requires forall j :: 0 <= j < best ==> vs[j] < vs[best]
    ensures IsFirstMax(vs, k)
    decreases |vs| - i
  {
    if i == |vs| then best
    else ArgMaxFrom(vs, i + 1, if vs[i] > vs[best] then i else best)
  }

  function FirstMaxIndex(vs: seq<int>): (k: int)
    requires |vs| > 0
    ensures IsFirstMax(vs, k)
  {
    ArgMaxFrom(vs, 0, 0)
  }

  /** At most one position is the first maximum. */
  lemma FirstMaxUnique(vs: seq<int>, a: int, b: int)
    requires IsFirstMax(vs, a) && IsFirstMax(vs, b)
    ensures a == b
  {
    assert vs[a] <= vs[b] && vs[b] <= vs[a];
  }

  /** In a scan-ordered list, a member comes before or after position `k`
      exactly as it does in the scan order. */
  lemma ScanIndex(ms: seq<Move>, k: int, m: Move) returns (j: int)
    requires ScanOrdered(ms) && 0 <= k < |ms| && m in ms
    ensures 0 <= j < |ms| && ms[j] == m
    ensures Before(m, ms[k]) ==> j < k
    ensures Before(ms[k], m) ==> k < j
  {
    j :| 0 <= j < |ms| && ms[j] == m;
    BeforeTotal(m, ms[k]);
    if j < k {
      assert Before(ms[j], ms[k]);
    } else if k < j {
      assert Before(ms[k], ms[j]);
    }
  }

  /** The first maximum of a scan-ordered list's scores is a move no member
      outscores, and every member earlier in the scan scores strictly less. */
  lemma FirstMaxInScan(ms: seq<Move>, f: Move -> int, k: int)
    requires ScanOrdered(ms) && IsFirstMax(Scores(ms, f), k)
    ensures forall m :: m in ms ==> f(m) <= f(ms[k])
    ensures forall m :: m in ms && Before(m, ms[k]) ==> f(m) < f(ms[k])
  {
    var vs := Scores(ms, f);
    forall m | m in ms
      ensures f(m) <= f(ms[k])
      ensures Before(m, ms[k]) ==> f(m) < f(ms[k])
    {
      var j := ScanIndex(ms, k, m);
      assert vs[j] == f(m) && vs[k] == f(ms[k]);
    }
  }

  /** Two-ply minimax with evaluator `e`: a pass exactly when the engine has
      no legal move; otherwise a legal move of the greatest value, and the
      first such in row-major order. */
  function MiniMax<B>(o: Oracle<B>, eval: (B, Move, Side) -> int, p: Perspective, b: B): (r: Option<Move>)
    ensures r.None? <==> forall m :: !IsLegal(o, b, m, p.mine)
    ensures r.Some? ==> IsLegal(o, b, r.value, p.mine)
    ensures r.Some? ==> forall m :: IsLegal(o, b, m, p.mine) ==>
      CandidateValue(o, eval, p, b, m) <= CandidateValue(o, eval, p, b, r.value)
    ensures r.Some? ==> forall m :: IsLegal(o, b, m, p.mine) && Before(m, r.value) ==>
      CandidateValue(o, eval, p, b, m) < CandidateValue(o, eval, p, b, r.value)
  {
    var ms := PossibleMoves(o, b, p.mine);
    PossibleMovesExact(o, b, p.mine);
    if |ms| == 0 then None
    else
      var f := m => CandidateValue(o, eval, p, b, m);
      var k := FirstMaxIndex(Scores(ms, f));
      FirstMaxInScan(ms, f, k);
      assert ms[0] in ms;
      Some(ms[k])
  }

  /** The pick is determined by the values: a legal move of the greatest
      value that no earlier legal move ties is the one the search returns. */
  lemma MiniMaxUnique<B>(o: Oracle<B>, eval: (B, Move, Side) -> int, p: Perspective, b: B, m: Move)
    requires IsLegal(o, b, m, p.mine)
    requires forall n :: IsLegal(o, b, n, p.mine) ==> CandidateValue(o, eval, p, b, n) <= CandidateValue(o, eval, p, b, m)
    requires forall n :: IsLegal(o, b, n, p.mine) && Before(n, m) ==>
      CandidateValue(o, eval, p, b, n) < CandidateValue(o, eval, p, b, m)
    ensures MiniMax(o, eval, p, b) == Some(m)
  {
    var r := MiniMax(o, eval, p, b);
    BeforeTotal(m, r.value);
  }

  /** The original's loops: score every candidate, lower each to its
      opponent's worst reply, then keep the first strictly greatest. */
  method MiniMaxSearch<B>(o: Oracle<B>, eval: (B, Move, Side) -> int, p: Perspective, b: B) returns (r: Option<Move>)
    ensures r == MiniMax(o, eval, p, b)
  {
    var ply1 := PossibleMovesScan(o, b, p.mine);
    if |ply1| == 0 {
      return None;
    }
    var values := ImmediateValues(o, eval, p, b, ply1);
    for i := 0 to |ply1|
      invariant |values| == |ply1|
      invariant forall k :: 0 <= k < i ==> values[k] == CandidateValue(o, eval, p, b, ply1[k])
      invariant forall k :: i <= k < |ply1| ==> values[k] == eval(b, ply1[k], p.mine)
    {
      var v := LowerToReplies(o, eval, p, b, ply1[i], values[i]);
      values := values[i := v];
    }
    var highest := SelectHighest(values);
    assert values == Scores(ply1, m => CandidateValue(o, eval, p, b, m));
    r := Some(ply1[highest]);
  }

  /** The first loop: each candidate's immediate score. */
  method ImmediateValues<B>(o: Oracle<B>, eval: (B, Move, Side) -> int, p: Perspective, b: B, ply1: seq<Move>)
    returns (values: seq<int>)
    ensures |values| == |ply1|
    ensures forall k :: 0 <= k < |ply1| ==> values[k] == eval(b, ply1[k], p.mine)
  {
    values := [];
    for i := 0 to |ply1|
      invariant |values| == i
      invariant forall k :: 0 <= k < i ==> values[k] == eval(b, ply1[k], p.mine)
    {
      values := values + [eval(b, ply1[i], p.mine)];
    }
  }

  /** The reply loop for one candidate `m`: starting from its immediate
      score, lower the value to each opponent reply's score that is smaller. */
  method LowerToReplies<B>(o: Oracle<B>, eval: (B, Move, Side) -> int, p: Perspective, b: B, m: Move, start: int)
    returns (value: int)
    requires start == eval(b, m, p.mine)
    ensures value == CandidateValue(o, eval, p, b, m)
  {
    var after := o.apply(b, m, p.mine);
    var ply2 := PossibleMovesScan(o, after, p.theirs);
    value := start;
    for j := 0 to |ply2|
      invariant ReplyMin(eval, p, after, ply2[j..], value) == CandidateValue(o, eval, p, b, m)
    {
      var s := eval(after, ply2[j], p.theirs);
      assert ply2[j..][1..] == ply2[j + 1..];
      if s < value {
        value := s;
      }
    }
  }

  /** The selection loop: start at 0 and move only to a strictly greater value. */
  method SelectHighest(values: seq<int>) returns (highest: int)
    requires |values| > 0
    ensures highest == FirstMaxIndex(values)
  {
    highest := 0;
    for i := 0 to |values|
      invariant 0 <= highest < |values| && highest <= i
      invariant forall k :: 0 <= k < i ==> values[k] <= values[highest]
      invariant forall k :: 0 <= k < highest ==> values[k] < values[highest]
    {
      if values[i] > values[highest] {
        highest := i;
      }
    }
    FirstMaxUnique(values, highest, FirstMaxIndex(values));
  }

  /** The single-ply loop from position `i` on, with `best` the running
      pick: it moves to any candidate scoring above the FIRST candidate. */
  function LastAboveFirst(scores: seq<int>, i: int, best: int): (k: int)
    requires 0 <= best < |scores| && 0 <= i <= |scores|
    requires best == 0 || (best < i && scores[best] > scores[0])
    requires forall j :: best < j < i ==> scores[j] <= scores[0]
    ensures 0 <= k < |scores|
    ensures k == 0 || scores[k] > scores[0]
    ensures forall j :: k < j < |scores| ==> scores[j] <= scores[0]
    decreases |scores| - i
  {
    if i == |scores| then best
    else LastAboveFirst(scores, i + 1, if scores[i] > scores[0] then i else best)
  }

  /** The single-ply pick as written: a pass exactly when there is no legal
      move; otherwise the LAST legal move whose score under `eval` beats
      that of the first legal move, or the first legal move if none does.
      The original's single-ply pick runs with the positional evaluator. */
  function SingleHeuristic<B>(o: Oracle<B>, eval: (B, Move, Side) -> int, p: Perspective, b: B): (r: Option<Move>)
    ensures r.None? <==> forall m :: !IsLegal(o, b, m, p.mine)
    ensures r.Some? ==> IsLegal(o, b, r.value, p.mine)
    ensures r.Some? ==>
      var ms := PossibleMoves(o, b, p.mine);
      && |ms| > 0
      && (r.value == ms[0] || eval(b, r.value, p.mine) > eval(b, ms[0], p.mine))
      && forall m :: IsLegal(o, b, m, p.mine) && Before(r.value, m) ==>
           eval(b, m, p.mine) <= eval(b, ms[0], p.mine)
  {
    var ms := PossibleMoves(o, b, p.mine);
    PossibleMovesExact(o, b, p.mine);
    if |ms| == 0 then None
    else
      var f := m => eval(b, m, p.mine);
      var k := LastAboveFirst(Scores(ms, f), 0, 0);
      LaterThanPick(ms, f, k);
      assert ms[0] in ms;
      Some(ms[k])
  }

  /** The single-ply pick with the original's loop: every candidate, the
      first included, is compared with the first candidate's score. */
  method SingleHeuristicScan<B>(o: Oracle<B>, eval: (B, Move, Side) -> int, p: Perspective, b: B) returns (r: Option<Move>)
    ensures r == SingleHeuristic(o, eval, p, b)
  {
    var moves := PossibleMovesScan(o, b, p.mine);
    if |moves| == 0 {
      return None;
    }
    ghost var vs := Scores(moves, m => eval(b, m, p.mine));
    var best := 0;
    for i := 0 to |moves|
      invariant 0 <= best < |moves|
      invariant best == 0 || (best < i && vs[best] > vs[0])
      invariant forall j :: best < j < i ==> vs[j] <= vs[0]
      invariant LastAboveFirst(vs, i, best) == LastAboveFirst(vs, 0, 0)
    {
      if eval(b, moves[i], p.mine) > eval(b, moves[0], p.mine) {
        best := i;
      }
    }
    r := Some(moves[best]);
  }

  lemma LaterThanPick(ms: seq<Move>, f: Move -> int, k: int)
    requires ScanOrdered(ms) && 0 <= k < |ms|
    requires forall j :: k < j < |ms| ==> Scores(ms, f)[j] <= Scores(ms, f)[0]
    ensures forall m :: m in ms && Before(ms[k], m) ==> f(m) <= f(ms[0])
  {
    var vs := Scores(ms, f);
    forall m | m in ms && Before(ms[k], m)
      ensures f(m) <= f(ms[0])
    {
      var j := ScanIndex(ms, k, m);
      assert vs[j] == f(m) && vs[0] == f(ms[0]);
    }
  }

  /** The single-ply pick as evidently intended: a pass exactly when there
      is no legal move; otherwise the legal move of the greatest score under
      `eval`, the first such in row-major order. The original's single-ply
      pick runs with the positional evaluator. */
  function BestImmediate<B>(o: Oracle<B>, eval: (B, Move, Side) -> int, p: Perspective, b: B): (r: Option<Move>)
    ensures r.None? <==> forall m :: !IsLegal(o, b, m, p.mine)
    ensures r.Some? ==> IsLegal(o, b, r.value, p.mine)
    ensures r.Some? ==> forall m :: IsLegal(o, b, m, p.mine) ==>
      eval(b, m, p.mine) <= eval(b, r.value, p.mine)
    ensures r.Some? ==> forall m :: IsLegal(o, b, m, p.mine) && Before(m, r.value) ==>
      eval(b, m, p.mine) < eval(b, r.value, p.mine)
  {
    var ms := PossibleMoves(o, b, p.mine);
    PossibleMovesExact(o, b, p.mine);
    if |ms| == 0 then None
    else
      var f := m => eval(b, m, p.mine);
      var k := FirstMaxIndex(Scores(ms, f));
      FirstMaxInScan(ms, f, k);
      assert ms[0] in ms;
      Some(ms[k])
  }

  /** Candidates scoring 0, 5 and 3 in scan order: the single-ply loop as
      written picks the third (score 3), the best is the second (score 5). */
  lemma SingleHeuristicMissesBest()
    ensures LastAboveFirst([0, 5, 3], 0, 0) == 2
    ensures FirstMaxIndex([0, 5, 3]) == 1
  {
  }
}
