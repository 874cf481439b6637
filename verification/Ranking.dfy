/** The TOPSIS stages as the loops that compute them, the bubble sort that ranks the nodes, and
    what the ranking guarantees. */
module Ranking {
  import opened Sums
  import opened Topsis

  // ---------------------------------------------------------------- the criteria

  datatype Criteria = Criteria(
    node: string,
    powerCycle: int,
    energyProfile: real,
    preferredNodeAffinity: int,
    preferredInterPodAffinity: int,
    preferredInterPodAntiAffinity: int,
    numberOfRunningPods: int,
    topologySpreadScore: int)

  datatype CriteriaScaleUp = CriteriaScaleUp(node: string, powerCycle: int, energyProfile: real)

  datatype Weights = Weights(
    powerCycle: real,
    energyProfile: real,
    preferredNodeAffinity: real,
    preferredInterPodAffinity: real,
    preferredInterPodAntiAffinity: real,
    numberOfRunningPods: real,
    topologySpread: real)

  datatype WeightsScaleUp = WeightsScaleUp(powerCycle: real, energyProfile: real)

  datatype RankedNode = RankedNode(closeness: real, node: string)

  function EvaluationRow(c: Criteria): (row: seq<real>)
    ensures |row| == 7
  {
    [c.powerCycle as real, c.energyProfile, c.preferredNodeAffinity as real, c.preferredInterPodAffinity as real,
     c.preferredInterPodAntiAffinity as real, c.numberOfRunningPods as real, c.topologySpreadScore as real]
  }

  function WeightRow(w: Weights): (row: seq<real>)
    ensures |row| == 7
  {
    [w.powerCycle, w.energyProfile, w.preferredNodeAffinity, w.preferredInterPodAffinity,
     w.preferredInterPodAntiAffinity, w.numberOfRunningPods, w.topologySpread]
  }

  /** Switching off the node that draws the most power is the gain; every other criterion is a cost. */
  const BENEFIT_SCALE_DOWN := [false, true, false, false, false, false, false]

  /** Switching on a node that draws much power is a cost too. */
  const BENEFIT_SCALE_UP := [false, false]

  function EvaluationMatrix(cs: seq<Criteria>): (m: Matrix)
    ensures |m| == |cs| && Rectangular(m, 7)
  {
    seq(|cs|, i requires 0 <= i < |cs| => EvaluationRow(cs[i]))
  }

  function EvaluationMatrixScaleUp(cs: seq<CriteriaScaleUp>): (m: Matrix)
    ensures |m| == |cs| && Rectangular(m, 2)
  {
    seq(|cs|, i requires 0 <= i < |cs| => [cs[i].powerCycle as real, cs[i].energyProfile])
  }

  // ---------------------------------------------------------------- the stages as loops

  method NormalizeMatrix(matrix: Matrix, width: nat, root: real -> real) returns (normalized: Matrix)
    requires Rectangular(matrix, width)
    ensures normalized == Normalized(matrix, width, root)
  {
    var denominators: seq<real> := [];
    for key := 0 to width
      invariant |denominators| == key
      invariant forall k :: 0 <= k < key ==> denominators[k] == root(SumSquares(matrix, k, |matrix|))
    {
      var sumSquares := 0.0;
      for i := 0 to |matrix|
        invariant sumSquares == SumSquares(matrix, key, i)
      {
        sumSquares := sumSquares + Square(matrix[i][key]);
      }
      denominators := denominators + [root(sumSquares)];
    }
    normalized := [];
    for i := 0 to |matrix|
      invariant |normalized| == i
      invariant forall r :: 0 <= r < i ==> normalized[r] == Normalized(matrix, width, root)[r]
    {
      var row: seq<real> := [];
      for key := 0 to width
        invariant row == Normalized(matrix, width, root)[i][..key]
      {
        row := row + [NormalizedEntry(matrix[i][key], denominators[key])];
      }
      assert row == Normalized(matrix, width, root)[i];
      normalized := normalized + [row];
    }
  }

  method WeightMatrix(matrix: Matrix, weights: seq<real>) returns (weighted: Matrix)
    requires Rectangular(matrix, |weights|)
    ensures weighted == Weighted(matrix, weights)
  {
    weighted := [];
    for i := 0 to |matrix|
      invariant |weighted| == i
      invariant forall r :: 0 <= r < i ==> weighted[r] == Weighted(matrix, weights)[r]
    {
      var row: seq<real> := [];
      for key := 0 to |weights|
        invariant row == Weighted(matrix, weights)[i][..key]
      {
        row := row + [WeightedEntry(matrix[i][key], weights[key])];
      }
      assert row == Weighted(matrix, weights)[i];
      weighted := weighted + [row];
    }
  }

  method CalculateIdealSolutions(matrix: Matrix, benefit: seq<bool>)
    returns (ideal: seq<real>, negativeIdeal: seq<real>)
    requires matrix != [] && Rectangular(matrix, |benefit|)
    ensures ideal == Extremes(matrix, benefit, true)
    ensures negativeIdeal == Extremes(matrix, benefit, false)
  {
    ideal, negativeIdeal := [], [];
    for key := 0 to |benefit|
      invariant ideal == Extremes(matrix, benefit, true)[..key]
      invariant negativeIdeal == Extremes(matrix, benefit, false)[..key]
    {
      var highest, lowest := matrix[0][key], matrix[0][key];
      for i := 1 to |matrix|
        invariant highest == ColumnMax(matrix, key, i) && lowest == ColumnMin(matrix, key, i)
      {
        if matrix[i][key] > highest { highest := matrix[i][key]; }
        if matrix[i][key] < lowest { lowest := matrix[i][key]; }
      }
      if benefit[key] {
        ideal, negativeIdeal := ideal + [highest], negativeIdeal + [lowest];
      } else {
        ideal, negativeIdeal := ideal + [lowest], negativeIdeal + [highest];
      }
    }
  }

  method CalculateSeparation(matrix: Matrix, p: seq<real>, root: real -> real) returns (separation: seq<real>)
    requires Rectangular(matrix, |p|)
    ensures |separation| == |matrix|
    ensures forall i :: 0 <= i < |matrix| ==> separation[i] == Separation(matrix[i], p, root)
  {
    separation := [];
    for i := 0 to |matrix|
      invariant |separation| == i
      invariant forall r :: 0 <= r < i ==> separation[r] == Separation(matrix[r], p, root)
    {
      var sum := 0.0;
      for key := 0 to |p|
        invariant sum == SquaredDistance(matrix[i], p, key)
      {
        sum := sum + Square(matrix[i][key] - p[key]);
      }
      separation := separation + [Round3(root(sum))];
    }
  }

  /** Stages 2 to 6: the relative closeness of every alternative. */
  method CalculateCloseness(matrix: Matrix, weights: seq<real>, benefit: seq<bool>, root: real -> real)
    returns (closeness: seq<real>)
    requires matrix != [] && |weights| == |benefit| && Rectangular(matrix, |weights|)
    ensures |closeness| == |matrix|
    ensures forall i :: 0 <= i < |matrix| ==> closeness[i] == Closeness(matrix, weights, benefit, root, i)
  {
    hide Normalized, Weighted, Separation, Extremes, RelativeCloseness;
    var normalized := NormalizeMatrix(matrix, |weights|, root);
    var weighted := WeightMatrix(normalized, weights);
    var ideal, negativeIdeal := CalculateIdealSolutions(weighted, benefit);
    var fromIdeal := CalculateSeparation(weighted, ideal, root);
    var fromNegative := CalculateSeparation(weighted, negativeIdeal, root);
    closeness := [];
    for i := 0 to |matrix|
      invariant |closeness| == i
      invariant forall r :: 0 <= r < i ==> closeness[r] == Closeness(matrix, weights, benefit, root, r)
    {
      closeness := closeness + [RelativeCloseness(fromIdeal[i], fromNegative[i])];
    }
  }

  // ---------------------------------------------------------------- the ranking

  ghost predicate Descending(s: seq<RankedNode>) {
    forall i, j :: 0 <= i < j < |s| ==> s[i].closeness >= s[j].closeness
  }

  /** The entries of one closeness, in order. */
  function WithCloseness(s: seq<RankedNode>, c: real): seq<RankedNode> {
    if s == [] then []
    else ClassOf(s[0], c) + WithCloseness(s[1..], c)
  }

  /** Best first; entries of equal closeness keep their order, none is lost or repeated. */
  ghost predicate IsStableRanking(r: seq<RankedNode>, s: seq<RankedNode>) {
    Descending(r) && SameClasses(r, s)
  }

  ghost predicate SameClasses(r: seq<RankedNode>, s: seq<RankedNode>) {
    forall c: real :: WithCloseness(r, c) == WithCloseness(s, c)
  }

  function ClassOf(x: RankedNode, c: real): seq<RankedNode> {
    if x.closeness == c then [x] else []
  }

  lemma ConcatAssociative(x: seq<RankedNode>, y: seq<RankedNode>, z: seq<RankedNode>)
    ensures (x + y) + z == x + (y + z)
  {
  }

  lemma {:induction false} WithClosenessConcat(a: seq<RankedNode>, b: seq<RankedNode>, c: real)
    ensures WithCloseness(a + b, c) == WithCloseness(a, c) + WithCloseness(b, c)
  {
    if a == [] {
      assert a + b == b;
    } else {
      var x, rest := a[0], a[1..];
      WithClosenessConcat(rest, b, c);
      assert a == [x] + rest;
      ConcatAssociative([x], rest, b);
      WithClosenessCons(x, rest + b, c);
      WithClosenessCons(x, rest, c);
      hide WithCloseness, ClassOf;
      ConcatAssociative(ClassOf(x, c), WithCloseness(rest, c), WithCloseness(b, c));
    }
  }

  lemma WithClosenessCons(x: RankedNode, s: seq<RankedNode>, c: real)
    ensures WithCloseness([x] + s, c) == ClassOf(x, c) + WithCloseness(s, c)
  {
    assert ([x] + s)[1..] == s;
  }

  function Swapped(s: seq<RankedNode>, j: nat): seq<RankedNode>
    requires j + 1 < |s|
  {
    s[j := s[j + 1]][j + 1 := s[j]]
  }

  lemma SwapKeepsClass(s: seq<RankedNode>, j: nat, c: real)
    requires j + 1 < |s| && s[j].closeness != s[j + 1].closeness
    ensures WithCloseness(Swapped(s, j), c) == WithCloseness(s, c)
  {
    var x, y, rest := s[j], s[j + 1], s[j + 2..];
    assert s == s[..j] + ([x, y] + rest);
    assert Swapped(s, j) == s[..j] + ([y, x] + rest);
    assert [x, y][1..] == [y] && [y, x][1..] == [x];
    assert WithCloseness([x, y], c) == WithCloseness([y, x], c);
    WithClosenessConcat([x, y], rest, c);
    WithClosenessConcat([y, x], rest, c);
    hide WithCloseness;
    WithClosenessConcat(s[..j], [x, y] + rest, c);
    WithClosenessConcat(s[..j], [y, x] + rest, c);
  }

  /** Swapping two neighbours of different closeness changes no class of equals. */
  lemma SwapKeepsClasses(s: seq<RankedNode>, j: nat, original: seq<RankedNode>)
    requires j + 1 < |s| && s[j].closeness != s[j + 1].closeness && SameClasses(s, original)
    ensures SameClasses(Swapped(s, j), original)
  {
    forall c: real ensures WithCloseness(Swapped(s, j), c) == WithCloseness(original, c) {
      SwapKeepsClass(s, j, c);
    }
  }

  lemma SameClassesReflexive(s: seq<RankedNode>)
    ensures SameClasses(s, s)
  {
  }

  /** The last entries, from position k on, are in their final place. */
  ghost predicate SettledFrom(s: seq<RankedNode>, k: int) {
    forall p, q :: 0 <= p < q < |s| && q >= k ==> s[p].closeness >= s[q].closeness
  }

  /** Bubble sort on a copy, largest closeness first. */
  method SortNodesByCloseness(rankedNodes: seq<RankedNode>) returns (sorted: seq<RankedNode>)
    ensures IsStableRanking(sorted, rankedNodes)
  {
    hide SameClasses;
    var n := |rankedNodes|;
    var a := new RankedNode[n](i requires 0 <= i < n => rankedNodes[i]);
    assert a[..] == rankedNodes;
    SameClassesReflexive(rankedNodes);
    var i := 0;
    while i < n - 1
      invariant 0 <= i && SameClasses(a[..], rankedNodes) && SettledFrom(a[..], n - i)
      invariant n > 0 ==> i < n
    {
      for j := 0 to n - i - 1
        invariant SameClasses(a[..], rankedNodes) && SettledFrom(a[..], n - i)
        invariant forall p :: 0 <= p < j ==> a[p].closeness >= a[j].closeness
      {
        if a[j].closeness < a[j + 1].closeness {
          ghost var before := a[..];
          a[j], a[j + 1] := a[j + 1], a[j];
          assert a[..] == Swapped(before, j);
          SwapKeepsClasses(before, j, rankedNodes);
        }
      }
      i := i + 1;
    }
    sorted := a[..];
  }

  /** The first index whose closeness no earlier one reaches and no later one exceeds. */
  ghost predicate IsFirstBest(s: seq<RankedNode>, b: nat) {
    && b < |s|
    && (forall i :: 0 <= i < b ==> s[i].closeness < s[b].closeness)
    && forall i :: b <= i < |s| ==> s[i].closeness <= s[b].closeness
  }

  lemma {:induction false} ClassHead(s: seq<RankedNode>, b: nat)
    requires b < |s| && forall i :: 0 <= i < b ==> s[i].closeness != s[b].closeness
    ensures WithCloseness(s, s[b].closeness) != [] && WithCloseness(s, s[b].closeness)[0] == s[b]
  {
    if b > 0 {
      assert s[1..][b - 1] == s[b];
      assert forall i :: 0 <= i < b - 1 ==> s[1..][i] == s[i + 1];
      ClassHead(s[1..], b - 1);
    }
  }

  lemma {:induction false} ClassEmpty(s: seq<RankedNode>, c: real)
    requires forall i :: 0 <= i < |s| ==> s[i].closeness != c
    ensures WithCloseness(s, c) == []
  {
    if s != [] {
      assert forall i :: 0 <= i < |s| - 1 ==> s[1..][i] == s[i + 1];
      ClassEmpty(s[1..], c);
    }
  }

  /** The ranking is headed by the first best alternative. */
  lemma {:induction false} HeadIsFirstBest(r: seq<RankedNode>, s: seq<RankedNode>, b: nat)
    requires IsStableRanking(r, s) && IsFirstBest(s, b)
    ensures r != [] && r[0] == s[b]
  {
    ClassHead(s, b);
    var c := s[b].closeness;
    assert WithCloseness(r, c) == WithCloseness(s, c);
    if r != [] && r[0].closeness > c {
      ClassHead(r, 0);
      assert WithCloseness(s, r[0].closeness) == WithCloseness(r, r[0].closeness);
      ClassEmpty(s, r[0].closeness);
    }
    if r != [] && r[0].closeness < c { ClassEmpty(r, c); }
    if r != [] { ClassHead(r, 0); }
  }

  lemma {:induction false} FirstBestExists(s: seq<RankedNode>) returns (b: nat)
    requires s != []
    ensures IsFirstBest(s, b)
  {
    b := 0;
    for i := 1 to |s|
      invariant b < i
      invariant forall k :: 0 <= k < b ==> s[k].closeness < s[b].closeness
      invariant forall k :: b <= k < i ==> s[k].closeness <= s[b].closeness
    {
      if s[i].closeness > s[b].closeness { b := i; }
    }
  }

  lemma {:induction false} CountInClass(s: seq<RankedNode>, x: RankedNode)
    ensures multiset(s)[x] == multiset(WithCloseness(s, x.closeness))[x]
  {
    if s != [] {
      CountInClass(s[1..], x);
      assert s == [s[0]] + s[1..];
      WithClosenessCons(s[0], s[1..], x.closeness);
      hide WithCloseness;
      CountOfSum(s[0], s[1..], WithCloseness(s[1..], x.closeness), x);
    }
  }

  lemma CountOfSum(y: RankedNode, rest: seq<RankedNode>, others: seq<RankedNode>, x: RankedNode)
    requires multiset(rest)[x] == multiset(others)[x]
    ensures multiset([y] + rest)[x] == multiset(ClassOf(y, x.closeness) + others)[x]
  {
  }

  /** A ranking is a permutation of the alternatives. */
  lemma {:induction false} RankingIsPermutation(r: seq<RankedNode>, s: seq<RankedNode>)
    requires IsStableRanking(r, s)
    ensures multiset(r) == multiset(s)
  {
    forall x: RankedNode ensures multiset(r)[x] == multiset(s)[x] {
      CountInClass(r, x);
      CountInClass(s, x);
      assert WithCloseness(r, x.closeness) == WithCloseness(s, x.closeness);
    }
  }

  lemma FirstCloseness(r: seq<RankedNode>, t: seq<RankedNode>)
    requires r != [] && Descending(t) && SameClasses(r, t)
    ensures t != [] && t[0].closeness >= r[0].closeness
  {
    var c := r[0].closeness;
    ClassHead(r, 0);
    assert WithCloseness(r, c) == WithCloseness(t, c);
    if forall i :: 0 <= i < |t| ==> t[i].closeness != c { ClassEmpty(t, c); }
  }

  lemma ClassTail(s: seq<RankedNode>, c: real)
    requires s != []
    ensures s[0].closeness == c ==> WithCloseness(s, c) != []
    ensures WithCloseness(s[1..], c) == if s[0].closeness == c then WithCloseness(s, c)[1..] else WithCloseness(s, c)
  {
  }

  lemma ClassesAgree(r: seq<RankedNode>, t: seq<RankedNode>, c: real)
    requires SameClasses(r, t)
    ensures WithCloseness(r, c) == WithCloseness(t, c)
  {
  }

  /** Two rankings with the same classes have the same head. */
  lemma SameHeads(r: seq<RankedNode>, t: seq<RankedNode>)
    requires Descending(r) && Descending(t) && SameClasses(r, t) && r != []
    ensures t != [] && r[0] == t[0]
  {
    FirstCloseness(r, t);
    FirstCloseness(t, r);
    ClassHead(r, 0);
    ClassHead(t, 0);
    ClassesAgree(r, t, r[0].closeness);
    hide SameClasses, WithCloseness, Descending;
  }

  /** And their tails have the same classes again. */
  lemma SameTails(r: seq<RankedNode>, t: seq<RankedNode>)
    requires r != [] && t != [] && r[0] == t[0] && SameClasses(r, t)
    ensures SameClasses(r[1..], t[1..])
  {
    forall c: real ensures WithCloseness(r[1..], c) == WithCloseness(t[1..], c) {
      ClassTail(r, c);
      ClassTail(t, c);
      ClassesAgree(r, t, c);
      hide WithCloseness, SameClasses;
    }
  }

  lemma TailDescends(r: seq<RankedNode>)
    requires Descending(r) && r != []
    ensures Descending(r[1..])
  {
  }

  /** Order and classes determine the ranking: there is only one. */
  lemma {:induction false} RankingIsUnique(r: seq<RankedNode>, t: seq<RankedNode>)
    requires Descending(r) && Descending(t) && SameClasses(r, t)
    ensures r == t
    decreases |r|
  {
    hide Descending, SameClasses;
    if r != [] {
      SameHeads(r, t);
      SameTails(r, t);
      TailDescends(r);
      TailDescends(t);
      RankingIsUnique(r[1..], t[1..]);
      assert r == [r[0]] + r[1..] && t == [t[0]] + t[1..];
    } else if t != [] {
      SymmetricClasses(r, t);
      SameHeads(t, r);
    }
  }

  lemma SymmetricClasses(r: seq<RankedNode>, t: seq<RankedNode>)
    requires SameClasses(r, t)
    ensures SameClasses(t, r)
  {
    hide WithCloseness;
  }

  // ---------------------------------------------------------------- the whole ranking

  /** Every alternative with its closeness. */
  function Scores(m: Matrix, nodes: seq<string>, weights: seq<real>, benefit: seq<bool>,
                  root: real -> real): (s: seq<RankedNode>)
    requires |nodes| == |m| && |weights| == |benefit|
    requires forall r :: 0 <= r < |m| ==> |m[r]| == |weights|
    ensures |s| == |m|
  {
    seq(|m|, i requires 0 <= i < |m| => RankedNode(Closeness(m, weights, benefit, root, i), nodes[i]))
  }

  function Nodes(cs: seq<Criteria>): (nodes: seq<string>)
    ensures |nodes| == |cs|
  {
    seq(|cs|, i requires 0 <= i < |cs| => cs[i].node)
  }

  function NodesScaleUp(cs: seq<CriteriaScaleUp>): (nodes: seq<string>)
    ensures |nodes| == |cs|
  {
    seq(|cs|, i requires 0 <= i < |cs| => cs[i].node)
  }

  function Scored(cs: seq<Criteria>, w: Weights, root: real -> real): (s: seq<RankedNode>)
    ensures |s| == |cs|
  {
    Scores(EvaluationMatrix(cs), Nodes(cs), WeightRow(w), BENEFIT_SCALE_DOWN, root)
  }

  function ScoredScaleUp(cs: seq<CriteriaScaleUp>, w: WeightsScaleUp, root: real -> real): (s: seq<RankedNode>)
    ensures |s| == |cs|
  {
    Scores(EvaluationMatrixScaleUp(cs), NodesScaleUp(cs), [w.powerCycle, w.energyProfile], BENEFIT_SCALE_UP, root)
  }

  /** Stages 2 to 7. */
  method RankAlternatives(matrix: Matrix, nodes: seq<string>, weights: seq<real>, benefit: seq<bool>,
                          root: real -> real)
    returns (ranking: seq<RankedNode>)
    requires |nodes| == |matrix| && |weights| == |benefit| && Rectangular(matrix, |weights|)
    ensures IsStableRanking(ranking, Scores(matrix, nodes, weights, benefit, root))
  {
    hide Closeness, IsStableRanking;
    var rankedNodes: seq<RankedNode> := [];
    if matrix != [] {
      var closeness := CalculateCloseness(matrix, weights, benefit, root);
      for i := 0 to |matrix|
        invariant rankedNodes == Scores(matrix, nodes, weights, benefit, root)[..i]
      {
        rankedNodes := rankedNodes + [RankedNode(closeness[i], nodes[i])];
      }
    }
    assert rankedNodes == Scores(matrix, nodes, weights, benefit, root);
    ranking := SortNodesByCloseness(rankedNodes);
  }

  method ApplyTopsis(cs: seq<Criteria>, w: Weights, root: real -> real) returns (ranking: seq<RankedNode>)
    ensures IsStableRanking(ranking, Scored(cs, w, root))
  {
    hide IsStableRanking, Scores;
    var matrix: Matrix, nodes: seq<string> := [], [];
    for i := 0 to |cs|
      invariant matrix == EvaluationMatrix(cs)[..i] && nodes == Nodes(cs)[..i]
    {
      matrix, nodes := matrix + [EvaluationRow(cs[i])], nodes + [cs[i].node];
    }
    assert matrix == EvaluationMatrix(cs) && nodes == Nodes(cs);
    ranking := RankAlternatives(matrix, nodes, WeightRow(w), BENEFIT_SCALE_DOWN, root);
  }

  method ApplyTopsisScaleUp(cs: seq<CriteriaScaleUp>, w: WeightsScaleUp, root: real -> real)
    returns (ranking: seq<RankedNode>)
    ensures IsStableRanking(ranking, ScoredScaleUp(cs, w, root))
  {
    hide IsStableRanking, Scores;
    var matrix: Matrix, nodes: seq<string> := [], [];
    for i := 0 to |cs|
      invariant matrix == EvaluationMatrixScaleUp(cs)[..i] && nodes == NodesScaleUp(cs)[..i]
    {
      matrix, nodes := matrix + [[cs[i].powerCycle as real, cs[i].energyProfile]], nodes + [cs[i].node];
    }
    assert matrix == EvaluationMatrixScaleUp(cs) && nodes == NodesScaleUp(cs);
    ranking := RankAlternatives(matrix, nodes, [w.powerCycle, w.energyProfile], BENEFIT_SCALE_UP, root);
  }

  // ---------------------------------------------------------------- what the ranking guarantees

  /** Candidate a is at least as good a node to switch off as candidate b. */
  ghost predicate AtLeastAsGood(a: Criteria, b: Criteria) {
    && a.powerCycle <= b.powerCycle
    && a.energyProfile >= b.energyProfile
    && a.preferredNodeAffinity <= b.preferredNodeAffinity
    && a.preferredInterPodAffinity <= b.preferredInterPodAffinity
    && a.preferredInterPodAntiAffinity <= b.preferredInterPodAntiAffinity
    && a.numberOfRunningPods <= b.numberOfRunningPods
    && a.topologySpreadScore <= b.topologySpreadScore
  }

  ghost predicate NonNegativeWeights(w: Weights) {
    forall k :: 0 <= k < 7 ==> WeightRow(w)[k] >= 0.0
  }

  lemma {:induction false} BetterNodeScoresHigher(cs: seq<Criteria>, w: Weights, root: real -> real, a: nat, b: nat)
    requires IsSquareRoot(root) && NonNegativeWeights(w)
    requires a < |cs| && b < |cs| && AtLeastAsGood(cs[a], cs[b])
    ensures Scored(cs, w, root)[a].closeness >= Scored(cs, w, root)[b].closeness
  {
    hide Closeness;
    assert Dominates(EvaluationRow(cs[a]), EvaluationRow(cs[b]), BENEFIT_SCALE_DOWN);
    DominanceRespected(EvaluationMatrix(cs), WeightRow(w), BENEFIT_SCALE_DOWN, root, a, b);
  }

  /** The node chosen for shutdown is the first best one. No candidate listed before it is at least as good
      in every criterion, and one listed after it that is has the same closeness. */
  lemma {:induction false} ChosenNodeIsUndominated(cs: seq<Criteria>, w: Weights, root: real -> real,
                                                   ranking: seq<RankedNode>)
    returns (chosen: nat)
    requires IsSquareRoot(root) && NonNegativeWeights(w) && cs != []
    requires IsStableRanking(ranking, Scored(cs, w, root))
    ensures chosen < |cs| && ranking != [] && ranking[0] == Scored(cs, w, root)[chosen]
    ensures ranking[0].node == cs[chosen].node
    ensures forall b :: 0 <= b < |cs| && AtLeastAsGood(cs[b], cs[chosen]) ==>
              chosen <= b && Scored(cs, w, root)[b].closeness == Scored(cs, w, root)[chosen].closeness
  {
    chosen := FirstBestExists(Scored(cs, w, root));
    HeadIsFirstBest(ranking, Scored(cs, w, root), chosen);
    forall b | 0 <= b < |cs| && AtLeastAsGood(cs[b], cs[chosen])
      ensures chosen <= b && Scored(cs, w, root)[b].closeness == Scored(cs, w, root)[chosen].closeness
    {
      BetterNodeScoresHigher(cs, w, root, b, chosen);
    }
  }
}
