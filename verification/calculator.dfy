/**
 `calculateOptimalCombinations`: validate the target, reserve the cord,
 enumerate, rank, keep the best three.
 */
module Calculator {
  import opened Catalog
  import opened Combinations
  import opened Search
  import opened Ranking

  datatype Outcome =
    | InvalidLength                        // target <= 0: an error toast, no search
    | CordDoesNotFit                       // the cord alone exceeds the target: no search
    | Calculated(best: seq<Combination>)   // the ranked top combinations

  /** Length left for regular segments once the cord is reserved. */
  function Budget(target: int, includeCord: bool): int
  {
    target - CordUsed(includeCord)
  }

  function Calculate(target: int, includeCord: bool): (o: Outcome)
    ensures o == InvalidLength <==> target <= 0
    ensures o == CordDoesNotFit <==> 0 < target < CordUsed(includeCord)
    ensures o.Calculated? ==> |o.best| <= MaxResults
  {
    if target <= 0 then InvalidLength
    else if Budget(target, includeCord) < 0 then CordDoesNotFit
    else Calculated(Ranked(Enumerate(target, includeCord)))
  }

  /** The cord reservation: one 60 mm cord when asked for, none otherwise;
      only a cord longer than the target stops the search. */
  lemma CordReservation(target: int, includeCord: bool)
    ensures CordQuantity(includeCord) == (if includeCord then 1 else 0)
    ensures CordUsed(includeCord) == (if includeCord then 60 else 0)
    ensures Calculate(target, includeCord) == CordDoesNotFit <==> includeCord && 0 < target < 60
  {
  }

  /**
   Budget invariant and line shape: every returned combination is the one
   some fitting quantity vector denotes, uses no more than the target, keeps
   `remainingLength = target - totalUsedLength`, sums its lines (cord
   included) to `totalUsedLength`, and has positive, catalog-ordered lines
   with the cord line last exactly when the cord was asked for.
   */
  lemma ReturnedCombinationsFit(target: int, includeCord: bool)
    requires Calculate(target, includeCord).Calculated?
    ensures forall c :: c in Calculate(target, includeCord).best ==>
      && Feasible(VectorOf(c.lines), Budget(target, includeCord))
      && c == FromVector(target, includeCord, VectorOf(c.lines))
      && WellShaped(c, includeCord)
      && c.totalUsedLength == SumUsed(c.lines) <= target
      && c.remainingLength == target - c.totalUsedLength >= 0
  {
    var E := Enumerate(target, includeCord);
    var best := Calculate(target, includeCord).best;
    EnumerationSound(target, includeCord);
    forall c | c in best
      ensures Feasible(VectorOf(c.lines), Budget(target, includeCord))
      ensures c == FromVector(target, includeCord, VectorOf(c.lines))
      ensures WellShaped(c, includeCord)
      ensures c.totalUsedLength == SumUsed(c.lines) <= target
      ensures c.remainingLength == target - c.totalUsedLength >= 0
    {
      assert c in multiset(best);
      assert c in E;
      var v := VectorOf(c.lines);
      FromVectorShape(target, includeCord, v);
      DotFromNonNegative(v, 0);
    }
  }

  /**
   Optimality of the top three: the first combination leaves no more over
   than any fitting vector, and every fitting vector's combination is either
   returned or leaves at least as much over as each returned one.
   */
  lemma BestIsOptimal(target: int, includeCord: bool, v: seq<int>)
    requires Calculate(target, includeCord).Calculated?
    requires Feasible(v, Budget(target, includeCord))
    ensures |Calculate(target, includeCord).best| > 0
    ensures Calculate(target, includeCord).best[0].remainingLength <= FromVector(target, includeCord, v).remainingLength
    ensures FromVector(target, includeCord, v) in Calculate(target, includeCord).best
         || forall d :: d in Calculate(target, includeCord).best ==>
              d.remainingLength <= FromVector(target, includeCord, v).remainingLength
  {
    var best := Calculate(target, includeCord).best;
    EnumerationComplete(target, includeCord, v);
    var c := FromVector(target, includeCord, v);
    assert c in Enumerate(target, includeCord);
    assert best[0] in best;
    if c in best {
      var i :| 0 <= i < |best| && best[i] == c;
      assert best[0].remainingLength <= best[i].remainingLength;
    }
  }

  /** When fewer than three combinations come back, they are all there are. */
  lemma FewResultsAreAll(target: int, includeCord: bool, v: seq<int>)
    requires Calculate(target, includeCord).Calculated?
    requires |Calculate(target, includeCord).best| < MaxResults
    requires Feasible(v, Budget(target, includeCord))
    ensures FromVector(target, includeCord, v) in Calculate(target, includeCord).best
  {
    EnumerationComplete(target, includeCord, v);
    var E := Enumerate(target, includeCord);
    var best := Calculate(target, includeCord).best;
    assert best == Sort(E);
    assert FromVector(target, includeCord, v) in multiset(E);
  }

  /**
   Ties keep enumeration order: among returned combinations that leave the
   same length over, the earlier one has the lexicographically smaller
   quantity vector (largest type outermost, quantities ascending from 0); and
   a combination cut off by the truncation to three comes, in that order,
   after every returned combination it ties with.
   */
  lemma TiesInEnumerationOrder(target: int, includeCord: bool)
    requires Calculate(target, includeCord).Calculated?
    ensures var best := Calculate(target, includeCord).best;
      forall i, j :: 0 <= i < j < |best| && best[i].remainingLength == best[j].remainingLength ==>
        LexLess(VectorOf(best[i].lines), VectorOf(best[j].lines))
    ensures var best := Calculate(target, includeCord).best;
      forall c, d ::
        (c in Enumerate(target, includeCord) && c !in best && d in best && d.remainingLength == c.remainingLength)
        ==> LexLess(VectorOf(d.lines), VectorOf(c.lines))
  {
    var E := Enumerate(target, includeCord);
    var R := (a: Combination, b: Combination) => LexLess(VectorOf(a.lines), VectorOf(b.lines));
    EnumerationOrdered(target, includeCord);
    assert TiesOrdered(E, R);
    RankedKeepsTies(E, R);
    var best := Calculate(target, includeCord).best;
    assert best == Ranked(E);
    forall i, j | 0 <= i < j < |best| && best[i].remainingLength == best[j].remainingLength
      ensures LexLess(VectorOf(best[i].lines), VectorOf(best[j].lines))
    {
      assert R(best[i], best[j]);
    }
    forall c, d | c in E && c !in best && d in best && d.remainingLength == c.remainingLength
      ensures LexLess(VectorOf(d.lines), VectorOf(c.lines))
    {
      assert R(d, c);
    }
  }

  /** A fitting vector that fills the target exactly, and is the only
      vector using that length, gives the first returned combination. */
  lemma UniqueExactFitRanksFirst(target: int, includeCord: bool, v: seq<int>)
    requires Calculate(target, includeCord).Calculated?
    requires Feasible(v, Budget(target, includeCord)) && DotFrom(v, 0) == Budget(target, includeCord)
    requires forall w :: Feasible(w, Budget(target, includeCord)) && DotFrom(w, 0) == DotFrom(v, 0) ==> w == v
    ensures |Calculate(target, includeCord).best| > 0
    ensures Calculate(target, includeCord).best[0] == FromVector(target, includeCord, v)
  {
    var best := Calculate(target, includeCord).best;
    BestIsOptimal(target, includeCord, v);
    ReturnedCombinationsFit(target, includeCord);
    assert best[0] in best;
    var w := VectorOf(best[0].lines);
    assert best[0] == FromVector(target, includeCord, w);
  }

  /** A 620 mm target with the cord is filled exactly by one 600 segment
      (560 mm actual) and the cord, and that combination ranks first. */
  lemma ExactFitRanksFirst(target: int)
    requires target == 620
    ensures Calculate(target, true).Calculated? && |Calculate(target, true).best| > 0
    ensures Calculate(target, true).best[0]
         == Combination([Line("600", 1, 560), Line(CordName, 1, 60)], 620, 0)
  {
    var v := [0, 0, 1, 0, 0];
    DotFromExpanded(v);
    forall w | Feasible(w, Budget(target, true)) && DotFrom(w, 0) == DotFrom(v, 0)
      ensures w == v
    {
      ExactSplitOf560(w);
    }
    UniqueExactFitRanksFirst(target, true, v);
    OneSixHundredCombination(target);
  }

  lemma OneSixHundredCombination(target: int)
    requires target == 620
    ensures FromVector(target, true, [0, 0, 1, 0, 0])
         == Combination([Line("600", 1, 560), Line(CordName, 1, 60)], 620, 0)
  {
    DotFromExpanded([0, 0, 1, 0, 0]);
    OneSixHundredLines();
    assert CordLines(true) == [Line(CordName, 1, 60)];
  }

  lemma OneSixHundredLines()
    ensures LinesFrom([0, 0, 1, 0, 0], 0) == [Line("600", 1, 560)]
  {
    RegularShape(2);
    var tail: seq<int> := [0, 0];
    assert tail[1..] == [0] && [0][1..] == [];
    assert LinesFrom(tail, 3) == [];
    var mid: seq<int> := [1, 0, 0];
    assert mid[1..] == tail;
    assert LineFor(2, 1) == [Line("600", 1, 560)];
    assert LinesFrom(mid, 2) == [Line("600", 1, 560)];
    var v: seq<int> := [0, 0, 1, 0, 0];
    assert v[1..] == [0, 1, 0, 0] && v[1..][1..] == mid;
  }

  /** 560 mm is made of regular actual lengths in exactly one way. */
  lemma ExactSplitOf560(w: seq<int>)
    requires |w| == RegularCount && NonNegative(w) && DotFrom(w, 0) == 560
    ensures w == [0, 0, 1, 0, 0]
  {
    DotFromExpanded(w);
  }

  /** A 30 mm target cannot even hold the cord; 0 and -5 are rejected. */
  lemma SmallTargets()
    ensures Calculate(30, true) == CordDoesNotFit
    ensures Calculate(30, false).Calculated?
    ensures Calculate(0, true) == InvalidLength && Calculate(-5, false) == InvalidLength
  {
  }
}
