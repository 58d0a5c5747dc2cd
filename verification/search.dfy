/**
 The combination search of `calculateOptimalCombinations`: a depth-first
 enumeration over the five regular segment types, trying every quantity
 from 0 up to what still fits at each catalog position.
 */
module Search {
  import opened Catalog
  import opened Combinations

  /** Keeps the lines with a positive quantity (the final `filter`). */
  function Positive(lines: seq<Line>): (r: seq<Line>)
    ensures forall l :: l in r <==> l in lines && l.quantity > 0
    ensures (forall l :: l in lines ==> l.quantity > 0) ==> r == lines
  {
    if |lines| == 0 then []
    else (if lines[0].quantity > 0 then [lines[0]] else []) + Positive(lines[1..])
  }

  /** A complete assignment becomes a combination: the cord line (if any) is
      appended last, and the totals are computed from the lines. */
  function Finalize(target: int, cordQuantity: int, current: seq<Line>): Combination
  {
    var cordUsed := cordQuantity * CordLength;
    var totalUsed := SumUsed(current) + cordUsed;
    var final := current + (if cordQuantity > 0 then [Line(CordName, cordQuantity, cordUsed)] else []);
    Combination(Positive(final), totalUsed, target - totalUsed)
  }

  /** `generateCombinations(remaining, current, k)`: every completion of the
      lines `current` over the regular types k, k+1, ..., in enumeration order. */
  function Generate(target: int, cordQuantity: int, remaining: int, current: seq<Line>, k: nat): seq<Combination>
    requires k <= RegularCount
    decreases RegularCount - k, 1, 0
  {
    if k >= RegularCount then [Finalize(target, cordQuantity, current)]
    else TryQuantities(target, cordQuantity, remaining, current, k, 0)
  }

  /** The quantity loop at catalog position k, from quantity q up to
      floor(remaining / actualLength). */
  function TryQuantities(target: int, cordQuantity: int, remaining: int, current: seq<Line>, k: nat, q: nat)
    : seq<Combination>
    requires k < RegularCount
    decreases RegularCount - k, 0, remaining / Regular[k].actualLength + 1 - q
  {
    var maxQuantity := remaining / Regular[k].actualLength;
    if q > maxQuantity then []
    else
      var usedLength := q * Regular[k].actualLength;
      Generate(target, cordQuantity, remaining - usedLength, current + LineFor(k, q), k + 1)
      + TryQuantities(target, cordQuantity, remaining, current, k, q + 1)
  }

  /** Every combination the search records, before ranking. */
  function Enumerate(target: int, includeCord: bool): seq<Combination>
  {
    Generate(target, CordQuantity(includeCord), target - CordUsed(includeCord), [], 0)
  }

  /** The budget a call of the search receives: the target less the cord and
      the lines chosen so far. */
  function BudgetLeft(target: int, cordQuantity: int, current: seq<Line>): int
  {
    target - cordQuantity * CordLength - SumUsed(current)
  }

  /** The quantity loop keeps the budget invariant: the recursive call's budget
      `remaining - quantity * actualLength` is what is left after the line it adds. */
  lemma BudgetStep(target: int, cordQuantity: int, remaining: int, current: seq<Line>, k: nat, q: nat)
    requires k < RegularCount
    requires remaining == BudgetLeft(target, cordQuantity, current)
    ensures remaining - q * Regular[k].actualLength == BudgetLeft(target, cordQuantity, current + LineFor(k, q))
  {
    SumUsedAppend(current, LineFor(k, q));
  }

  /** At a leaf, the combination recorded leaves exactly the leaf's budget over. */
  lemma LeafBudget(target: int, cordQuantity: int, remaining: int, current: seq<Line>)
    requires remaining == BudgetLeft(target, cordQuantity, current)
    ensures |Generate(target, cordQuantity, remaining, current, RegularCount)| == 1
    ensures Generate(target, cordQuantity, remaining, current, RegularCount)[0].remainingLength == remaining
  {
  }

  /** The first call starts from the budget left after the cord. */
  lemma InitialBudget(target: int, includeCord: bool)
    ensures target - CordUsed(includeCord) == BudgetLeft(target, CordQuantity(includeCord), [])
  {
  }

  // ---------------------------------------------------------------------
  // The same enumeration over bare quantity vectors.

  ghost function Prepend(q: int, S: seq<seq<int>>): (r: seq<seq<int>>)
    ensures |r| == |S|
    ensures forall i :: 0 <= i < |S| ==> r[i] == [q] + S[i]
  {
    seq(|S|, i requires 0 <= i < |S| => [q] + S[i])
  }

  /** The quantity vectors for positions k.. in the order the search visits them. */
  ghost function VecGen(r: int, k: nat): seq<seq<int>>
    requires k <= RegularCount
    decreases RegularCount - k, 1, 0
  {
    if k >= RegularCount then [[]] else VecTry(r, k, 0)
  }

  ghost function VecTry(r: int, k: nat, q: nat): seq<seq<int>>
    requires k < RegularCount
    decreases RegularCount - k, 0, r / Regular[k].actualLength + 1 - q
  {
    if q > r / Regular[k].actualLength then []
    else Prepend(q, VecGen(r - q * Regular[k].actualLength, k + 1)) + VecTry(r, k, q + 1)
  }

  ghost predicate Fits(s: seq<int>, k: nat, r: int)
  {
    k + |s| == RegularCount && NonNegative(s) && DotFrom(s, k) <= r
  }

  ghost predicate StrictlyIncreasing(S: seq<seq<int>>)
  {
    forall i, j :: 0 <= i < j < |S| ==> LexLess(S[i], S[j])
  }

  lemma MulBound(q: int, a: int, r: int)
    requires a > 0 && q * a <= r
    ensures q <= r / a
  {
    var d := r / a;
    assert d * a + r % a == r;
    assert (q - d - 1) * a < 0;
    NegativeFactor(q - d - 1, a);
  }

  lemma NegativeFactor(x: int, a: int)
    requires a > 0 && x * a < 0
    ensures x < 0
  {
  }

  lemma QuotientBound(q: int, a: int, r: int)
    requires a > 0 && 0 <= q <= r / a
    ensures q * a <= r
  {
    assert (r / a) * a + r % a == r;
    assert q * a <= (r / a) * a by {
      assert (r / a - q) * a >= 0;
    }
  }

  /** Every listed vector fits (and, from the quantity loop, starts at q or above). */
  lemma {:induction false} VecGenSound(r: int, k: nat)
    requires k < RegularCount || (k == RegularCount && r >= 0)
    ensures forall s :: s in VecGen(r, k) ==> Fits(s, k, r)
    decreases RegularCount - k, 1, 0
  {
    if k < RegularCount {
      VecTrySound(r, k, 0);
    }
  }

  lemma {:induction false} VecTrySound(r: int, k: nat, q: nat)
    requires k < RegularCount
    ensures forall s :: s in VecTry(r, k, q) ==> Fits(s, k, r) && s[0] >= q
    decreases RegularCount - k, 0, r / Regular[k].actualLength + 1 - q
  {
    var a := Regular[k].actualLength;
    if q <= r / a {
      var G := VecGen(r - q * a, k + 1);
      QuotientBound(q, a, r);
      VecGenSound(r - q * a, k + 1);
      VecTrySound(r, k, q + 1);
      forall s | s in Prepend(q, G)
        ensures Fits(s, k, r) && s[0] >= q
      {
        var i :| 0 <= i < |G| && s == Prepend(q, G)[i];
        assert G[i] in G;
        assert s[1..] == G[i];
      }
    }
  }

  lemma {:induction false} VecGenComplete(r: int, k: nat, s: seq<int>)
    requires k <= RegularCount
    requires Fits(s, k, r)
    ensures s in VecGen(r, k)
    decreases RegularCount - k, 1, 0
  {
    if k < RegularCount {
      VecTryComplete(r, k, 0, s);
    }
  }

  lemma {:induction false} VecTryComplete(r: int, k: nat, q: nat, s: seq<int>)
    requires k < RegularCount
    requires Fits(s, k, r) && s[0] >= q
    ensures s in VecTry(r, k, q)
    decreases RegularCount - k, 0, r / Regular[k].actualLength + 1 - q
  {
    var a := Regular[k].actualLength;
    var m := r / a;
    FitsTail(s, k, r);
    assert q <= s[0] <= m;
    var G := VecGen(r - q * a, k + 1);
    var B := VecTry(r, k, q + 1);
    VecTryUnfold(r, k, q);
    if s[0] == q {
      assert Fits(s[1..], k + 1, r - q * a);
      VecGenComplete(r - q * a, k + 1, s[1..]);
      PrependMember(q, G, s[1..]);
      assert s == [q] + s[1..];
    } else {
      assert q + 1 <= s[0] && m + 1 - (q + 1) < m + 1 - q;
      VecTryComplete(r, k, q + 1, s);
      assert s in B;
    }
  }

  lemma PrependMember(q: int, G: seq<seq<int>>, t: seq<int>)
    requires t in G
    ensures [q] + t in Prepend(q, G)
  {
    var i :| 0 <= i < |G| && G[i] == t;
    assert Prepend(q, G)[i] == [q] + t;
  }

  lemma VecTryUnfold(r: int, k: nat, q: nat)
    requires k < RegularCount && q <= r / Regular[k].actualLength
    ensures VecTry(r, k, q)
         == Prepend(q, VecGen(r - q * Regular[k].actualLength, k + 1)) + VecTry(r, k, q + 1)
  {
  }

  /** The head of a fitting vector is within the quantity loop's bound, and
      its tail fits in what the head leaves. */
  lemma FitsTail(s: seq<int>, k: nat, r: int)
    requires k < RegularCount && Fits(s, k, r)
    ensures s[0] <= r / Regular[k].actualLength
    ensures Fits(s[1..], k + 1, r - s[0] * Regular[k].actualLength)
  {
    var a := Regular[k].actualLength;
    assert NonNegative(s[1..]) by {
      forall i | 0 <= i < |s[1..]|
        ensures s[1..][i] >= 0
      {
        assert s[1..][i] == s[i + 1];
      }
    }
    DotFromNonNegative(s[1..], k + 1);
    MulBound(s[0], a, r);
  }

  lemma ConcatIncreasing(A: seq<seq<int>>, B: seq<seq<int>>)
    requires StrictlyIncreasing(A) && StrictlyIncreasing(B)
    requires forall a, b :: a in A && b in B ==> LexLess(a, b)
    ensures StrictlyIncreasing(A + B)
  {
    forall i, j | 0 <= i < j < |A + B|
      ensures LexLess((A + B)[i], (A + B)[j])
    {
      if j < |A| {
      } else if i >= |A| {
        assert (A + B)[i] == B[i - |A|] && (A + B)[j] == B[j - |A|];
      } else {
        assert (A + B)[i] in A && (A + B)[j] in B;
      }
    }
  }

  lemma {:induction false} VecGenIncreasing(r: int, k: nat)
    requires k <= RegularCount
    ensures StrictlyIncreasing(VecGen(r, k))
    decreases RegularCount - k, 1, 0
  {
    if k < RegularCount {
      VecTryIncreasing(r, k, 0);
    }
  }

  lemma {:induction false} VecTryIncreasing(r: int, k: nat, q: nat)
    requires k < RegularCount
    ensures StrictlyIncreasing(VecTry(r, k, q))
    decreases RegularCount - k, 0, r / Regular[k].actualLength + 1 - q
  {
    var a := Regular[k].actualLength;
    if q <= r / a {
      var G := VecGen(r - q * a, k + 1);
      var B := VecTry(r, k, q + 1);
      VecGenIncreasing(r - q * a, k + 1);
      VecTryIncreasing(r, k, q + 1);
      VecTrySound(r, k, q + 1);
      PrependIncreasing(q, G);
      PrependBelow(q, G, B);
      ConcatIncreasing(Prepend(q, G), B);
    }
  }

  lemma PrependIncreasing(q: int, G: seq<seq<int>>)
    requires StrictlyIncreasing(G)
    ensures StrictlyIncreasing(Prepend(q, G))
  {
    var A := Prepend(q, G);
    forall i, j | 0 <= i < j < |A|
      ensures LexLess(A[i], A[j])
    {
      assert A[i][1..] == G[i] && A[j][1..] == G[j];
    }
  }

  /** Vectors starting with q come before non-empty vectors starting higher. */
  lemma PrependBelow(q: int, G: seq<seq<int>>, B: seq<seq<int>>)
    requires forall y :: y in B ==> |y| > 0 && y[0] > q
    ensures forall x, y :: x in Prepend(q, G) && y in B ==> LexLess(x, y)
  {
    forall x, y | x in Prepend(q, G) && y in B
      ensures LexLess(x, y)
    {
      var i :| 0 <= i < |G| && x == Prepend(q, G)[i];
      assert x[0] == q;
    }
  }

  // ---------------------------------------------------------------------
  // The search produces exactly the combinations of the listed vectors.

  /** Every vector in S is short enough to be laid out from position k. */
  ghost predicate FitsFrom(S: seq<seq<int>>, k: nat)
  {
    forall i :: 0 <= i < |S| ==> k + |S[i]| <= RegularCount
  }

  lemma FitsFromAppend(A: seq<seq<int>>, B: seq<seq<int>>, k: nat)
    requires FitsFrom(A, k) && FitsFrom(B, k)
    ensures FitsFrom(A + B, k)
  {
    forall i | 0 <= i < |A + B|
      ensures k + |(A + B)[i]| <= RegularCount
    {
      if i >= |A| {
        assert (A + B)[i] == B[i - |A|];
      }
    }
  }

  lemma {:induction false} VecGenLengths(r: int, k: nat)
    requires k <= RegularCount
    ensures FitsFrom(VecGen(r, k), k)
    decreases RegularCount - k, 1, 0
  {
    if k < RegularCount {
      VecTryLengths(r, k, 0);
    }
  }

  lemma {:induction false} VecTryLengths(r: int, k: nat, q: nat)
    requires k < RegularCount
    ensures FitsFrom(VecTry(r, k, q), k)
    decreases RegularCount - k, 0, r / Regular[k].actualLength + 1 - q
  {
    var a := Regular[k].actualLength;
    if q <= r / a {
      var G := VecGen(r - q * a, k + 1);
      VecGenLengths(r - q * a, k + 1);
      VecTryLengths(r, k, q + 1);
      FitsFromAppend(Prepend(q, G), VecTry(r, k, q + 1), k);
    }
  }

  ghost function MapFinalize(target: int, cordQuantity: int, current: seq<Line>, k: nat, S: seq<seq<int>>)
    : (r: seq<Combination>)
    requires FitsFrom(S, k)
    ensures |r| == |S|
    ensures forall i :: 0 <= i < |S| ==> r[i] == Finalize(target, cordQuantity, current + LinesFrom(S[i], k))
  {
    seq(|S|, i requires 0 <= i < |S| => Finalize(target, cordQuantity, current + LinesFrom(S[i], k)))
  }

  lemma {:induction false} GenerateMatches(target: int, cordQuantity: int, r: int, current: seq<Line>, k: nat)
    requires k <= RegularCount
    requires FitsFrom(VecGen(r, k), k)
    ensures Generate(target, cordQuantity, r, current, k) == MapFinalize(target, cordQuantity, current, k, VecGen(r, k))
    decreases RegularCount - k, 1, 0
  {
    if k >= RegularCount {
      assert current + LinesFrom([], k) == current;
    } else {
      VecTryLengths(r, k, 0);
      TryMatches(target, cordQuantity, r, current, k, 0);
    }
  }

  lemma LinesFromCons(q: int, g: seq<int>, k: nat)
    requires k + 1 + |g| <= RegularCount
    ensures LinesFrom([q] + g, k) == LineFor(k, q) + LinesFrom(g, k + 1)
  {
    assert ([q] + g)[1..] == g;
  }

  lemma MapFinalizeAppend(target: int, cordQuantity: int, current: seq<Line>, k: nat, A: seq<seq<int>>, B: seq<seq<int>>)
    requires FitsFrom(A, k) && FitsFrom(B, k) && FitsFrom(A + B, k)
    ensures MapFinalize(target, cordQuantity, current, k, A + B)
         == MapFinalize(target, cordQuantity, current, k, A) + MapFinalize(target, cordQuantity, current, k, B)
  {
    assert forall i :: 0 <= i < |A + B| ==> (A + B)[i] == if i < |A| then A[i] else B[i - |A|];
  }

  lemma AppendAssoc<T>(a: seq<T>, b: seq<T>, c: seq<T>)
    ensures a + (b + c) == (a + b) + c
  {
  }

  lemma MapFinalizePrepend(target: int, cordQuantity: int, current: seq<Line>, k: nat, q: int, G: seq<seq<int>>)
    requires k < RegularCount
    requires FitsFrom(G, k + 1) && FitsFrom(Prepend(q, G), k)
    ensures MapFinalize(target, cordQuantity, current, k, Prepend(q, G))
         == MapFinalize(target, cordQuantity, current + LineFor(k, q), k + 1, G)
  {
    var P := Prepend(q, G);
    var left := MapFinalize(target, cordQuantity, current, k, P);
    var right := MapFinalize(target, cordQuantity, current + LineFor(k, q), k + 1, G);
    forall i | 0 <= i < |G|
      ensures left[i] == right[i]
    {
      LinesFromCons(q, G[i], k);
      assert P[i] == [q] + G[i];
      var A, B := LineFor(k, q), LinesFrom(G[i], k + 1);
      assert LinesFrom(P[i], k) == A + B;
      AppendAssoc(current, A, B);
      assert left[i] == Finalize(target, cordQuantity, current + (A + B));
    }
  }

  lemma {:induction false} TryMatches(target: int, cordQuantity: int, r: int, current: seq<Line>, k: nat, q: nat)
    requires k < RegularCount
    requires FitsFrom(VecTry(r, k, q), k)
    ensures TryQuantities(target, cordQuantity, r, current, k, q)
         == MapFinalize(target, cordQuantity, current, k, VecTry(r, k, q))
    decreases RegularCount - k, 0, r / Regular[k].actualLength + 1 - q
  {
    var a := Regular[k].actualLength;
    if q <= r / a {
      var G := VecGen(r - q * a, k + 1);
      var P := Prepend(q, G);
      var B := VecTry(r, k, q + 1);
      var next := current + LineFor(k, q);
      VecGenLengths(r - q * a, k + 1);
      VecTryLengths(r, k, q + 1);
      FitsFromAppend(P, B, k);
      GenerateMatches(target, cordQuantity, r - q * a, next, k + 1);
      TryMatches(target, cordQuantity, r, current, k, q + 1);
      MapFinalizePrepend(target, cordQuantity, current, k, q, G);
      MapFinalizeAppend(target, cordQuantity, current, k, P, B);
      TryUnfold(target, cordQuantity, r, current, k, q);
      var T := TryQuantities(target, cordQuantity, r, current, k, q);
      assert T == MapFinalize(target, cordQuantity, next, k + 1, G) + MapFinalize(target, cordQuantity, current, k, B);
      assert VecTry(r, k, q) == P + B;
    }
  }

  lemma TryUnfold(target: int, cordQuantity: int, r: int, current: seq<Line>, k: nat, q: nat)
    requires k < RegularCount && q <= r / Regular[k].actualLength
    ensures TryQuantities(target, cordQuantity, r, current, k, q)
         == Generate(target, cordQuantity, r - q * Regular[k].actualLength, current + LineFor(k, q), k + 1)
          + TryQuantities(target, cordQuantity, r, current, k, q + 1)
  {
  }

  /** Finalizing lines that all have positive quantities keeps them, appends
      the cord line, and totals the used lengths. */
  lemma FinalizeKeepsLines(target: int, includeCord: bool, lines: seq<Line>)
    requires forall l :: l in lines ==> l.quantity > 0
    ensures Finalize(target, CordQuantity(includeCord), lines)
         == Combination(lines + CordLines(includeCord), SumUsed(lines) + CordUsed(includeCord),
                        target - (SumUsed(lines) + CordUsed(includeCord)))
  {
    var cord := CordLines(includeCord);
    assert forall l :: l in cord ==> l.quantity > 0;
    assert forall l :: l in lines + cord ==> l.quantity > 0 by {
      forall l | l in lines + cord
        ensures l.quantity > 0
      {
        if l !in lines {
          assert l in cord;
        }
      }
    }
    assert Positive(lines + cord) == lines + cord;
  }

  lemma FinalizeIsFromVector(target: int, includeCord: bool, v: seq<int>)
    requires |v| == RegularCount && NonNegative(v)
    ensures Finalize(target, CordQuantity(includeCord), LinesFrom(v, 0)) == FromVector(target, includeCord, v)
  {
    LinesFromSum(v, 0);
    LinesFromPositive(v, 0);
    FinalizeKeepsLines(target, includeCord, LinesFrom(v, 0));
  }

  /** The quantity vectors the search visits, in its order. */
  ghost function Visited(target: int, includeCord: bool): seq<seq<int>>
  {
    VecGen(target - CordUsed(includeCord), 0)
  }

  /** The search's list is the list of the visited vectors' combinations. */
  lemma EnumerationListsVectors(target: int, includeCord: bool)
    ensures |Enumerate(target, includeCord)| == |Visited(target, includeCord)|
    ensures forall i :: 0 <= i < |Visited(target, includeCord)| ==>
      && Feasible(Visited(target, includeCord)[i], target - CordUsed(includeCord))
      && Enumerate(target, includeCord)[i] == FromVector(target, includeCord, Visited(target, includeCord)[i])
      && VectorOf(Enumerate(target, includeCord)[i].lines) == Visited(target, includeCord)[i]
  {
    var budget := target - CordUsed(includeCord);
    var E := Enumerate(target, includeCord);
    var V := Visited(target, includeCord);
    var cq := CordQuantity(includeCord);
    VecGenLengths(budget, 0);
    GenerateMatches(target, cq, budget, [], 0);
    var M := MapFinalize(target, cq, [], 0, V);
    assert E == M;
    VecGenSound(budget, 0);
    forall i | 0 <= i < |V|
      ensures Feasible(V[i], budget)
      ensures E[i] == FromVector(target, includeCord, V[i])
      ensures VectorOf(E[i].lines) == V[i]
    {
      assert V[i] in V;
      var lines := LinesFrom(V[i], 0);
      assert M[i] == Finalize(target, cq, [] + lines);
      assert [] + lines == lines;
      FinalizeIsFromVector(target, includeCord, V[i]);
      DecodeFromVector(target, includeCord, V[i]);
    }
  }

  /** Soundness: each listed combination is the one its own quantity vector
      denotes, and that vector fits in the budget left after the cord. */
  lemma EnumerationSound(target: int, includeCord: bool)
    ensures forall c :: c in Enumerate(target, includeCord) ==>
      && Feasible(VectorOf(c.lines), target - CordUsed(includeCord))
      && c == FromVector(target, includeCord, VectorOf(c.lines))
  {
    var E := Enumerate(target, includeCord);
    EnumerationListsVectors(target, includeCord);
    forall c | c in E
      ensures Feasible(VectorOf(c.lines), target - CordUsed(includeCord))
      ensures c == FromVector(target, includeCord, VectorOf(c.lines))
    {
      var i :| 0 <= i < |E| && E[i] == c;
    }
  }

  /** Completeness: every quantity vector that fits in the budget left after
      the cord has its combination listed. */
  lemma EnumerationComplete(target: int, includeCord: bool, v: seq<int>)
    requires Feasible(v, target - CordUsed(includeCord))
    ensures FromVector(target, includeCord, v) in Enumerate(target, includeCord)
  {
    var V := Visited(target, includeCord);
    EnumerationListsVectors(target, includeCord);
    VecGenComplete(target - CordUsed(includeCord), 0, v);
    var i :| 0 <= i < |V| && V[i] == v;
    assert Enumerate(target, includeCord)[i] == FromVector(target, includeCord, v);
  }

  /** Order: the list is strictly increasing in the lexicographic order of
      the quantity vectors (largest type outermost, quantities ascending), so
      no vector, and no combination, is listed twice. */
  lemma EnumerationOrdered(target: int, includeCord: bool)
    ensures forall i, j :: 0 <= i < j < |Enumerate(target, includeCord)| ==>
      LexLess(VectorOf(Enumerate(target, includeCord)[i].lines), VectorOf(Enumerate(target, includeCord)[j].lines))
    ensures forall i, j :: 0 <= i < j < |Enumerate(target, includeCord)| ==>
      VectorOf(Enumerate(target, includeCord)[i].lines) != VectorOf(Enumerate(target, includeCord)[j].lines)
      && Enumerate(target, includeCord)[i] != Enumerate(target, includeCord)[j]
  {
    var E := Enumerate(target, includeCord);
    EnumerationListsVectors(target, includeCord);
    VecGenIncreasing(target - CordUsed(includeCord), 0);
    forall i, j | 0 <= i < j < |E|
      ensures VectorOf(E[i].lines) != VectorOf(E[j].lines)
    {
      if VectorOf(E[i].lines) == VectorOf(E[j].lines) {
        LexLessIrreflexive(VectorOf(E[i].lines));
      }
    }
  }
}
