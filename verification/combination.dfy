/**
 Combinations as the calculator stores them (CombinationResult and
 OptimalCombination), and the quantity vectors they stand for.
 */
module Combinations {
  import opened Wrappers
  import opened Catalog

  /** One row of a combination: a segment type, how many, and the length they use. */
  datatype Line = Line(kind: string, quantity: int, usedLength: int)

  datatype Combination = Combination(lines: seq<Line>, totalUsedLength: int, remainingLength: int)

  /** Sum of the lines' used lengths (the `reduce` over `usedLength`). */
  function SumUsed(lines: seq<Line>): int
  {
    if |lines| == 0 then 0 else lines[0].usedLength + SumUsed(lines[1..])
  }

  lemma {:induction false} SumUsedAppend(a: seq<Line>, b: seq<Line>)
    ensures SumUsed(a + b) == SumUsed(a) + SumUsed(b)
    decreases |a|
  {
    if |a| > 0 {
      assert (a + b)[1..] == a[1..] + b;
      SumUsedAppend(a[1..], b);
    } else {
      assert a + b == b;
    }
  }

  /** Total quantity of the lines that carry the given type name. */
  function QuantityOf(lines: seq<Line>, name: string): int
  {
    if |lines| == 0 then 0
    else (if lines[0].kind == name then lines[0].quantity else 0) + QuantityOf(lines[1..], name)
  }

  lemma {:induction false} QuantityOfAppend(a: seq<Line>, b: seq<Line>, name: string)
    ensures QuantityOf(a + b, name) == QuantityOf(a, name) + QuantityOf(b, name)
    decreases |a|
  {
    if |a| > 0 {
      assert (a + b)[1..] == a[1..] + b;
      QuantityOfAppend(a[1..], b, name);
    } else {
      assert a + b == b;
    }
  }

  /** Reads back the quantity of every regular type from a list of lines. */
  function VectorOf(lines: seq<Line>): (v: seq<int>)
    ensures |v| == RegularCount
  {
    seq(RegularCount, i requires 0 <= i < RegularCount => QuantityOf(lines, Regular[i].name))
  }

  // ---------------------------------------------------------------------
  // Quantity vectors: one non-negative count per regular type, catalog order.

  predicate NonNegative(s: seq<int>)
  {
    forall i :: 0 <= i < |s| ==> s[i] >= 0
  }

  /** Length used by the counts `s` for the regular types at positions k, k+1, ... */
  function DotFrom(s: seq<int>, k: nat): int
    requires k + |s| <= RegularCount
    decreases |s|
  {
    if |s| == 0 then 0
    else s[0] * Regular[k].actualLength + DotFrom(s[1..], k + 1)
  }

  lemma {:induction false} DotFromNonNegative(s: seq<int>, k: nat)
    requires k + |s| <= RegularCount
    requires NonNegative(s)
    ensures DotFrom(s, k) >= 0
    decreases |s|
  {
    if |s| > 0 {
      DotFromNonNegative(s[1..], k + 1);
      MulNonNegative(s[0], Regular[k].actualLength);
    }
  }

  lemma MulNonNegative(x: int, y: int)
    requires x >= 0 && y >= 0
    ensures x * y >= 0
  {
  }

  /** The used length of a full vector, written out with the catalog's actual lengths. */
  lemma DotFromExpanded(v: seq<int>)
    requires |v| == RegularCount
    ensures DotFrom(v, 0) == 1160 * v[0] + 860 * v[1] + 560 * v[2] + 390 * v[3] + 300 * v[4]
  {
    var v1, v2, v3, v4, v5 := v[1..], v[2..], v[3..], v[4..], v[5..];
    assert v1[1..] == v2 && v2[1..] == v3 && v3[1..] == v4 && v4[1..] == v5;
    assert DotFrom(v5, 5) == 0;
    assert DotFrom(v4, 4) == v[4] * 300;
    assert DotFrom(v3, 3) == v[3] * 390 + DotFrom(v4, 4);
    assert DotFrom(v2, 2) == v[2] * 560 + DotFrom(v3, 3);
    assert DotFrom(v1, 1) == v[1] * 860 + DotFrom(v2, 2);
  }

  /** A full quantity vector whose segments fit in `budget` millimetres. */
  predicate Feasible(v: seq<int>, budget: int)
  {
    |v| == RegularCount && NonNegative(v) && DotFrom(v, 0) <= budget
  }

  /** The line for `q` segments of regular type `k`, or nothing when q is 0. */
  function LineFor(k: nat, q: int): seq<Line>
    requires k < RegularCount
  {
    if q > 0 then [Line(Regular[k].name, q, q * Regular[k].actualLength)] else []
  }

  /** The lines for counts `s` of the regular types at positions k, k+1, ... */
  function LinesFrom(s: seq<int>, k: nat): seq<Line>
    requires k + |s| <= RegularCount
    decreases |s|
  {
    if |s| == 0 then [] else LineFor(k, s[0]) + LinesFrom(s[1..], k + 1)
  }

  function CordQuantity(includeCord: bool): int
  {
    if includeCord then 1 else 0
  }

  function CordUsed(includeCord: bool): int
  {
    CordQuantity(includeCord) * CordLength
  }

  function CordLines(includeCord: bool): seq<Line>
  {
    if includeCord then [Line(CordName, 1, CordLength)] else []
  }

  /**
   The combination a quantity vector denotes: the regular lines in catalog
   order, then the cord line; the used length is the dot product of the
   vector with the actual lengths, plus the cord.
   */
  function FromVector(target: int, includeCord: bool, v: seq<int>): (c: Combination)
    requires |v| == RegularCount
    ensures forall l :: l in c.lines ==> l.quantity > 0
  {
    LinesFromPositive(v, 0);
    var used := DotFrom(v, 0) + CordUsed(includeCord);
    Combination(LinesFrom(v, 0) + CordLines(includeCord), used, target - used)
  }

  /** Strict lexicographic order on equal-length vectors. */
  predicate LexLess(a: seq<int>, b: seq<int>)
    decreases |a|
  {
    |a| > 0 && |b| > 0 && (a[0] < b[0] || (a[0] == b[0] && LexLess(a[1..], b[1..])))
  }

  lemma {:induction false} LexLessIrreflexive(a: seq<int>)
    ensures !LexLess(a, a)
    decreases |a|
  {
    if |a| > 0 {
      LexLessIrreflexive(a[1..]);
    }
  }

  // ---------------------------------------------------------------------
  // What a vector's lines look like.

  /** Position of a type name in the catalog, -1 when it is not there. */
  function CatalogIndex(name: string): int
  {
    match FindByName(LightingTypes, name)
    case None => -1
    case Some(i) => i
  }

  /** A line names a catalog type and uses quantity × that type's actual length. */
  predicate LineMatchesCatalog(l: Line)
  {
    match Lookup(l.kind)
    case None => false
    case Some(t) => l.usedLength == l.quantity * t.actualLength
  }

  /** Types appear in strictly increasing catalog position. */
  predicate InCatalogOrder(lines: seq<Line>)
  {
    forall i, j :: 0 <= i < j < |lines| ==> CatalogIndex(lines[i].kind) < CatalogIndex(lines[j].kind)
  }

  lemma OrderAppend(a: seq<Line>, b: seq<Line>)
    requires InCatalogOrder(a) && InCatalogOrder(b)
    requires forall x, y :: x in a && y in b ==> CatalogIndex(x.kind) < CatalogIndex(y.kind)
    ensures InCatalogOrder(a + b)
  {
    forall i, j | 0 <= i < j < |a + b|
      ensures CatalogIndex((a + b)[i].kind) < CatalogIndex((a + b)[j].kind)
    {
      if j < |a| {
        assert (a + b)[i] == a[i] && (a + b)[j] == a[j];
      } else if i >= |a| {
        assert (a + b)[i] == b[i - |a|] && (a + b)[j] == b[j - |a|];
      } else {
        assert (a + b)[i] in a && (a + b)[j] in b;
      }
    }
  }

  /**
   The shape every enumerated combination has: positive quantities, lengths
   that agree with the catalog, types in strictly increasing catalog order
   (so each type at most once, the cord last), and the cord present exactly
   when it was asked for.
   */
  predicate WellShaped(c: Combination, includeCord: bool)
  {
    && (forall l :: l in c.lines ==> l.quantity > 0 && LineMatchesCatalog(l))
    && InCatalogOrder(c.lines)
    && (includeCord ==> |c.lines| > 0 && c.lines[|c.lines| - 1] == Line(CordName, 1, CordLength))
    && (!includeCord ==> forall l :: l in c.lines ==> l.kind != CordName)
  }

  lemma {:induction false} LinesFromSum(s: seq<int>, k: nat)
    requires k + |s| <= RegularCount
    requires NonNegative(s)
    ensures SumUsed(LinesFrom(s, k)) == DotFrom(s, k)
    decreases |s|
  {
    if |s| > 0 {
      LinesFromSum(s[1..], k + 1);
      SumUsedAppend(LineFor(k, s[0]), LinesFrom(s[1..], k + 1));
    }
  }

  lemma {:induction false} LinesFromPositive(s: seq<int>, k: nat)
    requires k + |s| <= RegularCount
    ensures forall l :: l in LinesFrom(s, k) ==> l.quantity > 0
    decreases |s|
  {
    if |s| > 0 {
      LinesFromPositive(s[1..], k + 1);
    }
  }

  /** Each line of a vector's lines is a positive, catalog-consistent regular
      line whose type lies in the positions the vector covers. */
  lemma {:induction false} LinesFromMembers(s: seq<int>, k: nat)
    requires k + |s| <= RegularCount
    ensures forall l :: l in LinesFrom(s, k) ==>
      l.quantity > 0 && LineMatchesCatalog(l) && l.kind != CordName &&
      k <= CatalogIndex(l.kind) < k + |s|
    decreases |s|
  {
    if |s| > 0 {
      RegularShape(k);
      RegularIndex(k);
      LinesFromMembers(s[1..], k + 1);
      var head := LineFor(k, s[0]);
      forall l | l in head
        ensures l.quantity > 0 && LineMatchesCatalog(l) && l.kind != CordName && CatalogIndex(l.kind) == k
      {
        assert Lookup(l.kind) == Some(Regular[k]);
      }
    }
  }

  lemma {:induction false} LinesFromOrdered(s: seq<int>, k: nat)
    requires k + |s| <= RegularCount
    ensures InCatalogOrder(LinesFrom(s, k))
    decreases |s|
  {
    if |s| > 0 {
      LinesFromOrdered(s[1..], k + 1);
      LinesFromMembers(s[1..], k + 1);
      var head := LineFor(k, s[0]);
      RegularIndex(k);
      assert forall x :: x in head ==> CatalogIndex(x.kind) == k;
      OrderAppend(head, LinesFrom(s[1..], k + 1));
    }
  }

  /** Every combination that a vector denotes has the enumerated shape and
      respects the budget bookkeeping. */
  lemma FromVectorShape(target: int, includeCord: bool, v: seq<int>)
    requires |v| == RegularCount && NonNegative(v)
    ensures WellShaped(FromVector(target, includeCord, v), includeCord)
    ensures FromVector(target, includeCord, v).totalUsedLength == SumUsed(FromVector(target, includeCord, v).lines)
    ensures FromVector(target, includeCord, v).remainingLength == target - FromVector(target, includeCord, v).totalUsedLength
  {
    var regular := LinesFrom(v, 0);
    var cord := CordLines(includeCord);
    LinesFromSum(v, 0);
    LinesFromMembers(v, 0);
    LinesFromOrdered(v, 0);
    SumUsedAppend(regular, cord);
    CordLineShape(includeCord);
    OrderAppend(regular, cord);
  }

  /** The cord line, when present, is a catalog line at the last position. */
  lemma CordLineShape(includeCord: bool)
    ensures forall l :: l in CordLines(includeCord) ==>
      l == Line(CordName, 1, CordLength) && l.quantity > 0 && LineMatchesCatalog(l) && CatalogIndex(l.kind) == 5
    ensures InCatalogOrder(CordLines(includeCord))
    ensures SumUsed(CordLines(includeCord)) == CordUsed(includeCord)
  {
    CordLengthAgrees();
    assert Lookup(CordName) == Some(LightingTypes[5]);
  }

  lemma {:induction false} QuantityOfLinesFrom(s: seq<int>, k: nat, i: nat)
    requires k + |s| <= RegularCount && i < RegularCount
    requires NonNegative(s)
    ensures QuantityOf(LinesFrom(s, k), Regular[i].name) == if k <= i < k + |s| then s[i - k] else 0
    decreases |s|
  {
    if |s| > 0 {
      QuantityOfLinesFrom(s[1..], k + 1, i);
      QuantityOfAppend(LineFor(k, s[0]), LinesFrom(s[1..], k + 1), Regular[i].name);
      if k != i {
        RegularNamesDistinct(k, i);
      }
    }
  }

  /** A vector is recovered from the combination it denotes, so distinct
      vectors denote distinct combinations. */
  lemma DecodeFromVector(target: int, includeCord: bool, v: seq<int>)
    requires |v| == RegularCount && NonNegative(v)
    ensures VectorOf(FromVector(target, includeCord, v).lines) == v
  {
    var lines := FromVector(target, includeCord, v).lines;
    forall i | 0 <= i < RegularCount
      ensures VectorOf(lines)[i] == v[i]
    {
      RegularShape(i);
      QuantityOfLinesFrom(v, 0, i);
      QuantityOfAppend(LinesFrom(v, 0), CordLines(includeCord), Regular[i].name);
    }
  }
}
