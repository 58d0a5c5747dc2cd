/**
 The result table of `renderCombinationTable`: a combination's lines are
 flattened into one row per unit of quantity, each row carrying the catalog's
 nominal and actual lengths, and the table's total is the sum of the rows'
 used lengths.
 */
module Table {
  import opened Wrappers
  import opened Catalog
  import opened Combinations
  import opened Calculator

  /** One displayed row: the line's fields plus the catalog lengths of its type. */
  datatype Row = Row(kind: string, quantity: int, usedLength: int, nominalLength: int, actualLength: int)

  /** The catalog's nominal length of a type, 0 when the type is unknown. */
  function NominalOf(name: string): int
  {
    match Lookup(name)
    case None => 0
    case Some(t) => t.nominalLength
  }

  /** The catalog's actual length of a type, 0 when the type is unknown. */
  function ActualOf(name: string): int
  {
    match Lookup(name)
    case None => 0
    case Some(t) => t.actualLength
  }

  /** n copies of a row (`Array(n).fill(row)`). */
  function Repeat(row: Row, n: nat): (r: seq<Row>)
    ensures |r| == n
    ensures forall i :: 0 <= i < n ==> r[i] == row
  {
    if n == 0 then [] else [row] + Repeat(row, n - 1)
  }

  /** The row the table shows for each unit of a line: the whole line, as written. */
  function RowFor(l: Line): Row
  {
    Row(l.kind, l.quantity, l.usedLength, NominalOf(l.kind), ActualOf(l.kind))
  }

  /** Lines whose quantities can size an array. */
  predicate Countable(lines: seq<Line>)
  {
    forall l :: l in lines ==> l.quantity >= 0
  }

  /** The flattening as written: each line becomes `quantity` copies of RowFor(line). */
  function Expand(lines: seq<Line>): seq<Row>
    requires Countable(lines)
  {
    if |lines| == 0 then []
    else Repeat(RowFor(lines[0]), lines[0].quantity) + Expand(lines[1..])
  }

  /** The table's total row: the sum of the rows' used lengths. */
  function DisplayedTotal(rows: seq<Row>): int
  {
    if |rows| == 0 then 0 else rows[0].usedLength + DisplayedTotal(rows[1..])
  }

  /** Total number of units over all lines. */
  function TotalQuantity(lines: seq<Line>): int
  {
    if |lines| == 0 then 0 else lines[0].quantity + TotalQuantity(lines[1..])
  }

  /** Sum over the lines of quantity × used length. */
  function WeightedUsed(lines: seq<Line>): int
  {
    if |lines| == 0 then 0 else lines[0].quantity * lines[0].usedLength + WeightedUsed(lines[1..])
  }

  lemma {:induction false} DisplayedTotalAppend(a: seq<Row>, b: seq<Row>)
    ensures DisplayedTotal(a + b) == DisplayedTotal(a) + DisplayedTotal(b)
    decreases |a|
  {
    if |a| > 0 {
      assert (a + b)[1..] == a[1..] + b;
      DisplayedTotalAppend(a[1..], b);
    } else {
      assert a + b == b;
    }
  }

  lemma {:induction false} DisplayedTotalRepeat(row: Row, n: nat)
    ensures DisplayedTotal(Repeat(row, n)) == n * row.usedLength
    decreases n
  {
    if n > 0 {
      DisplayedTotalRepeat(row, n - 1);
      assert Repeat(row, n)[1..] == Repeat(row, n - 1);
    }
  }

  /** Flattening yields one row per unit: as many rows as the quantities add up to. */
  lemma {:induction false} ExpandCount(lines: seq<Line>)
    requires Countable(lines)
    ensures |Expand(lines)| == TotalQuantity(lines)
    decreases |lines|
  {
    if |lines| > 0 {
      ExpandCount(lines[1..]);
    }
  }

  /** Every row comes from a line with a positive quantity, and every such line
      shows up; lines with quantity 0 contribute nothing. */
  lemma {:induction false} ExpandRows(lines: seq<Line>)
    requires Countable(lines)
    ensures forall row :: row in Expand(lines) <==> exists l :: l in lines && l.quantity > 0 && row == RowFor(l)
    decreases |lines|
  {
    if |lines| > 0 {
      ExpandRows(lines[1..]);
      var head := Repeat(RowFor(lines[0]), lines[0].quantity);
      var tail := lines[1..];
      assert Expand(lines) == head + Expand(tail);
      forall row | row in Expand(lines)
        ensures exists l :: l in lines && l.quantity > 0 && row == RowFor(l)
      {
        if row in head {
          assert lines[0] in lines;
        } else {
          var l :| l in tail && l.quantity > 0 && row == RowFor(l);
          assert l in lines;
        }
      }
      forall l | l in lines && l.quantity > 0
        ensures RowFor(l) in Expand(lines)
      {
        if l == lines[0] {
          assert head[0] == RowFor(l);
        } else {
          assert l in tail;
        }
      }
    }
  }

  /** The displayed total counts each line's used length once per unit. */
  lemma {:induction false} DisplayedTotalIsWeighted(lines: seq<Line>)
    requires Countable(lines)
    ensures DisplayedTotal(Expand(lines)) == WeightedUsed(lines)
    decreases |lines|
  {
    if |lines| > 0 {
      DisplayedTotalIsWeighted(lines[1..]);
      DisplayedTotalAppend(Repeat(RowFor(lines[0]), lines[0].quantity), Expand(lines[1..]));
      DisplayedTotalRepeat(RowFor(lines[0]), lines[0].quantity);
    }
  }

  /** With positive quantities and used lengths, counting each line once per unit
      never undercounts, and matches the plain sum exactly when every quantity is 1. */
  lemma {:induction false} WeightedAtLeastSum(lines: seq<Line>)
    requires forall l :: l in lines ==> l.quantity > 0 && l.usedLength > 0
    ensures WeightedUsed(lines) >= SumUsed(lines)
    ensures WeightedUsed(lines) == SumUsed(lines) <==> forall l :: l in lines ==> l.quantity == 1
    decreases |lines|
  {
    if |lines| > 0 {
      var h := lines[0];
      assert h in lines;
      WeightedAtLeastSum(lines[1..]);
      assert forall l :: l in lines[1..] ==> l in lines;
      ExtraUnits(h.quantity, h.usedLength);
      if h.quantity != 1 {
        assert WeightedUsed(lines) > SumUsed(lines);
      } else if WeightedUsed(lines) == SumUsed(lines) {
        forall l | l in lines
          ensures l.quantity == 1
        {
          if l != h {
            assert l in lines[1..];
          }
        }
      }
    }
  }

  lemma ExtraUnits(q: int, u: int)
    requires q > 0 && u > 0
    ensures q * u >= u
    ensures q * u == u <==> q == 1
  {
    assert q * u - u == (q - 1) * u;
    if q > 1 {
      assert (q - 1) * u > 0;
    }
  }

  /** The lines of every combination a quantity vector denotes have positive
      quantities and positive used lengths. */
  lemma FromVectorLinesPositive(target: int, includeCord: bool, v: seq<int>)
    requires |v| == RegularCount && NonNegative(v)
    ensures forall l :: l in FromVector(target, includeCord, v).lines ==> l.quantity > 0 && l.usedLength > 0
  {
    FromVectorShape(target, includeCord, v);
    forall l | l in FromVector(target, includeCord, v).lines
      ensures l.usedLength > 0
    {
      var t := Lookup(l.kind).value;
      assert l.usedLength == l.quantity * t.actualLength;
      assert l.quantity * t.actualLength >= t.actualLength by {
        ExtraUnits(l.quantity, t.actualLength);
      }
    }
  }

  /**
   The total row as written: for a combination the search can return, the
   displayed total is at least the combination's used length, and equal to it
   only when every line has quantity 1.
   */
  lemma TableTotalAsWritten(target: int, includeCord: bool, v: seq<int>)
    requires |v| == RegularCount && NonNegative(v)
    ensures DisplayedTotal(Expand(FromVector(target, includeCord, v).lines))
         >= FromVector(target, includeCord, v).totalUsedLength
    ensures DisplayedTotal(Expand(FromVector(target, includeCord, v).lines))
         == FromVector(target, includeCord, v).totalUsedLength
        <==> forall l :: l in FromVector(target, includeCord, v).lines ==> l.quantity == 1
  {
    var c := FromVector(target, includeCord, v);
    FromVectorShape(target, includeCord, v);
    FromVectorLinesPositive(target, includeCord, v);
    DisplayedTotalIsWeighted(c.lines);
    WeightedAtLeastSum(c.lines);
  }

  /** Two 300 segments for a 600 mm target without the cord: the table shows two
      rows of 600 each, totalling 1200 mm for a combination that uses 600. */
  lemma TableTotalCounterexample()
    ensures var c := FromVector(600, false, [0, 0, 0, 0, 2]);
      && c.totalUsedLength == 600 && c.remainingLength == 0
      && Expand(c.lines) == [Row("300", 2, 600, 300, 300), Row("300", 2, 600, 300, 300)]
      && DisplayedTotal(Expand(c.lines)) == 1200
  {
    var v := [0, 0, 0, 0, 2];
    DotFromExpanded(v);
    TwoThreeHundredLines();
    var c := FromVector(600, false, v);
    assert c.lines == [Line("300", 2, 600)];
    RegularIndex(4);
    RegularShape(4);
    assert Lookup("300") == Some(LightingTypes[4]);
    assert Repeat(RowFor(Line("300", 2, 600)), 2) == [Row("300", 2, 600, 300, 300), Row("300", 2, 600, 300, 300)];
    assert Expand(c.lines) == Repeat(RowFor(Line("300", 2, 600)), 2) + Expand([]);
    DisplayedTotalIsWeighted(c.lines);
  }

  lemma TwoThreeHundredLines()
    ensures LinesFrom([0, 0, 0, 0, 2], 0) == [Line("300", 2, 600)]
  {
    RegularShape(4);
    var v: seq<int> := [0, 0, 0, 0, 2];
    var t4: seq<int> := [2];
    assert t4[1..] == [];
    assert LineFor(4, 2) == [Line("300", 2, 600)];
    assert LinesFrom(t4, 4) == [Line("300", 2, 600)];
    assert v[1..] == [0, 0, 0, 2] && v[1..][1..] == [0, 0, 2] && v[1..][1..][1..] == [0, 2];
    assert v[1..][1..][1..][1..] == t4;
  }

  /** The 600 mm target without the cord has exactly one exact fit, two 300
      segments, so that combination is the first one shown. */
  lemma CounterexampleRanksFirst(target: int)
    requires target == 600
    ensures Calculate(target, false).Calculated? && |Calculate(target, false).best| > 0
    ensures Calculate(target, false).best[0] == FromVector(target, false, [0, 0, 0, 0, 2])
  {
    var v := [0, 0, 0, 0, 2];
    DotFromExpanded(v);
    forall w | Feasible(w, Budget(target, false)) && DotFrom(w, 0) == DotFrom(v, 0)
      ensures w == v
    {
      ExactSplitOf600(w);
    }
    UniqueExactFitRanksFirst(target, false, v);
  }

  /** 600 mm is made of regular actual lengths in exactly one way. */
  lemma ExactSplitOf600(w: seq<int>)
    requires |w| == RegularCount && NonNegative(w) && DotFrom(w, 0) == 600
    ensures w == [0, 0, 0, 0, 2]
  {
    DotFromExpanded(w);
    assert w[0] == 0 && w[1] == 0;
    assert w[2] == 0;
    assert w[3] == 0;
  }

  /** The per-unit flattening: one row per unit, counting one unit and showing
      that unit's actual length as its used length. */
  function UnitRow(l: Line): Row
  {
    Row(l.kind, 1, ActualOf(l.kind), NominalOf(l.kind), ActualOf(l.kind))
  }

  function ExpandPerUnit(lines: seq<Line>): seq<Row>
    requires Countable(lines)
  {
    if |lines| == 0 then []
    else Repeat(UnitRow(lines[0]), lines[0].quantity) + ExpandPerUnit(lines[1..])
  }

  /** Catalog-consistent lines: used length = quantity × the type's actual length. */
  predicate CatalogConsistent(lines: seq<Line>)
  {
    forall l :: l in lines ==> l.quantity >= 0 && LineMatchesCatalog(l)
  }

  /** Per-unit rows: one per unit, each counting one unit and showing its
      type's actual length. */
  lemma {:induction false} ExpandPerUnitRows(lines: seq<Line>)
    requires Countable(lines)
    ensures |ExpandPerUnit(lines)| == TotalQuantity(lines)
    ensures forall row :: row in ExpandPerUnit(lines) ==>
      row.quantity == 1 && row.usedLength == row.actualLength == ActualOf(row.kind)
    decreases |lines|
  {
    if |lines| > 0 {
      ExpandPerUnitRows(lines[1..]);
    }
  }

  /** Per-unit rows add up to the lines' used length. */
  lemma {:induction false} PerUnitTotal(lines: seq<Line>)
    requires CatalogConsistent(lines)
    ensures DisplayedTotal(ExpandPerUnit(lines)) == SumUsed(lines)
    decreases |lines|
  {
    if |lines| > 0 {
      var h := lines[0];
      assert h in lines;
      assert CatalogConsistent(lines[1..]) by {
        forall l | l in lines[1..]
          ensures l.quantity >= 0 && LineMatchesCatalog(l)
        {
          assert l in lines;
        }
      }
      PerUnitTotal(lines[1..]);
      DisplayedTotalAppend(Repeat(UnitRow(h), h.quantity), ExpandPerUnit(lines[1..]));
      DisplayedTotalRepeat(UnitRow(h), h.quantity);
    }
  }

  /**
   The corrected total row: for every combination the search can return, the
   per-unit table totals exactly the combination's used length.
   */
  lemma TableTotalCorrected(target: int, includeCord: bool, v: seq<int>)
    requires |v| == RegularCount && NonNegative(v)
    ensures DisplayedTotal(ExpandPerUnit(FromVector(target, includeCord, v).lines))
         == FromVector(target, includeCord, v).totalUsedLength
  {
    FromVectorShape(target, includeCord, v);
    PerUnitTotal(FromVector(target, includeCord, v).lines);
  }
}
