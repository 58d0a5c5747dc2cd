# T5 lighting calculator — verified model of the combination search

The calculator helps an installer cover a target length (a straight run or a
room perimeter, in millimetres) with fixed-length T5 lighting segments and an
optional 60 mm power cord ("T5코드"). This project models the component's
computational core in Dafny and proves its properties:

- the lighting catalog (`Catalog`): five regular segment types, largest first,
  with nominal and actual (installed) lengths, followed by the cord entry;
- the combination search of `calculateOptimalCombinations` (`Search`,
  `Calculator`). It rejects a non-positive target, reserves the cord, and
  runs a depth-first enumeration that tries every quantity from 0 up to
  `floor(remaining / actualLength)` at each catalog position. It turns each
  complete assignment into a combination (lines with positive quantities,
  cord line last, total used length, remaining length), stable-sorts the
  results by remaining length (`Ranking`), and keeps the first three;
- the per-unit table of `renderCombinationTable` (`Table`): every line
  expanded into `quantity` rows, and the table's total row;
- the perimeter effect (`Perimeter`): in width/height mode with both fields
  filled, the total length is set to `(width + height) * 2` when both sides
  are positive and cleared when a side is not; an empty field leaves the
  total untouched.

The search is modelled twice. `Search.Generate` / `Search.TryQuantities`
follow the recursive function and its quantity loop branch for branch. The
ghost `Search.VecGen` / `Search.VecTry` list the same quantity vectors in the
same order. `Search.GenerateMatches` proves that the first is the second
mapped through `Search.Finalize`. From that, the enumeration is shown to be
sound, complete and strictly lexicographically increasing, with
`Combinations.FromVector` (the combination a quantity vector denotes) and
`Combinations.VectorOf` (reading the quantities back from the lines) as the
two sides of a round trip.

Modelling decisions:

- JavaScript's `Math.floor(remaining / actualLength)` is Dafny's `/`. The
  divisor is always positive, and for a positive divisor Euclidean division
  and flooring agree, negative dividends included.
- The cord length is the literal 60 used by the search
  (`Catalog.CordLength`), not a lookup in the catalog.
  `Catalog.CordLengthAgrees` proves that the two agree.
- The search's outcome is a datatype: `InvalidLength` when the target is not
  positive (the error toast), `CordDoesNotFit` when the cord alone exceeds
  the target (the silent early return, which shows no new results), or
  `Calculated(best)`.
- Width, height and total fields of the perimeter effect are `Option<int>`.
  `None` is an empty field; `Some(n)` holds the field's parsed value, with
  unparsable text reading as 0 as `parseInt(...) || 0` does.

## Model

| member | source | states |
|---|---|---|
| Catalog.FindByName | src/components/LightingCalculator.tsx:520 | the lookup by name returns the first entry with that name, and nothing exactly when no entry has it |
| Catalog.RegularIndex | src/components/LightingCalculator.tsx:80-85 | each regular segment type is found by name at its own catalog position |
| Catalog.RegularNamesDistinct | src/components/LightingCalculator.tsx:80-85 | the five regular type names are pairwise different |
| Catalog.CordLengthAgrees | src/components/LightingCalculator.tsx:432 | the hard-coded 60 mm cord length equals the catalog's cord entry, the last entry |
| Combinations.DotFromExpanded | src/components/LightingCalculator.tsx:80-85 | a vector's regular length is 1160, 860, 560, 390 and 300 mm per unit of each type |
| Combinations.FromVector | src/components/LightingCalculator.tsx:455-470 | the combination a quantity vector denotes lists only lines with positive quantity |
| Combinations.FromVectorShape | src/components/LightingCalculator.tsx:446-492 | such a combination has positive, catalog-consistent lines in strictly increasing catalog order; the cord line is last exactly when the cord is asked for; totalUsedLength is the sum of the lines; remainingLength is target minus that |
| Combinations.DecodeFromVector | src/components/LightingCalculator.tsx:484-492 | reading the quantities back from a vector's lines gives the vector, so distinct vectors give distinct combinations |
| Search.Positive | src/components/LightingCalculator.tsx:464-467 | the filter keeps exactly the lines with positive quantity and changes nothing when all are positive |
| Search.FinalizeIsFromVector | src/components/LightingCalculator.tsx:446-470 | the leaf step turns a vector's lines into the combination that vector denotes (cord appended, totals summed) |
| Search.InitialBudget | src/components/LightingCalculator.tsx:431-433 | the budget the search starts with, target minus the cord, is the target minus the cord and nothing used yet |
| Search.BudgetStep | src/components/LightingCalculator.tsx:474-498 | choosing q units of a type lowers the remaining budget by q × its actual length, so the budget stays target minus cord minus the lines chosen so far |
| Search.LeafBudget | src/components/LightingCalculator.tsx:446-471 | at the last type a single combination is recorded, and its remainingLength equals the budget passed down |
| Search.GenerateMatches | src/components/LightingCalculator.tsx:441-500 | the recursive search lists, in order, the combinations of the quantity vectors the quantity loops visit |
| Search.EnumerationListsVectors | src/components/LightingCalculator.tsx:441-503 | position by position, the search's list is the list of visited vectors' combinations, each vector fitting the budget left after the cord |
| Search.EnumerationSound | src/components/LightingCalculator.tsx:441-503 | every listed combination is the one its own quantity vector denotes, and that vector fits the budget |
| Search.EnumerationComplete | src/components/LightingCalculator.tsx:474-503 | every non-negative vector that fits the budget has its combination listed |
| Search.EnumerationOrdered | src/components/LightingCalculator.tsx:479-500 | the list is strictly increasing in lexicographic vector order (largest type outermost, quantities from 0 up), so any two positions hold different vectors and different combinations |
| Ranking.Insert | src/components/LightingCalculator.tsx:506-508 | insertion keeps the list sorted by remaining length and adds exactly the new element |
| Ranking.Sort | src/components/LightingCalculator.tsx:506-508 | the sort returns a permutation of its input ordered by ascending remaining length |
| Ranking.SortIsStable | src/components/LightingCalculator.tsx:506-508 | elements with equal remaining length keep their input order |
| Ranking.Ranked | src/components/LightingCalculator.tsx:506-509 | the result has min(3, n) elements, is sorted, is drawn from the input, and nothing left out leaves less over than anything kept |
| Ranking.PrefixKeepsTies | src/components/LightingCalculator.tsx:506-509 | a prefix of a list whose ties are ordered keeps them ordered, and its elements precede every equally ranked element left out |
| Ranking.RankedKeepsTies | src/components/LightingCalculator.tsx:506-509 | sorting and keeping three preserves the input order of ties, among the kept and between kept and cut |
| Calculator.Calculate | src/components/LightingCalculator.tsx:421-513 | the search is refused exactly when the target is not positive, stops silently exactly when the cord does not fit, and returns at most three combinations |
| Calculator.CordReservation | src/components/LightingCalculator.tsx:430-435 | the cord is one 60 mm unit when asked for and none otherwise; only a cord longer than the target stops the search |
| Calculator.ReturnedCombinationsFit | src/components/LightingCalculator.tsx:446-492 | every returned combination denotes a fitting vector, has well-shaped lines, uses no more than the target and keeps remainingLength = target - totalUsedLength >= 0 |
| Calculator.BestIsOptimal | src/components/LightingCalculator.tsx:441-509 | the first result leaves no more over than any fitting vector; every fitting vector's combination is returned or leaves at least as much over as each returned one |
| Calculator.FewResultsAreAll | src/components/LightingCalculator.tsx:506-509 | fewer than three results means every fitting vector's combination is among them |
| Calculator.TiesInEnumerationOrder | src/components/LightingCalculator.tsx:479-509 | returned combinations that leave the same length over are in increasing lexicographic vector order, and each comes lexicographically before every equally good combination that was cut |
| Calculator.UniqueExactFitRanksFirst | src/components/LightingCalculator.tsx:441-509 | a vector filling the budget exactly, the only one using that length, gives the first result |
| Calculator.ExactFitRanksFirst | src/components/LightingCalculator.tsx:430-509 | a 620 mm target with the cord first returns one 600 segment plus the cord, with nothing left over |
| Calculator.SmallTargets | src/components/LightingCalculator.tsx:422-435 | 0 and -5 are refused; 30 mm with the cord stops; 30 mm without it is searched |
| Table.Repeat | src/components/LightingCalculator.tsx:522 | `Array(n).fill(row)` gives n copies of the row |
| Table.ExpandCount | src/components/LightingCalculator.tsx:519-526 | the flattened table has as many rows as the quantities add up to |
| Table.ExpandRows | src/components/LightingCalculator.tsx:519-526 | the rows are exactly the lines with positive quantity, each with its line's type, quantity and used length and the catalog's nominal and actual lengths (0 when not found) |
| Table.DisplayedTotalIsWeighted | src/components/LightingCalculator.tsx:528-531 | the total row is the sum over the lines of quantity × used length |
| Table.TableTotalAsWritten | src/components/LightingCalculator.tsx:519-531 | for any combination the search can return, the total row is at least the used length, and equal to it exactly when every quantity is 1 |
| Table.TableTotalCounterexample | src/components/LightingCalculator.tsx:519-531 | two 300 segments (600 mm used) are shown as two rows of 600 with a total of 1200 |
| Table.CounterexampleRanksFirst | src/components/LightingCalculator.tsx:421-509 | that combination is the first result for a 600 mm target without the cord |
| Table.ExpandPerUnitRows | src/components/LightingCalculator.tsx:519-526 | the per-unit table has one row per unit, each counting one unit and showing its type's actual length as its used length |
| Table.TableTotalCorrected | src/components/LightingCalculator.tsx:528-531 | with per-unit rows the total row equals the combination's totalUsedLength |
| Perimeter.PerimeterEffect | src/components/LightingCalculator.tsx:118-130 | only separate mode with both fields filled changes the total, and a value it sets is even and at least 4 |
| Perimeter.PerimeterOfRectangle | src/components/LightingCalculator.tsx:122-125 | positive sides give the perimeter 2w + 2h, from which the height is recovered given the width |
| Perimeter.ClearedIffSideNotPositive | src/components/LightingCalculator.tsx:119-128 | with both fields filled in separate mode, the total is cleared exactly when a side is not positive |
| Perimeter.TotalUntouched | src/components/LightingCalculator.tsx:119 | outside separate mode, or with an empty field, the total is unchanged |
| Perimeter.EffectStable | src/components/LightingCalculator.tsx:118-130 | re-running the effect changes nothing, and width and height are interchangeable |
| Perimeter.PerimeterExamples | src/components/LightingCalculator.tsx:118-130 | 1200 × 800 gives 4000; a zero side clears the total; an empty field leaves it |

## Left out

- React plumbing is not modelled: component state, effect scheduling, toasts, dialogs, clipboard, and the JSX and CSS of the tables and accordions. Stale results left on screen after the early return become the `CordDoesNotFit` outcome.
- Network I/O is not modelled. This covers loading and saving shared and recent calculations, renaming and deleting them (src/components/LightingCalculator.tsx:168-419), and src/components/SupabaseTest.tsx. These are calls to a remote service whose behaviour is not visible here.
- `parseInt` of the target, width and height fields is not modelled: the target is an `int`, and the perimeter fields are `Option<int>` holding the parsed value. `parseInt("")` gives NaN, which passes the `target <= 0` guard; the search then tries no quantity and returns no combinations. That is JavaScript-number behaviour, not integer logic.
- JavaScript numbers are doubles. The model uses unbounded integers, which agree with them while every value stays at or below Number.MAX_SAFE_INTEGER (2^53 − 1).
- Presentation helpers are not modelled: the default save name, the cut to five recent items, and date and locale formatting.
- workbox-config.js (service-worker caching rules) and src/App.tsx (component composition) contain nothing computational.
- Perimeter.PerimeterEffect: the total field is modelled as a number, not as the string written by `perimeter.toString()`. The perimeter of sides near Number.MAX_SAFE_INTEGER rounds in JavaScript (width 2^53 − 1 and height 2 give 2^54, not 2^54 + 2); that rounding is not modelled.
- Table.Expand: requires non-negative quantities, because `Array(n)` throws for a negative n. Every combination the search returns satisfies this.

## Findings

| source | as written | input that shows it | evidently intended | confidence | as-written member | corrected member |
|---|---|---|---|---|---|---|
| src/components/LightingCalculator.tsx:519-531 | each unit row copies the whole line's `usedLength`, so the total row is Σ quantity × usedLength | target 600 without the cord: the first result is two 300 segments using 600 mm, and the table shows two rows of 600 with total 1200 | one row per unit showing that unit's actual length, so the total equals `totalUsedLength` | not executed | Table.TableTotalCounterexample | Table.TableTotalCorrected |

The total row is labelled 총 사용 길이 ("total used length",
src/components/LightingCalculator.tsx:575-579). It sits directly above the
line 남는 길이 ("remaining length", :587), which shows the combination's own
`remainingLength`. For the 600 mm target above, the card therefore shows a
used length of 1200 next to a remaining length of 0, and the two can only be
read together when the total is `totalUsedLength`. The model keeps the code's
behaviour in `Table.Expand` and states the consistent reading for
`Table.ExpandPerUnit`.
