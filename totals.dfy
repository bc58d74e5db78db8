/** The ledger arithmetic of an order: one amount per line, the subtotal
    summed over the lines in order, and the total due with a carried balance. */
module Totals {

  /** One validated order line: `designation`, `quantity`, `unit_price`. */
  datatype Line = Line(designation: string, quantity: real, unitPrice: real)

  /** `quantity * unit_price`, the amount of one line. */
  function LineTotal(l: Line): real
  {
    l.quantity * l.unitPrice
  }

  /** The sum the controller's `collect(...)->sum(...)` closure accumulates, line by line in order. */
  function Subtotal(lines: seq<Line>): real
  {
    if |lines| == 0 then 0.0 else Subtotal(lines[..|lines| - 1]) + LineTotal(lines[|lines| - 1])
  }

  /** `subtotal + previous_balance`. */
  function TotalDue(subtotal: real, previousBalance: real): (r: real)
    ensures r - previousBalance == subtotal
  {
    subtotal + previousBalance
  }

  /** Summing two runs of lines separately and adding gives the sum of both runs. */
  lemma {:induction false} SubtotalAppend(a: seq<Line>, b: seq<Line>)
    ensures Subtotal(a + b) == Subtotal(a) + Subtotal(b)
  {
    if |b| == 0 {
      assert a + b == a;
    } else {
      assert (a + b)[..|a + b| - 1] == a + b[..|b| - 1];
      SubtotalAppend(a, b[..|b| - 1]);
    }
  }

  /** The subtotal also unfolds from the first line, which is how a left-to-right reduce reads it. */
  lemma SubtotalCons(l: Line, rest: seq<Line>)
    ensures Subtotal([l] + rest) == LineTotal(l) + Subtotal(rest)
  {
    SubtotalAppend([l], rest);
    assert [l][..0] == [];
  }

  predicate NonNegativeLines(lines: seq<Line>)
  {
    forall i :: 0 <= i < |lines| ==> lines[i].quantity >= 0.0 && lines[i].unitPrice >= 0.0
  }

  /** With no negative quantity or price (what both validations demand) the subtotal is not negative. */
  lemma {:induction false} SubtotalNonNegative(lines: seq<Line>)
    requires NonNegativeLines(lines)
    ensures Subtotal(lines) >= 0.0
  {
    if |lines| > 0 {
      var last := lines[|lines| - 1];
      assert last.quantity >= 0.0 && last.unitPrice >= 0.0;
      assert LineTotal(last) >= 0.0;
      SubtotalNonNegative(lines[..|lines| - 1]);
    }
  }

  /** A one-line order of 6760 units of bone grinding at 0.80 comes to 5408.00, with nothing carried over. */
  lemma BoneGrindExample()
    ensures var lines := [Line("Bone grind", 6760.0, 0.80)];
            Subtotal(lines) == 5408.0 && TotalDue(Subtotal(lines), 0.0) == 5408.0
  {
    var lines := [Line("Bone grind", 6760.0, 0.80)];
    assert lines[..0] == [];
  }
}
