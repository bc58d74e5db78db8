/** The legacy single-line shape of the `Commande` model: a stored
    `total_amount`, a mutable `paid_amount`, and `rest` re-derived from them. */
module CommandeModel {

  /** The attributes of one legacy `commandes` row. */
  datatype LegacyRow = LegacyRow(clientId: nat, typeId: nat, date: string, quantity: int, unitPrice: real,
                                 totalAmount: real, paidAmount: real, rest: real, status: string)

  /** The computed column of the migration: `rest = total_amount - paid_amount`. */
  predicate RestConsistent(row: LegacyRow)
  {
    row.rest == row.totalAmount - row.paidAmount
  }

  /** The attribute change `setPaidAmount(p)` makes before saving. */
  function SetPaid(row: LegacyRow, p: real): (r: LegacyRow)
    ensures r.paidAmount == p
    ensures r.rest + p == row.totalAmount
    ensures RestConsistent(r)
    ensures r.totalAmount == row.totalAmount && r.quantity == row.quantity && r.unitPrice == row.unitPrice
    ensures r.clientId == row.clientId && r.typeId == row.typeId && r.date == row.date && r.status == row.status
  {
    row.(paidAmount := p, rest := row.totalAmount - p)
  }

  /** Paying the same amount twice leaves the row as paying it once. */
  lemma SetPaidIdempotent(row: LegacyRow, p: real)
    ensures SetPaid(SetPaid(row, p), p) == SetPaid(row, p)
  {
  }

  /** Only the last payment recorded counts. */
  lemma SetPaidOverwrites(row: LegacyRow, p: real, q: real)
    ensures SetPaid(SetPaid(row, p), q) == SetPaid(row, q)
  {
  }

  /** There is no overpayment guard: the rest goes negative exactly when more than the total is paid. */
  lemma NoOverpaymentGuard(row: LegacyRow, p: real)
    ensures SetPaid(row, p).rest < 0.0 <==> p > row.totalAmount
    ensures SetPaid(row, p).rest == 0.0 <==> p == row.totalAmount
  {
  }

  /** An order of 10 units at 2.5 comes to 25 with 25 outstanding; paying 10 leaves 15. */
  lemma LegacyExample()
    ensures var row := LegacyRow(1, 1, "2025-05-12", 10, 2.5, 10.0 * 2.5, 0.0, 10.0 * 2.5 - 0.0, "pending");
            row.totalAmount == 25.0 && row.rest == 25.0 && SetPaid(row, 10.0).rest == 15.0
  {
  }

  /** The Eloquent model instance; `persisted` is the row as `save()` last wrote it. */
  class Commande {
    var clientId: nat
    var typeId: nat
    var date: string
    var quantity: int
    var unitPrice: real
    var totalAmount: real
    var paidAmount: real
    var rest: real
    var status: string
    var persisted: LegacyRow

    /** The instance's current attributes. */
    function Attributes(): LegacyRow
      reads this
    {
      LegacyRow(clientId, typeId, date, quantity, unitPrice, totalAmount, paidAmount, rest, status)
    }

    /** A model loaded from a stored row. */
    constructor (row: LegacyRow)
      ensures Attributes() == row && persisted == row
    {
      clientId, typeId, date, quantity, unitPrice := row.clientId, row.typeId, row.date, row.quantity, row.unitPrice;
      totalAmount, paidAmount, rest, status := row.totalAmount, row.paidAmount, row.rest, row.status;
      persisted := row;
    }

    /** `calculateRest`: what is still owed, `total_amount - paid_amount`. */
    function CalculateRest(): (r: real)
      reads this
      ensures r + paidAmount == totalAmount
      ensures r < 0.0 <==> paidAmount > totalAmount
    {
      totalAmount - paidAmount
    }

    /** `save`: write the current attributes to the row. */
    method Save()
      modifies this`persisted
      ensures persisted == Attributes()
    {
      persisted := Attributes();
    }

    /** `setPaidAmount`: record the paid amount, re-derive `rest`, then save. */
    method SetPaidAmount(p: real)
      modifies this
      ensures Attributes() == SetPaid(old(Attributes()), p)
      ensures paidAmount == p && rest == totalAmount - p
      ensures totalAmount == old(totalAmount) && quantity == old(quantity) && unitPrice == old(unitPrice)
      ensures clientId == old(clientId) && typeId == old(typeId) && date == old(date) && status == old(status)
      ensures persisted == Attributes()
    {
      paidAmount := p;
      rest := CalculateRest();
      Save();
    }
  }

  /** Calling `setPaidAmount` twice with the same amount ends in the same state as calling it once. */
  method SetPaidAmountTwice(c: Commande, p: real)
    modifies c
    ensures c.Attributes() == SetPaid(old(c.Attributes()), p)
    ensures c.persisted == c.Attributes()
  {
    c.SetPaidAmount(p);
    c.SetPaidAmount(p);
    SetPaidIdempotent(old(c.Attributes()), p);
  }
}
