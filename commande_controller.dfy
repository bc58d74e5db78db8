/** `CommandeController`'s `store`, `update` and `destroy` as operations on
    the two tables they write: `commandes` (orders by id) and
    `commande_items` (item rows in id order, each pointing at its order). */
module CommandeController {
  import opened Totals
  import opened Validation

  /** A `commandes` row of the multi-item shape. */
  datatype Order = Order(clientId: nat, typeId: nat, date: string, status: string,
                         subtotal: real, previousBalance: real, totalDue: real)

  /** A `commande_items` row. */
  datatype ItemRow = ItemRow(id: nat, commandeId: nat, partName: string, quantity: real, rate: real, total: real)

  /** What an action answers: a redirect with a flash message, a validation failure, or a 404. */
  datatype Response = Redirect(message: string) | ValidationFailed(errors: set<Attribute>) | NotFound

  const StoredMessage: string := "Commande enregistrée avec succès!"
  const UpdatedMessage: string := "Commande mise à jour avec succès!"
  const DestroyedMessage: string := "Commande supprimée avec succès!"

  /** The item row written for one line: `part_name = designation`, `rate = unit_price`,
      `total = quantity * unit_price`. */
  function RowOf(l: Line, orderId: nat, itemId: nat): (row: ItemRow)
    ensures row.total == LineTotal(l) && row.commandeId == orderId && row.id == itemId
    ensures row.partName == l.designation && row.quantity == l.quantity && row.rate == l.unitPrice
  {
    ItemRow(itemId, orderId, l.designation, l.quantity, l.unitPrice, l.quantity * l.unitPrice)
  }

  /** The rows the `foreach` over the submitted lines creates, with consecutive fresh ids. */
  function RowsFor(lines: seq<Line>, orderId: nat, firstId: nat): (rows: seq<ItemRow>)
    ensures |rows| == |lines|
    ensures forall k :: 0 <= k < |lines| ==> rows[k] == RowOf(lines[k], orderId, firstId + k)
  {
    seq(|lines|, k requires 0 <= k < |lines| => RowOf(lines[k], orderId, firstId + k))
  }

  /** The sum of the stored `total` column over some rows. */
  function SumTotals(rows: seq<ItemRow>): real
  {
    if |rows| == 0 then 0.0 else SumTotals(rows[..|rows| - 1]) + rows[|rows| - 1].total
  }

  /** The stored item totals of an order add up to the subtotal computed from its lines. */
  lemma {:induction false} RowsForSum(lines: seq<Line>, orderId: nat, firstId: nat)
    ensures SumTotals(RowsFor(lines, orderId, firstId)) == Subtotal(lines)
  {
    if |lines| > 0 {
      var n := |lines|;
      var rows := RowsFor(lines, orderId, firstId);
      assert rows[..n - 1] == RowsFor(lines[..n - 1], orderId, firstId);
      RowsForSum(lines[..n - 1], orderId, firstId);
    }
  }

  /** `store` writes exactly one row per submitted line, in line order, with `part_name` the
      designation, `rate` the unit price and `total` the line's amount; those totals add up to
      the subtotal stored on the order. */
  lemma StoreItemsMatchLines(input: StorePayload, orderId: nat, firstId: nat)
    ensures var rows := RowsFor(input.lines, orderId, firstId);
            |rows| == |input.lines| &&
            (forall k :: 0 <= k < |rows| ==>
               rows[k].commandeId == orderId && rows[k].partName == input.lines[k].designation &&
               rows[k].quantity == input.lines[k].quantity && rows[k].rate == input.lines[k].unitPrice &&
               rows[k].total == LineTotal(input.lines[k])) &&
            SumTotals(rows) == NewOrder(input).subtotal
  {
    RowsForSum(input.lines, orderId, firstId);
  }

  /** `$commande->items`: the rows of one order, in id order. */
  function ItemsOf(rows: seq<ItemRow>, id: nat): (r: seq<ItemRow>)
  {
    if |rows| == 0 then []
    else ItemsOf(rows[..|rows| - 1], id) + (if rows[|rows| - 1].commandeId == id then [rows[|rows| - 1]] else [])
  }

  /** `$commande->items()->delete()`: the rows of one order removed, the others kept in order. */
  function WithoutOrder(rows: seq<ItemRow>, id: nat): (r: seq<ItemRow>)
  {
    if |rows| == 0 then []
    else WithoutOrder(rows[..|rows| - 1], id) + (if rows[|rows| - 1].commandeId == id then [] else [rows[|rows| - 1]])
  }

  /** The rows of an order are exactly the rows that point at it. */
  lemma {:induction false} ItemsOfMembers(rows: seq<ItemRow>, id: nat)
    ensures forall row :: row in ItemsOf(rows, id) <==> row in rows && row.commandeId == id
  {
    if |rows| > 0 {
      var n := |rows|;
      ItemsOfMembers(rows[..n - 1], id);
      assert rows == rows[..n - 1] + [rows[n - 1]];
    }
  }

  /** After the delete, a row remains exactly when it belonged to another order. */
  lemma {:induction false} WithoutOrderMembers(rows: seq<ItemRow>, id: nat)
    ensures forall row :: row in WithoutOrder(rows, id) <==> row in rows && row.commandeId != id
  {
    if |rows| > 0 {
      var n := |rows|;
      WithoutOrderMembers(rows[..n - 1], id);
      assert rows == rows[..n - 1] + [rows[n - 1]];
    }
  }

  lemma {:induction false} ItemsOfAppend(a: seq<ItemRow>, b: seq<ItemRow>, id: nat)
    ensures ItemsOf(a + b, id) == ItemsOf(a, id) + ItemsOf(b, id)
  {
    if |b| == 0 {
      assert a + b == a;
    } else {
      assert (a + b)[..|a + b| - 1] == a + b[..|b| - 1];
      ItemsOfAppend(a, b[..|b| - 1], id);
    }
  }

  lemma {:induction false} ItemsOfNone(rows: seq<ItemRow>, id: nat)
    requires forall k :: 0 <= k < |rows| ==> rows[k].commandeId != id
    ensures ItemsOf(rows, id) == []
  {
    if |rows| > 0 {
      ItemsOfNone(rows[..|rows| - 1], id);
    }
  }

  /** The rows created for one order belong to it alone, in line order. */
  lemma {:induction false} ItemsOfRowsFor(lines: seq<Line>, orderId: nat, firstId: nat, id: nat)
    ensures ItemsOf(RowsFor(lines, orderId, firstId), id) == if id == orderId then RowsFor(lines, orderId, firstId) else []
  {
    var rows := RowsFor(lines, orderId, firstId);
    if |lines| > 0 {
      var n := |lines|;
      assert rows[..n - 1] == RowsFor(lines[..n - 1], orderId, firstId);
      ItemsOfRowsFor(lines[..n - 1], orderId, firstId, id);
    }
  }

  /** Deleting one order's rows leaves every other order's rows exactly as they were. */
  lemma {:induction false} ItemsOfWithout(rows: seq<ItemRow>, id: nat, other: nat)
    ensures ItemsOf(WithoutOrder(rows, id), other) == if other == id then [] else ItemsOf(rows, other)
  {
    if |rows| > 0 {
      var n := |rows|;
      ItemsOfWithout(rows[..n - 1], id, other);
      var last := rows[n - 1];
      var tail := if last.commandeId == id then [] else [last];
      ItemsOfAppend(WithoutOrder(rows[..n - 1], id), tail, other);
    }
  }

  /** The arithmetic invariants of one order against its current rows: at least one item,
      `subtotal` is the sum of the item totals, `total_due = subtotal + previous_balance`. */
  predicate Consistent(order: Order, rows: seq<ItemRow>)
  {
    |rows| >= 1 && SumTotals(rows) == order.subtotal &&
    order.totalDue == order.subtotal + order.previousBalance
  }

  /** The order `store` creates from a validated payload. */
  function NewOrder(input: StorePayload): (o: Order)
    ensures o.subtotal == Subtotal(input.lines)
    ensures o.totalDue == TotalDue(o.subtotal, o.previousBalance)
    ensures o.previousBalance == input.previousBalance
    ensures o.clientId == input.clientId && o.typeId == input.typeId && o.date == input.date && o.status == input.status
  {
    var subtotal := Subtotal(input.lines);
    Order(input.clientId, input.typeId, input.date, input.status,
          subtotal, input.previousBalance, TotalDue(subtotal, input.previousBalance))
  }

  /** The order `update` leaves: new client, date and totals; same type and status. */
  function UpdatedOrder(prev: Order, input: UpdatePayload): (o: Order)
    ensures o.typeId == prev.typeId && o.status == prev.status
    ensures o.clientId == input.clientId && o.date == input.date
    ensures o.subtotal == Subtotal(input.lines)
    ensures o.previousBalance == input.previousBalance
    ensures o.totalDue == TotalDue(o.subtotal, input.previousBalance)
  {
    var subtotal := Subtotal(input.lines);
    prev.(clientId := input.clientId, date := input.date, subtotal := subtotal,
          previousBalance := input.previousBalance, totalDue := TotalDue(subtotal, input.previousBalance))
  }

  /** On create no balance is carried, so the total due is the subtotal. */
  lemma StoredTotalDueIsSubtotal(req: Request, clients: set<nat>, types: set<nat>, isDate: string -> bool)
    requires StoreValid(req, clients, types, isDate)
    ensures var o := NewOrder(StoreInput(req, clients, types, isDate));
            o.totalDue == o.subtotal && o.previousBalance == 0.0
  {
  }

  /** A row's stored `total` is its `quantity * rate`. */
  predicate TotalKept(row: ItemRow)
  {
    row.total == row.quantity * row.rate
  }

  /** Every order's id was issued, and its client and type exist. */
  ghost predicate OrdersReferenced(clients: set<nat>, types: set<nat>, orders: map<nat, Order>, nextOrderId: nat)
  {
    forall id :: id in orders ==> id < nextOrderId && orders[id].clientId in clients && orders[id].typeId in types
  }

  /** Every row's id was issued, its order exists, and its total is `quantity * rate`. */
  ghost predicate RowsReferenced(orders: map<nat, Order>, items: seq<ItemRow>, nextItemId: nat)
  {
    forall k :: 0 <= k < |items| ==> items[k].id < nextItemId && items[k].commandeId in orders && TotalKept(items[k])
  }

  /** Every order agrees with its current rows. */
  ghost predicate OrdersAgree(orders: map<nat, Order>, items: seq<ItemRow>)
  {
    forall id :: id in orders ==> Consistent(orders[id], ItemsOf(items, id))
  }

  /** The database invariant: foreign keys hold, item totals are `quantity * rate`,
      and every order agrees with its rows. */
  ghost predicate WellFormed(clients: set<nat>, types: set<nat>, orders: map<nat, Order>, items: seq<ItemRow>,
                             nextOrderId: nat, nextItemId: nat)
  {
    OrdersReferenced(clients, types, orders, nextOrderId) &&
    RowsReferenced(orders, items, nextItemId) &&
    OrdersAgree(orders, items)
  }

  /** The rows created for one order point at it, carry fresh ids and keep their totals. */
  lemma RowsForReferenced(lines: seq<Line>, orderId: nat, firstId: nat)
    ensures var rows := RowsFor(lines, orderId, firstId);
            forall k :: 0 <= k < |rows| ==>
              firstId <= rows[k].id < firstId + |lines| && rows[k].commandeId == orderId && TotalKept(rows[k])
  {
  }

  /** Appending rows of an existing order keeps every row referenced. */
  lemma AppendReferenced(orders: map<nat, Order>, items: seq<ItemRow>, nextItemId: nat,
                         lines: seq<Line>, orderId: nat)
    requires RowsReferenced(orders, items, nextItemId) && orderId in orders
    ensures RowsReferenced(orders, items + RowsFor(lines, orderId, nextItemId), nextItemId + |lines|)
  {
    var added := RowsFor(lines, orderId, nextItemId);
    RowsForReferenced(lines, orderId, nextItemId);
    var items' := items + added;
    forall k | 0 <= k < |items'|
      ensures items'[k].id < nextItemId + |lines| && items'[k].commandeId in orders && TotalKept(items'[k])
    {
      if k >= |items| {
        assert items'[k] == added[k - |items|];
      }
    }
  }

  /** An order with no row yet has no items. */
  lemma AbsentOrderHasNoRows(orders: map<nat, Order>, items: seq<ItemRow>, nextItemId: nat, id: nat)
    requires RowsReferenced(orders, items, nextItemId) && id !in orders
    ensures ItemsOf(items, id) == []
  {
    ItemsOfNone(items, id);
  }

  /** Appending one order's rows changes no other order's items. */
  lemma AppendKeepsOthers(items: seq<ItemRow>, lines: seq<Line>, orderId: nat, firstId: nat, other: nat)
    requires other != orderId
    ensures ItemsOf(items + RowsFor(lines, orderId, firstId), other) == ItemsOf(items, other)
  {
    ItemsOfAppend(items, RowsFor(lines, orderId, firstId), other);
    ItemsOfRowsFor(lines, orderId, firstId, other);
  }

  /** Appending one order's rows to a table holding none of its rows makes them its items. */
  lemma AppendBecomesItems(items: seq<ItemRow>, lines: seq<Line>, orderId: nat, firstId: nat)
    requires ItemsOf(items, orderId) == []
    ensures ItemsOf(items + RowsFor(lines, orderId, firstId), orderId) == RowsFor(lines, orderId, firstId)
  {
    ItemsOfAppend(items, RowsFor(lines, orderId, firstId), orderId);
    ItemsOfRowsFor(lines, orderId, firstId, orderId);
  }

  /** An order whose totals were computed from its lines agrees with the rows created from them. */
  lemma FreshRowsAgree(order: Order, lines: seq<Line>, orderId: nat, firstId: nat)
    requires |lines| >= 1 && order.subtotal == Subtotal(lines)
    requires order.totalDue == order.subtotal + order.previousBalance
    ensures Consistent(order, RowsFor(lines, orderId, firstId))
  {
    RowsForSum(lines, orderId, firstId);
  }

  /** Creating an order and its rows under a fresh id keeps the database well formed. */
  lemma StoreKeepsWellFormed(clients: set<nat>, types: set<nat>, orders: map<nat, Order>, items: seq<ItemRow>,
                             nextOrderId: nat, nextItemId: nat, input: StorePayload)
    requires WellFormed(clients, types, orders, items, nextOrderId, nextItemId)
    requires input.clientId in clients && input.typeId in types && |input.lines| >= 1
    ensures nextOrderId !in orders
    ensures var added := RowsFor(input.lines, nextOrderId, nextItemId);
            ItemsOf(items + added, nextOrderId) == added &&
            WellFormed(clients, types, orders[nextOrderId := NewOrder(input)], items + added,
                       nextOrderId + 1, nextItemId + |input.lines|)
  {
    var id := nextOrderId;
    var added := RowsFor(input.lines, id, nextItemId);
    var orders' := orders[id := NewOrder(input)];
    var items' := items + added;
    assert id !in orders;
    assert OrdersReferenced(clients, types, orders', id + 1);
    assert RowsReferenced(orders', items, nextItemId) by {
      forall k | 0 <= k < |items| ensures items[k].commandeId in orders' {
      }
    }
    AppendReferenced(orders', items, nextItemId, input.lines, id);
    AbsentOrderHasNoRows(orders, items, nextItemId, id);
    AppendBecomesItems(items, input.lines, id, nextItemId);
    FreshRowsAgree(orders'[id], input.lines, id, nextItemId);
    forall o | o in orders' ensures Consistent(orders'[o], ItemsOf(items', o)) {
      if o != id {
        AppendKeepsOthers(items, input.lines, id, nextItemId, o);
      }
    }
  }

  /** Replacing an order's rows (delete, then insert rows with fresh ids): its items are exactly
      the new rows, none of its prior rows remains, and every other order keeps its items. */
  lemma ReplaceItems(items: seq<ItemRow>, id: nat, lines: seq<Line>, firstId: nat)
    requires forall k :: 0 <= k < |items| ==> items[k].id < firstId
    ensures var items' := WithoutOrder(items, id) + RowsFor(lines, id, firstId);
            ItemsOf(items', id) == RowsFor(lines, id, firstId) &&
            (forall row :: row in items && row.commandeId == id ==> row !in items') &&
            (forall o :: o != id ==> ItemsOf(items', o) == ItemsOf(items, o))
  {
    var kept := WithoutOrder(items, id);
    var added := RowsFor(lines, id, firstId);
    var items' := kept + added;
    ItemsOfWithout(items, id, id);
    AppendBecomesItems(kept, lines, id, firstId);
    forall o | o != id ensures ItemsOf(items', o) == ItemsOf(items, o) {
      ItemsOfWithout(items, id, o);
      AppendKeepsOthers(kept, lines, id, firstId, o);
    }
    WithoutOrderMembers(items, id);
    RowsForReferenced(lines, id, firstId);
    forall row | row in items && row.commandeId == id ensures row !in items' {
      var j :| 0 <= j < |items| && items[j] == row;
      assert row.id < firstId;
      assert row !in added;
    }
  }

  /** Deleting an order's rows: none of its rows remains, and every other order keeps its items. */
  lemma RemoveItems(items: seq<ItemRow>, id: nat)
    ensures var items' := WithoutOrder(items, id);
            (forall row :: row in items' ==> row.commandeId != id) &&
            (forall o :: o != id ==> ItemsOf(items', o) == ItemsOf(items, o))
  {
    WithoutOrderMembers(items, id);
    forall o | o != id ensures ItemsOf(WithoutOrder(items, id), o) == ItemsOf(items, o) {
      ItemsOfWithout(items, id, o);
    }
  }

  /** Replacing one existing order's totals and rows keeps the database well formed,
      and leaves every other order's rows as they were. */
  lemma UpdateKeepsWellFormed(clients: set<nat>, types: set<nat>, orders: map<nat, Order>, items: seq<ItemRow>,
                              nextOrderId: nat, nextItemId: nat, id: nat, input: UpdatePayload)
    requires WellFormed(clients, types, orders, items, nextOrderId, nextItemId)
    requires id in orders && input.clientId in clients && |input.lines| >= 1
    ensures WellFormed(clients, types, orders[id := UpdatedOrder(orders[id], input)],
                       WithoutOrder(items, id) + RowsFor(input.lines, id, nextItemId),
                       nextOrderId, nextItemId + |input.lines|)
  {
    var kept := WithoutOrder(items, id);
    var orders' := orders[id := UpdatedOrder(orders[id], input)];
    var items' := kept + RowsFor(input.lines, id, nextItemId);
    assert OrdersReferenced(clients, types, orders', nextOrderId);
    WithoutOrderMembers(items, id);
    assert RowsReferenced(orders', kept, nextItemId) by {
      forall k | 0 <= k < |kept| ensures kept[k].id < nextItemId && kept[k].commandeId in orders' && TotalKept(kept[k]) {
        assert kept[k] in items;
      }
    }
    AppendReferenced(orders', kept, nextItemId, input.lines, id);
    ReplaceItems(items, id, input.lines, nextItemId);
    FreshRowsAgree(orders'[id], input.lines, id, nextItemId);
  }

  /** Removing an order and its rows keeps the database well formed,
      and leaves every other order's rows as they were. */
  lemma DestroyKeepsWellFormed(clients: set<nat>, types: set<nat>, orders: map<nat, Order>, items: seq<ItemRow>,
                               nextOrderId: nat, nextItemId: nat, id: nat)
    requires WellFormed(clients, types, orders, items, nextOrderId, nextItemId)
    ensures WellFormed(clients, types, orders - {id}, WithoutOrder(items, id), nextOrderId, nextItemId)
  {
    var items' := WithoutOrder(items, id);
    var orders' := orders - {id};
    RemoveItems(items, id);
    WithoutOrderMembers(items, id);
    assert RowsReferenced(orders', items', nextItemId) by {
      forall k | 0 <= k < |items'| ensures items'[k].id < nextItemId && items'[k].commandeId in orders' && TotalKept(items'[k]) {
        assert items'[k] in items;
      }
    }
  }

  /** The database the controller writes. Clients and types are reference data here. */
  class Database {
    const clients: set<nat>
    const types: set<nat>
    /** Whether `strtotime` accepts a string, as the `date` rule asks. */
    const isDate: string -> bool
    var orders: map<nat, Order>
    var items: seq<ItemRow>
    var nextOrderId: nat
    var nextItemId: nat

    ghost predicate Valid()
      reads this
    {
      WellFormed(clients, types, orders, items, nextOrderId, nextItemId)
    }

    constructor (clients: set<nat>, types: set<nat>, isDate: string -> bool)
      ensures Valid()
      ensures this.clients == clients && this.types == types && this.isDate == isDate
      ensures orders == map[] && items == []
    {
      this.clients := clients;
      this.types := types;
      this.isDate := isDate;
      orders := map[];
      items := [];
      nextOrderId := 1;
      nextItemId := 1;
    }

    /** The `foreach` that creates one item row per line, in order. */
    method InsertItems(orderId: nat, lines: seq<Line>)
      modifies this`items, this`nextItemId
      ensures items == old(items) + RowsFor(lines, orderId, old(nextItemId))
      ensures nextItemId == old(nextItemId) + |lines|
    {
      ghost var first := nextItemId;
      var i := 0;
      while i < |lines|
        invariant 0 <= i <= |lines|
        invariant nextItemId == first + i
        invariant items == old(items) + RowsFor(lines[..i], orderId, first)
      {
        assert RowsFor(lines[..i + 1], orderId, first) == RowsFor(lines[..i], orderId, first) + [RowOf(lines[i], orderId, nextItemId)];
        items := items + [RowOf(lines[i], orderId, nextItemId)];
        nextItemId := nextItemId + 1;
        i := i + 1;
      }
      assert lines[..i] == lines;
    }

    /** `store`: validate, create the order with its totals, then one item row per line.
        A rejected payload changes nothing. */
    method Store(req: Request) returns (resp: Response)
      requires Valid()
      modifies this
      ensures Valid()
      ensures var errs := StoreErrors(req, clients, types, isDate);
              errs != {} ==>
                resp == ValidationFailed(errs) && orders == old(orders) && items == old(items) &&
                nextOrderId == old(nextOrderId) && nextItemId == old(nextItemId)
      ensures StoreValid(req, clients, types, isDate) ==>
                var input := StoreInput(req, clients, types, isDate);
                var id := old(nextOrderId);
                resp == Redirect(StoredMessage) && id !in old(orders) &&
                orders == old(orders)[id := NewOrder(input)] &&
                items == old(items) + RowsFor(input.lines, id, old(nextItemId)) &&
                nextOrderId == id + 1 && nextItemId == old(nextItemId) + |input.lines|
    {
      var errs := StoreErrors(req, clients, types, isDate);
      if errs != {} {
        return ValidationFailed(errs);
      }
      var input := StoreInput(req, clients, types, isDate);
      Create(input);
      resp := Redirect(StoredMessage);
    }

    /** `Commande::create` with the computed totals, then the `foreach` creating the item rows. */
    method Create(input: StorePayload)
      requires Valid()
      requires input.clientId in clients && input.typeId in types && |input.lines| >= 1
      modifies this
      ensures Valid()
      ensures old(nextOrderId) !in old(orders)
      ensures orders == old(orders)[old(nextOrderId) := NewOrder(input)]
      ensures items == old(items) + RowsFor(input.lines, old(nextOrderId), old(nextItemId))
      ensures nextOrderId == old(nextOrderId) + 1 && nextItemId == old(nextItemId) + |input.lines|
    {
      StoreKeepsWellFormed(clients, types, orders, items, nextOrderId, nextItemId, input);
      var subtotal := Subtotal(input.lines);
      var totalDue := subtotal + input.previousBalance;
      var id := nextOrderId;
      var order := Order(input.clientId, input.typeId, input.date, input.status,
                         subtotal, input.previousBalance, totalDue);
      assert order == NewOrder(input);
      orders := orders[id := order];
      nextOrderId := nextOrderId + 1;
      InsertItems(id, input.lines);
    }

    /** `update`: look the order up (404 if absent), validate, rewrite client, date and totals,
        delete every item of the order and create the submitted ones. */
    method Update(id: nat, req: Request) returns (resp: Response)
      requires Valid()
      modifies this
      ensures Valid()
      ensures id !in old(orders) ==>
                resp == NotFound && orders == old(orders) && items == old(items) &&
                nextOrderId == old(nextOrderId) && nextItemId == old(nextItemId)
      ensures var errs := UpdateErrors(req, clients, isDate);
              id in old(orders) && errs != {} ==>
                resp == ValidationFailed(errs) && orders == old(orders) && items == old(items) &&
                nextOrderId == old(nextOrderId) && nextItemId == old(nextItemId)
      ensures id in old(orders) && UpdateValid(req, clients, isDate) ==>
                var input := UpdateInput(req, clients, isDate);
                resp == Redirect(UpdatedMessage) &&
                orders == old(orders)[id := UpdatedOrder(old(orders)[id], input)] &&
                items == WithoutOrder(old(items), id) + RowsFor(input.lines, id, old(nextItemId)) &&
                nextOrderId == old(nextOrderId) && nextItemId == old(nextItemId) + |input.lines|
    {
      if id !in orders {
        return NotFound;
      }
      var errs := UpdateErrors(req, clients, isDate);
      if errs != {} {
        return ValidationFailed(errs);
      }
      var input := UpdateInput(req, clients, isDate);
      Rewrite(id, input);
      resp := Redirect(UpdatedMessage);
    }

    /** `$commande->update(...)` with the recomputed totals, `$commande->items()->delete()`,
        then the `foreach` creating the submitted item rows. */
    method Rewrite(id: nat, input: UpdatePayload)
      requires Valid()
      requires id in orders && input.clientId in clients && |input.lines| >= 1
      modifies this
      ensures Valid()
      ensures orders == old(orders)[id := UpdatedOrder(old(orders)[id], input)]
      ensures items == WithoutOrder(old(items), id) + RowsFor(input.lines, id, old(nextItemId))
      ensures nextOrderId == old(nextOrderId) && nextItemId == old(nextItemId) + |input.lines|
    {
      UpdateKeepsWellFormed(clients, types, orders, items, nextOrderId, nextItemId, id, input);
      var subtotal := Subtotal(input.lines);
      var totalDue := subtotal + input.previousBalance;
      var order := orders[id].(clientId := input.clientId, date := input.date, subtotal := subtotal,
                               previousBalance := input.previousBalance, totalDue := totalDue);
      assert order == UpdatedOrder(orders[id], input);
      orders := orders[id := order];
      items := WithoutOrder(items, id);
      InsertItems(id, input.lines);
    }

    /** `destroy`: look the order up (404 if absent), delete its items, then the order. */
    method Destroy(id: nat) returns (resp: Response)
      requires Valid()
      modifies this
      ensures Valid()
      ensures nextOrderId == old(nextOrderId) && nextItemId == old(nextItemId)
      ensures id !in old(orders) ==> resp == NotFound && orders == old(orders) && items == old(items)
      ensures id in old(orders) ==>
                resp == Redirect(DestroyedMessage) &&
                orders == old(orders) - {id} &&
                items == WithoutOrder(old(items), id)
    {
      if id !in orders {
        return NotFound;
      }
      DestroyKeepsWellFormed(clients, types, orders, items, nextOrderId, nextItemId, id);
      items := WithoutOrder(items, id);
      orders := orders - {id};
      resp := Redirect(DestroyedMessage);
    }
  }
}
