/** The order create form: its initial values and `handleSubmit`, which checks that a
    client and a type are selected, looks their names up with a fallback, computes the
    total and opens the receipt. */
module CreatePage {
  import opened Values

  /** A client or a type as the page receives it. */
  datatype Entity = Entity(id: nat, name: string)

  /** The form's `data`. */
  datatype CreateForm = CreateForm(clientId: string, typeId: string, date: string, quantity: real, unitPrice: real,
                                   status: string)

  /** What `setReceiptData` stores on a successful submit. */
  datatype CreateReceipt = CreateReceipt(clientName: string, typeName: string, date: string, quantity: real,
                                         unitPrice: real, total: real, status: string)

  /** What one submit does: an error toast, or a receipt to show. */
  datatype Outcome = Rejected(message: string) | Shown(receipt: CreateReceipt)

  const MissingSelection: string := "Please select both client and type"
  const UnknownClient: string := "Unknown Client"
  const UnknownType: string := "Unknown Type"

  /** The initial form: nothing selected, one unit at price 0, empty status, today's date. */
  function InitialForm(today: string): (f: CreateForm)
    ensures f.clientId == "" && f.typeId == "" && f.quantity == 1.0 && f.unitPrice == 0.0
    ensures f.status == "" && f.date == today
  {
    CreateForm("", "", today, 1.0, 0.0, "")
  }

  /** Whether an entity's id, as a string, is `key`. */
  predicate Matches(e: Entity, key: string) { NatToString(e.id) == key }

  /** `find(e => e.id.toString() === key)`: the index of the first entity whose id string is `key`. */
  function FirstMatch(entities: seq<Entity>, key: string): (r: Option<nat>)
    ensures r.Some? ==> r.value < |entities| && Matches(entities[r.value], key)
    ensures r.Some? ==> forall j :: 0 <= j < r.value ==> !Matches(entities[j], key)
    ensures r.None? ==> forall j :: 0 <= j < |entities| ==> !Matches(entities[j], key)
  {
    if |entities| == 0 then None
    else if Matches(entities[0], key) then Some(0)
    else
      var rest := FirstMatch(entities[1..], key);
      if rest.Some? then Some(rest.value + 1) else None
  }

  /** `find(...)?.name || fallback`: the first match's name, or the fallback when nothing
      matches or the name is empty. */
  function LookupName(entities: seq<Entity>, key: string, fallback: string): (name: string)
    ensures name != fallback ==> exists j :: 0 <= j < |entities| && Matches(entities[j], key) && entities[j].name == name
    ensures FirstMatch(entities, key).None? ==> name == fallback
    ensures name == "" ==> fallback == ""
  {
    var m := FirstMatch(entities, key);
    if m.Some? && entities[m.value].name != "" then entities[m.value].name else fallback
  }

  /** When ids are distinct, selecting an entity by its id finds its name (or the fallback if it has none). */
  lemma LookupFindsSelected(entities: seq<Entity>, i: nat, fallback: string)
    requires i < |entities|
    requires forall j, k :: 0 <= j < k < |entities| ==> entities[j].id != entities[k].id
    ensures entities[i].name != "" ==> LookupName(entities, NatToString(entities[i].id), fallback) == entities[i].name
    ensures entities[i].name == "" ==> LookupName(entities, NatToString(entities[i].id), fallback) == fallback
  {
    var key := NatToString(entities[i].id);
    var m := FirstMatch(entities, key);
    assert Matches(entities[i], key);
    assert m.Some?;
    if m.value != i {
      assert m.value < i;
      NatToStringInjective(entities[m.value].id, entities[i].id);
    }
  }

  /** A selection that is not a canonical decimal id (letters, a sign, a leading zero) never
      matches, so it gets the fallback. */
  lemma NonCanonicalKeyFallsBack(entities: seq<Entity>, key: string, fallback: string)
    requires !AllDigits(key) || key == "" || (|key| > 1 && key[0] == '0')
    ensures LookupName(entities, key, fallback) == fallback
  {
  }

  /** `handleSubmit` as a value: reject when either selection is empty, otherwise the receipt
      with looked-up names, the form's fields copied, and `quantity * unit_price` as total. */
  function Submit(form: CreateForm, clients: seq<Entity>, types: seq<Entity>): (o: Outcome)
    ensures o.Rejected? <==> form.clientId == "" || form.typeId == ""
    ensures o.Rejected? ==> o.message == MissingSelection
    ensures o.Shown? ==> o.receipt.total == o.receipt.quantity * o.receipt.unitPrice
    ensures o.Shown? ==> o.receipt.date == form.date && o.receipt.quantity == form.quantity &&
                         o.receipt.unitPrice == form.unitPrice && o.receipt.status == form.status
    ensures o.Shown? ==> o.receipt.clientName == LookupName(clients, form.clientId, UnknownClient) &&
                         o.receipt.typeName == LookupName(types, form.typeId, UnknownType)
  {
    if form.clientId == "" || form.typeId == "" then Rejected(MissingSelection)
    else
      Shown(CreateReceipt(LookupName(clients, form.clientId, UnknownClient), LookupName(types, form.typeId, UnknownType),
                          form.date, form.quantity, form.unitPrice, form.quantity * form.unitPrice, form.status))
  }

  /** The component state of the create page. */
  class CreatePage {
    const clients: seq<Entity>
    const types: seq<Entity>
    var data: CreateForm
    var showReceipt: bool
    /** `None` is the initial empty `{}`. */
    var receiptData: Option<CreateReceipt>
    /** The error toasts shown, oldest first. */
    var toasts: seq<string>

    /** The page as first rendered; `today` stands for the clock's current date. */
    constructor (clients: seq<Entity>, types: seq<Entity>, today: string)
      ensures this.clients == clients && this.types == types
      ensures data == InitialForm(today)
      ensures !showReceipt && receiptData.None? && toasts == []
    {
      this.clients := clients;
      this.types := types;
      data := InitialForm(today);
      showReceipt := false;
      receiptData := None;
      toasts := [];
    }

    /** `handleSubmit`: on a missing selection show an error and keep the receipt state;
        otherwise store the receipt and open it. The form itself is not changed. */
    method HandleSubmit()
      modifies this`showReceipt, this`receiptData, this`toasts
      ensures Submit(data, clients, types).Rejected? ==>
                toasts == old(toasts) + [MissingSelection] &&
                showReceipt == old(showReceipt) && receiptData == old(receiptData)
      ensures Submit(data, clients, types).Shown? ==>
                toasts == old(toasts) && showReceipt &&
                receiptData == Some(Submit(data, clients, types).receipt)
    {
      if data.clientId == "" || data.typeId == "" {
        toasts := toasts + [MissingSelection];
        return;
      }
      var clientName := LookupName(clients, data.clientId, UnknownClient);
      var typeName := LookupName(types, data.typeId, UnknownType);
      var total := data.quantity * data.unitPrice;
      receiptData := Some(CreateReceipt(clientName, typeName, data.date, data.quantity, data.unitPrice, total, data.status));
      showReceipt := true;
      assert receiptData.value == Submit(data, clients, types).receipt;
    }
  }

  /** Submitting the untouched form always shows the selection error. */
  lemma InitialSubmitRejected(today: string, clients: seq<Entity>, types: seq<Entity>)
    ensures Submit(InitialForm(today), clients, types) == Rejected(MissingSelection)
  {
  }
}
