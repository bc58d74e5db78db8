/** The order edit form: its initial state and the two operations on its item list,
    changing one field of one item and appending a default item. Items are plain
    key/value objects, since which keys they carry is what decides what is shown
    and what the server accepts. */
module EditPage {
  import opened Values
  import Validation
  import Totals
  import CommandeController

  /** One item of the form's list, a JavaScript object. */
  type FormItem = map<string, Value>

  /** The editable fields of an item, `keyof CommandeItem`. */
  datatype ItemField = Designation | Quantity | UnitPrice

  /** The object key `handleItemChange` writes for a field. */
  function Key(f: ItemField): (k: string)
    ensures k in {"designation", "quantity", "unit_price"}
  {
    match f
    case Designation => "designation"
    case Quantity => "quantity"
    case UnitPrice => "unit_price"
  }

  /** The item `handleAddItem` appends. */
  function DefaultItem(): (item: FormItem)
    ensures Field(item, "designation") == Str("") && Field(item, "quantity") == Num(1.0)
    ensures Field(item, "unit_price") == Num(0.0)
    ensures item.Keys == {"designation", "quantity", "unit_price"}
  {
    map["designation" := Str(""), "quantity" := Num(1.0), "unit_price" := Num(0.0)]
  }

  /** `client_id`/`type_id` arrive as a number or a string. */
  datatype IdProp = NumId(n: nat) | StrId(s: string)

  /** `toString()` of an id prop. */
  function IdText(id: IdProp): (s: string)
    ensures id.StrId? ==> s == id.s
    ensures id.NumId? ==> AllDigits(s) && |s| >= 1 && ParseNat(s) == id.n
  {
    match id
    case NumId(n) => ParseNatToString(n); NatToString(n)
    case StrId(s) => s
  }

  /** The `commande` prop; `items` may be absent. */
  datatype CommandeProps = CommandeProps(id: nat, clientId: IdProp, typeId: IdProp, date: string, status: string,
                                         items: Option<seq<FormItem>>)

  /** `commande.items || []`. */
  function InitialItems(items: Option<seq<FormItem>>): (r: seq<FormItem>)
    ensures items.Some? ==> r == items.value
    ensures items.None? ==> r == []
  {
    if items.Some? then items.value else []
  }

  /** The item list after `handleItemChange(index, field, value)`: field `field` of item `index` set to `value`. */
  function ChangeItem(items: seq<FormItem>, index: nat, field: ItemField, value: Value): (r: seq<FormItem>)
    requires index < |items|
    ensures |r| == |items|
    ensures forall k :: 0 <= k < |items| && k != index ==> r[k] == items[k]
    ensures Field(r[index], Key(field)) == value
    ensures forall key :: key in items[index] && key != Key(field) ==> key in r[index] && r[index][key] == items[index][key]
    ensures r[index].Keys == items[index].Keys + {Key(field)}
  {
    items[index := items[index][Key(field) := value]]
  }

  /** The item list after `handleAddItem`: the default item appended. */
  function AddItem(items: seq<FormItem>): (r: seq<FormItem>)
    ensures |r| == |items| + 1
    ensures r[..|items|] == items && r[|items|] == DefaultItem()
  {
    items + [DefaultItem()]
  }

  /** A user action on the item list. */
  datatype Edit = Change(index: int, field: ItemField, value: Value) | Add

  /** The item list after one action. A change at an index outside the list throws a
      `TypeError` before `setData`, so the list stays as it was. */
  function Apply(items: seq<FormItem>, e: Edit): seq<FormItem>
  {
    match e
    case Change(index, field, value) =>
      if 0 <= index < |items| then ChangeItem(items, index, field, value) else items
    case Add => AddItem(items)
  }

  /** The item list after a run of actions, in order. */
  function ApplyAll(items: seq<FormItem>, edits: seq<Edit>): seq<FormItem>
    decreases |edits|
  {
    if |edits| == 0 then items else ApplyAll(Apply(items, edits[0]), edits[1..])
  }

  /** How many of the actions are additions. */
  function Adds(edits: seq<Edit>): nat
  {
    if |edits| == 0 then 0 else (if edits[0].Add? then 1 else 0) + Adds(edits[1..])
  }

  /** No action removes an item: after any run of actions the list has grown by exactly the number of additions. */
  lemma {:induction false} EditsNeverShrink(items: seq<FormItem>, edits: seq<Edit>)
    ensures |ApplyAll(items, edits)| == |items| + Adds(edits)
    ensures |ApplyAll(items, edits)| >= |items|
    decreases |edits|
  {
    if |edits| > 0 {
      EditsNeverShrink(Apply(items, edits[0]), edits[1..]);
    }
  }

  /** Changes leave the order of the items alone: an item that was never changed stays where it was. */
  lemma {:induction false} UnchangedItemsStay(items: seq<FormItem>, edits: seq<Edit>, k: nat)
    requires k < |items|
    requires forall j :: 0 <= j < |edits| ==> !(edits[j].Change? && edits[j].index == k)
    ensures k < |ApplyAll(items, edits)| && ApplyAll(items, edits)[k] == items[k]
    decreases |edits|
  {
    if |edits| > 0 {
      var next := Apply(items, edits[0]);
      assert next[k] == items[k];
      forall j | 0 <= j < |edits[1..]|
        ensures !(edits[1..][j].Change? && edits[1..][j].index == k)
      {
        assert edits[1..][j] == edits[j + 1];
      }
      UnchangedItemsStay(next, edits[1..], k);
    }
  }

  /** The keys the designation and price inputs of a row display, as written. */
  const DisplayedKeys: set<string> := {"part_name", "rate"}

  /** Writing any editable field never touches the keys the designation and price inputs display. */
  lemma ChangeKeepsDisplayedKeys(items: seq<FormItem>, index: nat, field: ItemField, value: Value)
    requires index < |items|
    ensures forall d :: d in DisplayedKeys ==> Field(ChangeItem(items, index, field, value)[index], d) == Field(items[index], d)
  {
  }

  /** The form state of the edit page. */
  class EditForm {
    var clientId: string
    var typeId: string
    var date: string
    var status: string
    var items: seq<FormItem>

    /** `useForm` with the `commande` prop: ids as strings, items or the empty list. */
    constructor (commande: CommandeProps)
      ensures clientId == IdText(commande.clientId) && typeId == IdText(commande.typeId)
      ensures date == commande.date && status == commande.status
      ensures items == InitialItems(commande.items)
    {
      clientId := IdText(commande.clientId);
      typeId := IdText(commande.typeId);
      date := commande.date;
      status := commande.status;
      items := InitialItems(commande.items);
    }

    /** `handleItemChange`: copy the list, write the field of item `index`, store the copy.
        `ok` is false when `index` is outside the list, where the write throws and nothing is stored. */
    method HandleItemChange(index: int, field: ItemField, value: Value) returns (ok: bool)
      modifies this`items
      ensures ok <==> 0 <= index < |old(items)|
      ensures ok ==> items == ChangeItem(old(items), index, field, value)
      ensures !ok ==> items == old(items)
      ensures items == Apply(old(items), Change(index, field, value))
    {
      var updated := items;
      if !(0 <= index < |updated|) {
        return false;
      }
      updated := updated[index := updated[index][Key(field) := value]];
      items := updated;
      ok := true;
    }

    /** `handleAddItem`: store the list with the default item appended. */
    method HandleAddItem()
      modifies this`items
      ensures items == AddItem(old(items))
      ensures items == Apply(old(items), Add)
    {
      items := items + [DefaultItem()];
    }
  }

  /** How the edit page receives a stored `commande_items` row: its columns as object keys. */
  function StoredItem(row: CommandeController.ItemRow): (item: FormItem)
    ensures Field(item, "part_name") == Str(row.partName) && Field(item, "rate") == Num(row.rate)
    ensures "designation" !in item && "unit_price" !in item
  {
    map["id" := Num(row.id as real), "commande_id" := Num(row.commandeId as real), "part_name" := Str(row.partName),
        "quantity" := Num(row.quantity), "rate" := Num(row.rate), "total" := Num(row.total)]
  }

  /** What a row's input shows for a field, as written: `part_name`, `quantity` and `rate`. */
  function DisplayedAsWritten(item: FormItem, field: ItemField): (v: Value)
    ensures field == Designation ==> v == Field(item, "part_name")
    ensures field == Quantity ==> v == Field(item, "quantity")
    ensures field == UnitPrice ==> v == Field(item, "rate")
  {
    match field
    case Designation => Field(item, "part_name")
    case Quantity => Field(item, "quantity")
    case UnitPrice => Field(item, "rate")
  }

  /** As written, typing a designation into a loaded item does not change what its input shows. */
  lemma TypedDesignationNotShown()
    ensures var item := StoredItem(CommandeController.ItemRow(1, 1, "Bone grind", 6760.0, 0.80, 5408.0));
            var r := ChangeItem([item], 0, Designation, Str("Fish meal"));
            DisplayedAsWritten(r[0], Designation) == Str("Bone grind") != Str("Fish meal")
  {
    var item := StoredItem(CommandeController.ItemRow(1, 1, "Bone grind", 6760.0, 0.80, 5408.0));
    var r := ChangeItem([item], 0, Designation, Str("Fish meal"));
    assert r[0]["part_name"] == Str("Bone grind");
  }

  /** As written, a loaded item the user does not retype has no `designation` or `unit_price`,
      so the update validation rejects it whatever its stored values. */
  lemma UntouchedStoredItemRejected(row: CommandeController.ItemRow)
    ensures !Validation.ItemOk(Obj(StoredItem(row)), Validation.NumericAtLeastZero)
  {
    assert Validation.ItemField(Obj(StoredItem(row)), "designation") == Null;
  }

  /** What a row's input shows for a field, reading the same key `handleItemChange` writes. */
  function Displayed(item: FormItem, field: ItemField): (v: Value)
    ensures Key(field) !in item ==> v == Null
    ensures Key(field) in item ==> v == item[Key(field)]
  {
    Field(item, Key(field))
  }

  /** With the displayed keys matching the written ones, every input shows what was last typed into it,
      and no other input of any row changes. */
  lemma ChangeIsShown(items: seq<FormItem>, index: nat, field: ItemField, value: Value)
    requires index < |items|
    ensures var r := ChangeItem(items, index, field, value);
            Displayed(r[index], field) == value &&
            (forall f :: f != field ==> Displayed(r[index], f) == Displayed(items[index], f)) &&
            (forall k, f :: 0 <= k < |items| && k != index ==> Displayed(r[k], f) == Displayed(items[k], f))
  {
    var r := ChangeItem(items, index, field, value);
    forall f | f != field
      ensures Displayed(r[index], f) == Displayed(items[index], f)
    {
      assert Key(f) != Key(field);
    }
  }

  /** A stored row loaded under the keys the form writes and the server validates. */
  function LoadedItem(row: CommandeController.ItemRow): (item: FormItem)
    ensures Displayed(item, Designation) == Str(row.partName)
    ensures Displayed(item, Quantity) == Num(row.quantity)
    ensures Displayed(item, UnitPrice) == Num(row.rate)
  {
    map["id" := Num(row.id as real), "designation" := Str(row.partName), "quantity" := Num(row.quantity),
        "unit_price" := Num(row.rate)]
  }

  /** Loaded that way, a stored row with a non-blank name and non-negative amounts passes the
      update validation untouched, and validates back to the line it was written from. */
  lemma LoadedItemAccepted(row: CommandeController.ItemRow)
    requires !Validation.Blank(row.partName) && row.quantity >= 0.0 && row.rate >= 0.0
    ensures Validation.ItemOk(Obj(LoadedItem(row)), Validation.NumericAtLeastZero)
    ensures Validation.LineOf(Obj(LoadedItem(row))) == Totals.Line(row.partName, row.quantity, row.rate)
  {
    var item := Obj(LoadedItem(row));
    assert Validation.ItemField(item, "designation") == Str(row.partName);
    assert Validation.ItemField(item, "quantity") == Num(row.quantity);
    assert Validation.ItemField(item, "unit_price") == Num(row.rate);
  }
}
