/** The validation rules `CommandeController::store` and `::update` apply to
    an order payload, and the typed order input extracted once they pass.
    A rule set yields the set of attributes that fail; the payload is
    accepted exactly when that set is empty. */
module Validation {
  import opened Values
  import opened Totals

  type Request = map<string, Value>

  /** A failing attribute: a top-level key, or a key of the item at an index (`items.3.quantity`). */
  datatype Attribute = Key(name: string) | ItemKey(index: nat, name: string)

  /** Store demands `integer|min:1` quantities; update relaxes this to `numeric|min:0`. */
  datatype QuantityRule = IntegerAtLeastOne | NumericAtLeastZero

  /** The characters PHP's `trim` strips. */
  predicate IsTrimmed(c: char)
  {
    c == ' ' || c == '\t' || c == '\n' || c == '\r' || c == '\0' || c == '\U{000B}'
  }

  predicate Blank(s: string) { forall i :: 0 <= i < |s| ==> IsTrimmed(s[i]) }

  /** Laravel's `required`: not null, not a blank string, not an empty array. */
  predicate Required(v: Value)
  {
    match v
    case Null => false
    case Str(s) => !Blank(s)
    case Num(_) => true
    case List(elems) => |elems| > 0
    case Obj(fields) => |fields| > 0
  }

  predicate IsIntegral(r: real) { r == r.Floor as real }

  /** The id a value denotes for `exists:<table>,id`: an integral number, or a string of digits. */
  function AsId(v: Value): (id: Option<nat>)
    ensures v.Str? && |v.s| > 0 && AllDigits(v.s) ==> id == Some(ParseNat(v.s))
    ensures v.Num? && IsIntegral(v.n) && v.n >= 0.0 ==> id == Some(v.n.Floor)
    ensures v.Str? && !(|v.s| > 0 && AllDigits(v.s)) ==> id == None
    ensures v.Num? && !(IsIntegral(v.n) && v.n >= 0.0) ==> id == None
    ensures v.Null? || v.List? || v.Obj? ==> id == None
  {
    match v
    case Num(n) => if IsIntegral(n) && n >= 0.0 then Some(n.Floor) else None
    case Str(s) => if |s| > 0 && AllDigits(s) then Some(ParseNat(s)) else None
    case _ => None
  }

  predicate ExistsIn(v: Value, ids: set<nat>)
  {
    AsId(v).Some? && AsId(v).value in ids
  }

  /** The id-string a form's select posts for a record passes `exists` exactly when that record exists. */
  lemma PostedIdExists(id: nat, ids: set<nat>)
    ensures ExistsIn(Str(NatToString(id)), ids) <==> id in ids
  {
    ParseNatToString(id);
  }

  /** `required|exists:<table>,id` */
  predicate ReferenceOk(v: Value, ids: set<nat>) { Required(v) && ExistsIn(v, ids) }

  /** `required|date`; whether a string parses as a date is decided by `isDate`. */
  predicate DateOk(v: Value, isDate: string -> bool) { Required(v) && v.Str? && isDate(v.s) }

  /** `required|string` */
  predicate TextOk(v: Value) { Required(v) && v.Str? }

  /** `required|array|min:1` */
  predicate ItemsOk(v: Value) { Required(v) && v.List? && |v.elems| >= 1 }

  /** `nullable|numeric`, with no lower bound. */
  predicate BalanceOk(v: Value) { v.Null? || v.Num? }

  /** The field of one submitted item; a non-object item has no fields. */
  function ItemField(item: Value, key: string): Value
  {
    if item.Obj? then Field(item.fields, key) else Null
  }

  predicate QuantityOk(q: Value, rule: QuantityRule)
  {
    match rule
    case IntegerAtLeastOne => Required(q) && q.Num? && IsIntegral(q.n) && q.n >= 1.0
    case NumericAtLeastZero => Required(q) && q.Num? && q.n >= 0.0
  }

  /** `required|numeric|min:0` */
  predicate PriceOk(p: Value) { Required(p) && p.Num? && p.n >= 0.0 }

  predicate ItemOk(item: Value, rule: QuantityRule)
  {
    TextOk(ItemField(item, "designation")) &&
    QuantityOk(ItemField(item, "quantity"), rule) &&
    PriceOk(ItemField(item, "unit_price"))
  }

  /** The items the `items.*` rules range over: none unless `items` is an array. */
  function Elements(v: Value): seq<Value>
  {
    if v.List? then v.elems else []
  }

  function Check(ok: bool, a: Attribute): (errs: set<Attribute>)
    ensures errs == {} <==> ok
    ensures a in errs <==> !ok
  {
    if ok then {} else {a}
  }

  /** The failing `items.*` attributes. */
  function ItemErrors(elems: seq<Value>, rule: QuantityRule): (errs: set<Attribute>)
    ensures errs == {} <==> forall i :: 0 <= i < |elems| ==> ItemOk(elems[i], rule)
    ensures forall a :: a in errs ==> a.ItemKey? && a.index < |elems|
  {
    var bad := (set i: nat | i < |elems| && !TextOk(ItemField(elems[i], "designation")) :: ItemKey(i, "designation")) +
               (set i: nat | i < |elems| && !QuantityOk(ItemField(elems[i], "quantity"), rule) :: ItemKey(i, "quantity")) +
               (set i: nat | i < |elems| && !PriceOk(ItemField(elems[i], "unit_price")) :: ItemKey(i, "unit_price"));
    assert (forall i :: 0 <= i < |elems| ==> ItemOk(elems[i], rule)) ==> bad == {};
    assert bad == {} ==> forall i :: 0 <= i < |elems| ==> ItemOk(elems[i], rule) by {
      if bad == {} {
        forall i | 0 <= i < |elems| ensures ItemOk(elems[i], rule) {
          assert ItemKey(i, "designation") !in bad;
          assert ItemKey(i, "quantity") !in bad;
          assert ItemKey(i, "unit_price") !in bad;
        }
      }
    }
    bad
  }

  /** Every rule of `store` holds. */
  predicate StoreValid(req: Request, clients: set<nat>, types: set<nat>, isDate: string -> bool)
  {
    ReferenceOk(Field(req, "client_id"), clients) &&
    ReferenceOk(Field(req, "type_id"), types) &&
    DateOk(Field(req, "date"), isDate) &&
    TextOk(Field(req, "status")) &&
    ItemsOk(Field(req, "items")) &&
    forall i :: 0 <= i < |Field(req, "items").elems| ==> ItemOk(Field(req, "items").elems[i], IntegerAtLeastOne)
  }

  /** The attributes `store`'s validator reports. */
  function StoreErrors(req: Request, clients: set<nat>, types: set<nat>, isDate: string -> bool): (errs: set<Attribute>)
    ensures errs == {} <==> StoreValid(req, clients, types, isDate)
    ensures Key("items") in errs <==> !ItemsOk(Field(req, "items"))
    ensures Key("client_id") in errs <==> !ReferenceOk(Field(req, "client_id"), clients)
    ensures Key("type_id") in errs <==> !ReferenceOk(Field(req, "type_id"), types)
  {
    Check(ReferenceOk(Field(req, "client_id"), clients), Key("client_id")) +
    Check(ReferenceOk(Field(req, "type_id"), types), Key("type_id")) +
    Check(DateOk(Field(req, "date"), isDate), Key("date")) +
    Check(TextOk(Field(req, "status")), Key("status")) +
    Check(ItemsOk(Field(req, "items")), Key("items")) +
    ItemErrors(Elements(Field(req, "items")), IntegerAtLeastOne)
  }

  /** Every rule of `update` holds; `type_id` and `status` are not checked. */
  predicate UpdateValid(req: Request, clients: set<nat>, isDate: string -> bool)
  {
    ReferenceOk(Field(req, "client_id"), clients) &&
    DateOk(Field(req, "date"), isDate) &&
    BalanceOk(Field(req, "previous_balance")) &&
    ItemsOk(Field(req, "items")) &&
    forall i :: 0 <= i < |Field(req, "items").elems| ==> ItemOk(Field(req, "items").elems[i], NumericAtLeastZero)
  }

  /** The attributes `update`'s validator reports. */
  function UpdateErrors(req: Request, clients: set<nat>, isDate: string -> bool): (errs: set<Attribute>)
    ensures errs == {} <==> UpdateValid(req, clients, isDate)
    ensures Key("items") in errs <==> !ItemsOk(Field(req, "items"))
    ensures Key("previous_balance") in errs <==> !BalanceOk(Field(req, "previous_balance"))
  {
    Check(ReferenceOk(Field(req, "client_id"), clients), Key("client_id")) +
    Check(DateOk(Field(req, "date"), isDate), Key("date")) +
    Check(BalanceOk(Field(req, "previous_balance")), Key("previous_balance")) +
    Check(ItemsOk(Field(req, "items")), Key("items")) +
    ItemErrors(Elements(Field(req, "items")), NumericAtLeastZero)
  }

  /** Each condition under which `store` refuses a payload is reported. */
  lemma StoreRejections(req: Request, clients: set<nat>, types: set<nat>, isDate: string -> bool, i: nat)
    ensures var errs := StoreErrors(req, clients, types, isDate);
            var items := Field(req, "items");
            (!items.List? || items.elems == [] ==> Key("items") in errs) &&
            (items.List? && i < |items.elems| ==>
              var q := ItemField(items.elems[i], "quantity");
              var p := ItemField(items.elems[i], "unit_price");
              ((!q.Num? || !IsIntegral(q.n) || q.n < 1.0) ==> ItemKey(i, "quantity") in errs) &&
              ((p.Num? && p.n < 0.0) ==> ItemKey(i, "unit_price") in errs) &&
              (ItemField(items.elems[i], "designation").Null? ==> ItemKey(i, "designation") in errs)) &&
            (AsId(Field(req, "client_id")).None? ==> Key("client_id") in errs) &&
            (AsId(Field(req, "client_id")).Some? && AsId(Field(req, "client_id")).value !in clients ==> Key("client_id") in errs) &&
            (AsId(Field(req, "type_id")).None? ==> Key("type_id") in errs) &&
            (AsId(Field(req, "type_id")).Some? && AsId(Field(req, "type_id")).value !in types ==> Key("type_id") in errs) &&
            (Field(req, "date").Null? ==> Key("date") in errs) &&
            (Field(req, "status").Null? ==> Key("status") in errs)
  {
    var errs := StoreErrors(req, clients, types, isDate);
    var items := Field(req, "items");
    if items.List? && i < |items.elems| {
      var e := items.elems[i];
      assert Elements(items) == items.elems;
      var itemErrs := ItemErrors(items.elems, IntegerAtLeastOne);
      assert itemErrs <= errs;
      if !QuantityOk(ItemField(e, "quantity"), IntegerAtLeastOne) {
        assert ItemKey(i, "quantity") in itemErrs;
      }
      if !PriceOk(ItemField(e, "unit_price")) {
        assert ItemKey(i, "unit_price") in itemErrs;
      }
      if !TextOk(ItemField(e, "designation")) {
        assert ItemKey(i, "designation") in itemErrs;
      }
    }
  }

  /** A zero or fractional quantity passes `update`'s rule and fails `store`'s. */
  lemma QuantityPolicyDiffers(q: real)
    ensures QuantityOk(Num(q), NumericAtLeastZero) <==> q >= 0.0
    ensures QuantityOk(Num(q), IntegerAtLeastOne) <==> q >= 1.0 && IsIntegral(q)
    ensures QuantityOk(Num(q), IntegerAtLeastOne) ==> QuantityOk(Num(q), NumericAtLeastZero)
  {
  }

  /** The keys each rule set names; `validate` returns the payload restricted to them. */
  const StoreRuleKeys: set<string> := {"client_id", "type_id", "date", "status", "items"}
  const UpdateRuleKeys: set<string> := {"client_id", "date", "previous_balance", "items"}

  /** The item keys the `items.*` rules name. */
  const ItemRuleKeys: set<string> := {"designation", "quantity", "unit_price"}

  /** One item as `validate` returns it: an object keeps only its ruled keys; anything else is
      left as posted (it fails the item rules anyway). */
  function ValidatedItem(item: Value): (v: Value)
    ensures item.Obj? ==> v.Obj? && forall k :: k in v.fields <==> k in item.fields && k in ItemRuleKeys
    ensures item.Obj? ==> forall k :: k in v.fields ==> v.fields[k] == item.fields[k]
    ensures !item.Obj? ==> v == item
  {
    if item.Obj? then Obj(map k | k in item.fields && k in ItemRuleKeys :: item.fields[k]) else item
  }

  /** `items` as `validate` rebuilds it from the `items.*` rules: each posted item cut down to
      its ruled keys, in the posted order. */
  function ValidatedItems(items: Value): (v: Value)
    ensures items.List? ==> v.List? && |v.elems| == |items.elems|
    ensures items.List? ==> forall i :: 0 <= i < |items.elems| ==> v.elems[i] == ValidatedItem(items.elems[i])
    ensures !items.List? ==> v == items
  {
    if items.List? then List(seq(|items.elems|, i requires 0 <= i < |items.elems| => ValidatedItem(items.elems[i])))
    else items
  }

  /** `validate()`: the request keys named by the rules, with their values, except that `items`
      keeps only the ruled keys of each item. */
  function Validated(req: Request, keys: set<string>): (data: map<string, Value>)
    ensures forall k :: k in data <==> k in req && k in keys
    ensures forall k :: k in data && k != "items" ==> data[k] == req[k]
    ensures "items" in data ==> data["items"] == ValidatedItems(req["items"])
  {
    map k | k in req && k in keys :: if k == "items" then ValidatedItems(req[k]) else req[k]
  }

  /** Dropping unruled item keys changes no line: the ruled keys are all a line reads. */
  lemma ValidatedItemSameLine(item: Value)
    ensures LineOf(ValidatedItem(item)) == LineOf(item)
    ensures forall rule :: ItemOk(ValidatedItem(item), rule) <==> ItemOk(item, rule)
  {
    var v := ValidatedItem(item);
    if item.Obj? {
      assert ItemField(v, "designation") == ItemField(item, "designation");
      assert ItemField(v, "quantity") == ItemField(item, "quantity");
      assert ItemField(v, "unit_price") == ItemField(item, "unit_price");
    }
  }

  /** `$data['previous_balance'] ?? 0`: a missing or null balance counts as zero. */
  function BalanceOrZero(data: map<string, Value>): (b: real)
    ensures "previous_balance" !in data ==> b == 0.0
    ensures "previous_balance" in data && data["previous_balance"].Num? ==> b == data["previous_balance"].n
  {
    match Field(data, "previous_balance")
    case Num(n) => n
    case _ => 0.0
  }

  /** A balance sent to `store` is dropped by validation, so the order starts with none. */
  lemma StoreDropsPreviousBalance(req: Request)
    ensures BalanceOrZero(Validated(req, StoreRuleKeys)) == 0.0
  {
    assert "previous_balance" !in StoreRuleKeys;
  }

  /** `update` keeps a numeric balance of any sign and treats null or absence as zero. */
  lemma UpdateKeepsPreviousBalance(req: Request)
    requires BalanceOk(Field(req, "previous_balance"))
    ensures Field(req, "previous_balance").Num? ==>
              BalanceOrZero(Validated(req, UpdateRuleKeys)) == Field(req, "previous_balance").n
    ensures Field(req, "previous_balance").Null? ==> BalanceOrZero(Validated(req, UpdateRuleKeys)) == 0.0
  {
    var data := Validated(req, UpdateRuleKeys);
    if "previous_balance" in req {
      assert "previous_balance" in data;
    }
  }

  /** The typed line of one validated item. */
  function LineOf(item: Value): (l: Line)
    ensures ItemField(item, "designation").Str? ==> l.designation == ItemField(item, "designation").s
    ensures ItemField(item, "quantity").Num? ==> l.quantity == ItemField(item, "quantity").n
    ensures ItemField(item, "unit_price").Num? ==> l.unitPrice == ItemField(item, "unit_price").n
  {
    var d := ItemField(item, "designation");
    var q := ItemField(item, "quantity");
    var p := ItemField(item, "unit_price");
    Line(if d.Str? then d.s else "", if q.Num? then q.n else 0.0, if p.Num? then p.n else 0.0)
  }

  function LinesOf(elems: seq<Value>): (lines: seq<Line>)
    ensures |lines| == |elems|
    ensures forall i :: 0 <= i < |elems| ==> lines[i] == LineOf(elems[i])
  {
    seq(|elems|, i requires 0 <= i < |elems| => LineOf(elems[i]))
  }

  /** The lines read off the validated items are the lines of the posted items. */
  lemma ValidatedLines(elems: seq<Value>)
    ensures LinesOf(ValidatedItems(List(elems)).elems) == LinesOf(elems)
  {
    var v := ValidatedItems(List(elems)).elems;
    forall i | 0 <= i < |elems|
      ensures LinesOf(v)[i] == LinesOf(elems)[i]
    {
      ValidatedItemSameLine(elems[i]);
    }
  }

  /** Validated lines never carry a negative quantity or price, under either rule. */
  lemma ValidatedLinesNonNegative(elems: seq<Value>, rule: QuantityRule)
    requires forall i :: 0 <= i < |elems| ==> ItemOk(elems[i], rule)
    ensures NonNegativeLines(LinesOf(elems))
  {
    var lines := LinesOf(elems);
    forall i | 0 <= i < |lines| ensures lines[i].quantity >= 0.0 && lines[i].unitPrice >= 0.0 {
      assert ItemOk(elems[i], rule);
    }
  }

  /** What `store` writes, read off a payload that passed its rules. */
  datatype StorePayload = StorePayload(clientId: nat, typeId: nat, date: string, status: string,
                                       lines: seq<Line>, previousBalance: real)

  /** What `update` writes; it carries no `type_id` and no `status`. */
  datatype UpdatePayload = UpdatePayload(clientId: nat, date: string, lines: seq<Line>, previousBalance: real)

  function StoreInput(req: Request, clients: set<nat>, types: set<nat>, isDate: string -> bool): (input: StorePayload)
    requires StoreValid(req, clients, types, isDate)
    ensures input.clientId in clients && input.typeId in types
    ensures input.clientId == AsId(Field(req, "client_id")).value && input.typeId == AsId(Field(req, "type_id")).value
    ensures input.date == Field(req, "date").s && input.status == Field(req, "status").s
    ensures input.lines == LinesOf(Field(req, "items").elems)
    ensures |input.lines| == |Field(req, "items").elems| >= 1
    ensures input.previousBalance == 0.0
    ensures NonNegativeLines(input.lines)
  {
    var data := Validated(req, StoreRuleKeys);
    var elems := Field(req, "items").elems;
    ValidatedLinesNonNegative(elems, IntegerAtLeastOne);
    StoreDropsPreviousBalance(req);
    ValidatedLines(elems);
    StorePayload(AsId(Field(req, "client_id")).value, AsId(Field(req, "type_id")).value,
               Field(req, "date").s, Field(req, "status").s,
               LinesOf(data["items"].elems), BalanceOrZero(data))
  }

  function UpdateInput(req: Request, clients: set<nat>, isDate: string -> bool): (input: UpdatePayload)
    requires UpdateValid(req, clients, isDate)
    ensures input.clientId in clients
    ensures input.clientId == AsId(Field(req, "client_id")).value && input.date == Field(req, "date").s
    ensures input.lines == LinesOf(Field(req, "items").elems)
    ensures |input.lines| == |Field(req, "items").elems| >= 1
    ensures Field(req, "previous_balance").Num? ==> input.previousBalance == Field(req, "previous_balance").n
    ensures Field(req, "previous_balance").Null? ==> input.previousBalance == 0.0
    ensures NonNegativeLines(input.lines)
  {
    var data := Validated(req, UpdateRuleKeys);
    var elems := Field(req, "items").elems;
    ValidatedLinesNonNegative(elems, NumericAtLeastZero);
    UpdateKeepsPreviousBalance(req);
    ValidatedLines(elems);
    UpdatePayload(AsId(Field(req, "client_id")).value, Field(req, "date").s, LinesOf(data["items"].elems),
                  BalanceOrZero(data))
  }
}
