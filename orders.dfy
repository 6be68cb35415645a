/**
 * Order items: the payload a client sends with `add_order`, the validation
 * the server applies to it, the stored order record, and the three list
 * operations the handlers perform (append, `filter` by id, `findIndex` and
 * toggle).
 */
module Orders {
  import opened Wrappers
  import opened JsText
  import opened Numbers

  const MaxNotesLength: nat := 30
  const MaxItemNameLength: nat := 25
  const MaxItemPrice: nat := 50000

  const ItemNameError: string := "Item name must be 25 characters or less"
  const NotesError: string := "Notes must be 30 characters or less"
  const PriceError: string := "Invalid price. Must be between 0 and 50000"

  /**
   * The `order` object of an `add_order` message, after JSON parsing. Every
   * field may be missing; `price` holds what `parseFloat` makes of it. The
   * client may also send `id`, `isOrdered` and `timestamp`.
   */
  datatype OrderPayload = OrderPayload(
    id: Option<string>,
    name: Option<string>,
    item: Option<string>,
    quantity: Option<int>,
    price: Option<Number>,
    notes: Option<string>,
    isOrdered: Option<bool>,
    timestamp: Option<string>)

  /** A stored order: the payload's fields spread over a generated id, with status and time forced. */
  datatype Order = Order(
    id: string,
    name: Option<string>,
    item: string,
    quantity: Option<int>,
    price: Option<real>,
    notes: Option<string>,
    isOrdered: bool,
    timestamp: string)

  /** `!item || item.trim().length > 25`: a missing or empty name, or one too long once trimmed. */
  predicate ItemRejected(item: Option<string>) {
    item.None? || item.value == "" || Utf16Length(Trim(item.value)) > MaxItemNameLength
  }

  /** `notes && notes.trim().length > 30`: missing or empty notes always pass. */
  predicate NotesRejected(notes: Option<string>) {
    notes.Some? && notes.value != "" && Utf16Length(Trim(notes.value)) > MaxNotesLength
  }

  /** A price that is present and is NaN, negative or above the maximum. */
  predicate PriceRejected(price: Option<Number>) {
    price.Some? && Rejected(price.value, MaxItemPrice)
  }

  /** What every accepted order satisfies, stated without reference to the payload it came from. */
  predicate OrderWellFormed(o: Order) {
    && o.item != ""
    && Utf16Length(Trim(o.item)) <= MaxItemNameLength
    && (o.notes.Some? ==> Utf16Length(Trim(o.notes.value)) <= MaxNotesLength)
    && (o.price.Some? ==> 0.0 <= o.price.value <= MaxItemPrice as real && IsCents(o.price.value))
  }

  /**
   * The validation and construction part of `add_order`: the checks run in the
   * order item name, notes, price, and the first failing one names the error.
   * An accepted order takes the client's `id` when one is sent (the spread
   * comes after the generated id), the client's other fields unchanged, the
   * rounded price, `isOrdered = false` and the server's timestamp whatever the
   * payload says.
   */
  function Admit(p: OrderPayload, freshId: string, stamp: string): (r: Result<Order>)
    ensures r.Failure? <==> ItemRejected(p.item) || NotesRejected(p.notes) || PriceRejected(p.price)
    ensures ItemRejected(p.item) ==> r == Failure(ItemNameError)
    ensures !ItemRejected(p.item) && NotesRejected(p.notes) ==> r == Failure(NotesError)
    ensures !ItemRejected(p.item) && !NotesRejected(p.notes) && PriceRejected(p.price) ==> r == Failure(PriceError)
    ensures r.Success? ==>
      && r.value.id == (if p.id.Some? then p.id.value else freshId)
      && r.value.item == p.item.value
      && r.value.name == p.name && r.value.quantity == p.quantity && r.value.notes == p.notes
      && (p.price.None? <==> r.value.price.None?)
      && (p.price.Some? ==> r.value.price.value == Round2(p.price.value.value))
      && !r.value.isOrdered && r.value.timestamp == stamp
  {
    if ItemRejected(p.item) then Failure(ItemNameError)
    else if NotesRejected(p.notes) then Failure(NotesError)
    else if PriceRejected(p.price) then Failure(PriceError)
    else
      var price := if p.price.Some? then Some(Round2(p.price.value.value)) else None;
      Success(Order(if p.id.Some? then p.id.value else freshId,
                    p.name, p.item.value, p.quantity, price, p.notes, false, stamp))
  }

  /** Every order `add_order` accepts is well formed: the stored price is in range and in hundredths. */
  lemma AdmitWellFormed(p: OrderPayload, freshId: string, stamp: string)
    requires Admit(p, freshId, stamp).Success?
    ensures OrderWellFormed(Admit(p, freshId, stamp).value)
  {
    var o := Admit(p, freshId, stamp).value;
    if p.price.Some? {
      Round2InRange(p.price.value.value, MaxItemPrice);
    }
    if p.notes.Some? && p.notes.value == "" {
      assert Trim(p.notes.value) == [];
    }
  }

  /** A non-empty item name made only of whitespace passes the check: its trimmed length is 0. */
  lemma BlankItemNameAccepted(p: OrderPayload, freshId: string, stamp: string)
    requires p.item.Some? && p.item.value != "" && AllWhitespace(p.item.value)
    requires !NotesRejected(p.notes) && !PriceRejected(p.price)
    ensures Admit(p, freshId, stamp).Success?
    ensures Trim(Admit(p, freshId, stamp).value.item) == []
  {
    TrimEmptyIffBlank(p.item.value);
  }

  /** Whether an order carries the id a message names; a missing `orderId` matches no order. */
  predicate HasId(o: Order, id: Option<string>) {
    id == Some(o.id)
  }

  /** `orders.findIndex(o => o.id === id)`: the first matching position, or none when no order matches. */
  function FindIndex(orders: seq<Order>, id: Option<string>): (r: Option<nat>)
    ensures r.Some? ==> r.value < |orders| && HasId(orders[r.value], id)
    ensures r.Some? ==> forall j :: 0 <= j < r.value ==> !HasId(orders[j], id)
    ensures r.None? <==> forall j :: 0 <= j < |orders| ==> !HasId(orders[j], id)
  {
    if orders == [] then None
    else if HasId(orders[0], id) then Some(0)
    else match FindIndex(orders[1..], id)
      case None => None
      case Some(k) => Some(k + 1)
  }

  /** Two lists whose orders have the same ids position by position. */
  predicate SameIds(a: seq<Order>, b: seq<Order>) {
    |a| == |b| && forall i :: 0 <= i < |a| ==> a[i].id == b[i].id
  }

  /** `findIndex` by id looks only at ids, so changing anything else does not move the answer. */
  lemma {:induction false} FindIndexSameIds(a: seq<Order>, b: seq<Order>, id: Option<string>)
    requires SameIds(a, b)
    ensures FindIndex(a, id) == FindIndex(b, id)
  {
    if a != [] {
      assert SameIds(a[1..], b[1..]);
      FindIndexSameIds(a[1..], b[1..], id);
    }
  }

  /**
   * `toggle_order_status` on the list: flip `isOrdered` of the first order
   * with the id, or report that there is none.
   */
  function Toggle(orders: seq<Order>, id: Option<string>): (r: Option<seq<Order>>)
    ensures r.None? <==> forall j :: 0 <= j < |orders| ==> !HasId(orders[j], id)
    ensures r.Some? ==> SameIds(orders, r.value)
    ensures r.Some? ==> var i := FindIndex(orders, id).value;
      && r.value[i] == orders[i].(isOrdered := !orders[i].isOrdered)
      && forall j :: 0 <= j < |orders| && j != i ==> r.value[j] == orders[j]
  {
    match FindIndex(orders, id)
    case None => None
    case Some(i) => Some(orders[i := orders[i].(isOrdered := !orders[i].isOrdered)])
  }

  /** Only `isOrdered` changes, so every order stays well formed. */
  lemma ToggleKeepsWellFormed(orders: seq<Order>, id: Option<string>)
    requires forall i :: 0 <= i < |orders| ==> OrderWellFormed(orders[i])
    requires Toggle(orders, id).Some?
    ensures forall i :: 0 <= i < |orders| ==> OrderWellFormed(Toggle(orders, id).value[i])
  {
    var k := FindIndex(orders, id).value;
    var t := Toggle(orders, id).value;
    forall i | 0 <= i < |orders| ensures OrderWellFormed(t[i]) {
      if i == k {
        assert OrderWellFormed(orders[k]);
      }
    }
  }

  /** Toggling the same id twice gives back the original list. */
  lemma ToggleTwice(orders: seq<Order>, id: Option<string>)
    requires Toggle(orders, id).Some?
    ensures Toggle(Toggle(orders, id).value, id) == Some(orders)
  {
    var i := FindIndex(orders, id).value;
    var once := Toggle(orders, id).value;
    FindIndexSameIds(orders, once, id);
    assert once[i := once[i].(isOrdered := !once[i].isOrdered)] == orders;
  }

  /**
   * `orders.filter(o => o.id !== id)`: every order with another id survives,
   * every order with this id (the first and any later duplicate) is dropped.
   */
  function RemoveById(orders: seq<Order>, id: Option<string>): (r: seq<Order>)
    ensures |r| <= |orders|
  {
    if orders == [] then []
    else (if HasId(orders[0], id) then [] else [orders[0]]) + RemoveById(orders[1..], id)
  }

  /** An order survives the filter exactly when it was in the list and carries another id. */
  lemma {:induction false} RemoveByIdMembers(orders: seq<Order>, id: Option<string>)
    ensures forall o :: o in RemoveById(orders, id) <==> o in orders && !HasId(o, id)
  {
    if orders != [] {
      RemoveByIdMembers(orders[1..], id);
      assert orders == [orders[0]] + orders[1..];
    }
  }

  /** Filtering keeps only orders that were there, so well-formedness of every order survives it. */
  lemma RemoveKeepsWellFormed(orders: seq<Order>, id: Option<string>)
    requires forall i :: 0 <= i < |orders| ==> OrderWellFormed(orders[i])
    ensures forall i :: 0 <= i < |RemoveById(orders, id)| ==> OrderWellFormed(RemoveById(orders, id)[i])
  {
    var r := RemoveById(orders, id);
    RemoveByIdMembers(orders, id);
    forall i | 0 <= i < |r| ensures OrderWellFormed(r[i]) {
      assert r[i] in orders;
    }
  }

  /** Filtering a concatenation filters each part in place: relative order is kept. */
  lemma {:induction false} RemoveByIdAppend(a: seq<Order>, b: seq<Order>, id: Option<string>)
    ensures RemoveById(a + b, id) == RemoveById(a, id) + RemoveById(b, id)
  {
    if a != [] {
      assert (a + b)[0] == a[0] && (a + b)[1..] == a[1..] + b;
      RemoveByIdAppend(a[1..], b, id);
      var head := if HasId(a[0], id) then [] else [a[0]];
      assert RemoveById(a + b, id) == head + RemoveById(a[1..] + b, id);
      assert RemoveById(a, id) == head + RemoveById(a[1..], id);
      assert head + (RemoveById(a[1..], id) + RemoveById(b, id)) == (head + RemoveById(a[1..], id)) + RemoveById(b, id);
    } else {
      assert a + b == b;
    }
  }

  /** Removing an id that no order has leaves the list exactly as it was. */
  lemma {:induction false} RemoveAbsentId(orders: seq<Order>, id: Option<string>)
    requires forall j :: 0 <= j < |orders| ==> !HasId(orders[j], id)
    ensures RemoveById(orders, id) == orders
  {
    if orders != [] {
      RemoveAbsentId(orders[1..], id);
    }
  }

  /** The number of orders that carry an id. */
  function CountId(orders: seq<Order>, id: Option<string>): nat {
    if orders == [] then 0 else (if HasId(orders[0], id) then 1 else 0) + CountId(orders[1..], id)
  }

  /** `filter` drops exactly as many orders as carry the id. */
  lemma {:induction false} RemoveByIdCount(orders: seq<Order>, id: Option<string>)
    ensures |RemoveById(orders, id)| == |orders| - CountId(orders, id)
  {
    if orders != [] {
      RemoveByIdCount(orders[1..], id);
    }
  }

  /** No two orders share an id. */
  predicate UniqueIds(orders: seq<Order>) {
    forall i, j :: 0 <= i < j < |orders| ==> orders[i].id != orders[j].id
  }

  /** Appending an order whose id is new keeps the ids distinct. */
  lemma AppendFreshKeepsUnique(orders: seq<Order>, o: Order)
    requires UniqueIds(orders)
    requires forall j :: 0 <= j < |orders| ==> orders[j].id != o.id
    ensures UniqueIds(orders + [o])
  {
  }

  /**
   * Ids stay distinct under `add_order` when the payload sends no id and the
   * generated id is new; a payload id is taken as it is.
   */
  lemma AdmitKeepsIdsUnique(orders: seq<Order>, p: OrderPayload, freshId: string, stamp: string)
    requires UniqueIds(orders) && Admit(p, freshId, stamp).Success?
    requires p.id.None? && forall j :: 0 <= j < |orders| ==> orders[j].id != freshId
    ensures UniqueIds(orders + [Admit(p, freshId, stamp).value])
  {
    AppendFreshKeepsUnique(orders, Admit(p, freshId, stamp).value);
  }

  /** A payload that repeats the id of any existing order produces a second order with that id. */
  lemma PayloadIdCanRepeat(orders: seq<Order>, i: nat, p: OrderPayload, freshId: string, stamp: string)
    requires Admit(p, freshId, stamp).Success?
    requires i < |orders| && p.id == Some(orders[i].id)
    ensures !UniqueIds(orders + [Admit(p, freshId, stamp).value])
  {
    var all := orders + [Admit(p, freshId, stamp).value];
    assert all[i].id == all[|orders|].id;
  }

  /** Removing by id keeps distinct ids distinct. */
  lemma {:induction false} RemoveKeepsUnique(orders: seq<Order>, id: Option<string>)
    requires UniqueIds(orders)
    ensures UniqueIds(RemoveById(orders, id))
  {
    if orders != [] {
      assert UniqueIds(orders[1..]);
      RemoveKeepsUnique(orders[1..], id);
      var rest := RemoveById(orders[1..], id);
      RemoveByIdMembers(orders[1..], id);
      forall j | 0 <= j < |rest| ensures rest[j].id != orders[0].id {
        assert rest[j] in orders[1..];
      }
    }
  }
}
