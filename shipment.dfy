/** One shipment (lib/shipment.rb): built once from a keyed attribute hash and
    never changed afterwards. Every field holds whatever value the hash gave,
    a Ruby string or nil, so each is an `Option<string>`. */
module Shipments {
  import opened Wrappers
  import opened RubyString

  /** What building a shipment or reading a computed attribute can raise. */
  datatype Error =
    | KeyError(key: Key)  // Hash#fetch without a default, on an absent key
    | TypeError           // DateTime.parse given nil: the shipment date is nil
    | DateError           // Date::Error, an ArgumentError: the date text cannot be read

  /** The symbols used as keys of the attribute hashes: `:first_name`,
      `:last_name`, `:number`, `:order_number`, `:parent_number`,
      `:shipment_date`, and the computed `:full_name` and `:days_ago`. */
  datatype Key =
    | FirstNameKey | LastNameKey | NumberKey | OrderNumberKey | ParentNumberKey | ShipmentDateKey
    | FullNameKey | DaysAgoKey

  /** The hash handed to `Shipment.new`. */
  type AttributeHash = map<Key, Option<string>>

  datatype Shipment = Shipment(
    firstName: Option<string>,
    lastName: Option<string>,
    number: Option<string>,
    orderNumber: Option<string>,
    parentNumber: Option<string>,
    shipmentDate: Option<string>)

  /** What `parent_number` holds when its key is absent. */
  const DefaultParentNumber: string := "N/A"

  /** The keys fetched without a default, in the order `initialize` fetches them. */
  const RequiredKeys: seq<Key> := [FirstNameKey, LastNameKey, NumberKey, OrderNumberKey, ShipmentDateKey]

  /** `attributes.fetch(key, default)`: the default is used only when the key is absent. */
  function FetchOr(attrs: AttributeHash, key: Key, default: string): Option<string>
  {
    if key in attrs then attrs[key] else Some(default)
  }

  /** RequiredKeys[i] is the first required key, in fetch order, that is absent. */
  predicate FirstMissing(attrs: AttributeHash, i: int) {
    && 0 <= i < |RequiredKeys|
    && RequiredKeys[i] !in attrs
    && forall j :: 0 <= j < i ==> RequiredKeys[j] in attrs
  }

  /** `Shipment.new(attributes)`. It raises KeyError, naming the first absent
      required key, exactly when a required key is absent; otherwise every
      field is the supplied value verbatim (a present nil or "" included), and
      `parent_number` is "N/A" exactly when its key is absent. */
  function NewShipment(attrs: AttributeHash): (r: Result<Shipment, Error>)
    ensures r.Failure? <==> exists k :: k in RequiredKeys && k !in attrs
    ensures r.Failure? ==> exists i :: FirstMissing(attrs, i) && r.error == KeyError(RequiredKeys[i])
    ensures r.Success? ==>
      && FirstNameKey in attrs && r.value.firstName == attrs[FirstNameKey]
      && LastNameKey in attrs && r.value.lastName == attrs[LastNameKey]
      && NumberKey in attrs && r.value.number == attrs[NumberKey]
      && OrderNumberKey in attrs && r.value.orderNumber == attrs[OrderNumberKey]
      && ShipmentDateKey in attrs && r.value.shipmentDate == attrs[ShipmentDateKey]
      && r.value.parentNumber == (if ParentNumberKey in attrs then attrs[ParentNumberKey] else Some(DefaultParentNumber))
  {
    if FirstNameKey !in attrs then
      assert FirstMissing(attrs, 0);
      Failure(KeyError(FirstNameKey))
    else if LastNameKey !in attrs then
      assert FirstMissing(attrs, 1);
      Failure(KeyError(LastNameKey))
    else if NumberKey !in attrs then
      assert FirstMissing(attrs, 2);
      Failure(KeyError(NumberKey))
    else if OrderNumberKey !in attrs then
      assert FirstMissing(attrs, 3);
      Failure(KeyError(OrderNumberKey))
    else if ShipmentDateKey !in attrs then
      assert FirstMissing(attrs, 4);
      Failure(KeyError(ShipmentDateKey))
    else
      Success(Shipment(
        attrs[FirstNameKey], attrs[LastNameKey], attrs[NumberKey], attrs[OrderNumberKey],
        FetchOr(attrs, ParentNumberKey, DefaultParentNumber), attrs[ShipmentDateKey]))
  }

  /** Ruby string interpolation of a field: nil reads as empty text. */
  function Show(v: Option<string>): string {
    v.GetOr("")
  }

  /** The six labelled segments `to_str` joins, in their fixed order. */
  function Segments(s: Shipment): seq<string> {
    [ "Number: " + Show(s.number),
      "Order Number: " + Show(s.orderNumber),
      "Shipped: " + Show(s.shipmentDate),
      "First Name: " + Show(s.firstName),
      "Last Name: " + Show(s.lastName),
      "Parent Shipment: " + Show(s.parentNumber) ]
  }

  /** `to_str`: the six labelled fields in their fixed order, separated by
      ", ", with nil shown as empty text. */
  function ToStr(s: Shipment): (r: string)
    ensures r ==
      "Number: " + Show(s.number) +
      ", Order Number: " + Show(s.orderNumber) +
      ", Shipped: " + Show(s.shipmentDate) +
      ", First Name: " + Show(s.firstName) +
      ", Last Name: " + Show(s.lastName) +
      ", Parent Shipment: " + Show(s.parentNumber)
  {
    SegmentsLayout(s);
    Join(Segments(s), ", ")
  }

  /** The segments joined with ", ", written out in full. */
  lemma SegmentsLayout(s: Shipment)
    ensures Join(Segments(s), ", ") ==
      "Number: " + Show(s.number) +
      ", Order Number: " + Show(s.orderNumber) +
      ", Shipped: " + Show(s.shipmentDate) +
      ", First Name: " + Show(s.firstName) +
      ", Last Name: " + Show(s.lastName) +
      ", Parent Shipment: " + Show(s.parentNumber)
  {
    var g := Segments(s);
    JoinSix(g[0], g[1], g[2], g[3], g[4], g[5], ", ");
    assert Join(g, ", ") == g[0] + ", " + g[1] + ", " + g[2] + ", " + g[3] + ", " + g[4] + ", " + g[5];
    var p1 := g[0] + ", " + g[1];
    Relabel(g[0], ", ", "Order Number: ", Show(s.orderNumber));
    assert ", " + "Order Number: " == ", Order Number: ";
    assert p1 == "Number: " + Show(s.number) + ", Order Number: " + Show(s.orderNumber);
    var p2 := p1 + ", " + g[2];
    Relabel(p1, ", ", "Shipped: ", Show(s.shipmentDate));
    assert ", " + "Shipped: " == ", Shipped: ";
    var p3 := p2 + ", " + g[3];
    Relabel(p2, ", ", "First Name: ", Show(s.firstName));
    assert ", " + "First Name: " == ", First Name: ";
    var p4 := p3 + ", " + g[4];
    Relabel(p3, ", ", "Last Name: ", Show(s.lastName));
    assert ", " + "Last Name: " == ", Last Name: ";
    Relabel(p4, ", ", "Parent Shipment: ", Show(s.parentNumber));
    assert ", " + "Parent Shipment: " == ", Parent Shipment: ";
  }

  /** Moves a separator onto the label that follows it. */
  lemma Relabel(prefix: string, sep: string, tag: string, v: string)
    ensures prefix + sep + (tag + v) == prefix + (sep + tag) + v
  {
    AppendAssoc(prefix + sep, tag, v);
    AppendAssoc(prefix, sep, tag);
  }

  /** A shipment built without a parent renders with "Parent Shipment: N/A" at its end. */
  lemma ToStrWithoutParent(attrs: AttributeHash)
    requires NewShipment(attrs).Success? && ParentNumberKey !in attrs
    ensures var line := ToStr(NewShipment(attrs).value);
      |line| >= 20 && line[|line| - 20..] == "Parent Shipment: N/A"
  {
    var s := NewShipment(attrs).value;
    var head :=
      "Number: " + Show(s.number) +
      ", Order Number: " + Show(s.orderNumber) +
      ", Shipped: " + Show(s.shipmentDate) +
      ", First Name: " + Show(s.firstName) +
      ", Last Name: " + Show(s.lastName);
    var tail := ", Parent Shipment: " + Show(s.parentNumber);
    assert tail == ", Parent Shipment: N/A";
    AppendAssoc(head, ", Parent Shipment: ", Show(s.parentNumber));
    assert ToStr(s) == head + tail;
  }

  /** `full_name`: the first name, one space, the last name (nil read as empty). */
  function FullName(s: Shipment): (r: string)
    ensures |r| == |Show(s.firstName)| + 1 + |Show(s.lastName)|
    ensures r[..|Show(s.firstName)|] == Show(s.firstName)
    ensures r[|Show(s.firstName)|] == ' '
    ensures r[|Show(s.firstName)| + 1..] == Show(s.lastName)
  {
    Show(s.firstName) + " " + Show(s.lastName)
  }

  /** `(today - shipped).to_i` for two calendar day numbers. */
  function DaysAgo(today: int, shipped: int): (d: int)
    ensures shipped + d == today
  {
    today - shipped
  }

  /** The two things `days_ago` takes from outside: today's day number
      (`Date.today`) and the calendar's reading of a timestamp as a day number
      with the time of day dropped (`DateTime.parse(..).to_date`), None when it
      cannot be read. */
  datatype Clock = Clock(today: int, dayOf: string -> Option<int>)

  /** `days_ago` at the given clock. A nil shipment date raises TypeError and
      an unreadable one Date::Error. */
  function ShipmentDaysAgo(s: Shipment, clock: Clock): (r: Result<int, Error>)
    ensures s.shipmentDate.None? ==> r == Failure(TypeError)
    ensures s.shipmentDate.Some? && clock.dayOf(s.shipmentDate.value).None? ==> r == Failure(DateError)
    ensures r.Success? <==> s.shipmentDate.Some? && clock.dayOf(s.shipmentDate.value).Some?
    ensures r.Success? ==> clock.dayOf(s.shipmentDate.value).value + r.value == clock.today
  {
    match s.shipmentDate
    case None => Failure(TypeError)
    case Some(text) =>
      match clock.dayOf(text)
      case None => Failure(DateError)
      case Some(shipped) => Success(DaysAgo(clock.today, shipped))
  }

  /** `n` days after the shipping day, at any time of day, `days_ago` is `n`
      (0 on the shipping day itself). */
  lemma DaysAgoAfter(s: Shipment, clock: Clock, day: int, n: int)
    requires s.shipmentDate.Some? && clock.dayOf(s.shipmentDate.value) == Some(day)
    requires clock.today == day + n
    ensures ShipmentDaysAgo(s, clock) == Success(n)
  {
  }

  /** A value in an attribute hash: a field (string or nil) or a day count. */
  datatype Value = Text(text: Option<string>) | Days(days: int)

  const BaseKeys: set<Key> := {NumberKey, OrderNumberKey, ShipmentDateKey, FirstNameKey, LastNameKey, ParentNumberKey}

  const ComputedKeys: set<Key> := BaseKeys + {FullNameKey, DaysAgoKey}

  /** `attributes`: the six stored fields under their names. */
  function BaseAttributes(s: Shipment): (m: map<Key, Value>)
    ensures m.Keys == BaseKeys
    ensures m[NumberKey] == Text(s.number) && m[OrderNumberKey] == Text(s.orderNumber)
    ensures m[ShipmentDateKey] == Text(s.shipmentDate)
    ensures m[FirstNameKey] == Text(s.firstName) && m[LastNameKey] == Text(s.lastName)
    ensures m[ParentNumberKey] == Text(s.parentNumber)
  {
    map[
      NumberKey := Text(s.number),
      OrderNumberKey := Text(s.orderNumber),
      ShipmentDateKey := Text(s.shipmentDate),
      FirstNameKey := Text(s.firstName),
      LastNameKey := Text(s.lastName),
      ParentNumberKey := Text(s.parentNumber)]
  }

  /** Building a shipment from the fields `attributes` reports gives the same
      shipment back: `attributes` loses nothing that `new` stored. */
  lemma AttributesRebuild(s: Shipment)
    ensures NewShipment(map k | k in BaseKeys :: BaseAttributes(s)[k].text) == Success(s)
  {
  }

  /** `attributes(true)`: `attributes` with `full_name` and `days_ago` added. */
  function ComputedAttributes(s: Shipment, clock: Clock): Result<map<Key, Value>, Error> {
    var days :- ShipmentDaysAgo(s, clock);
    Success(BaseAttributes(s)[FullNameKey := Text(Some(FullName(s)))][DaysAgoKey := Days(days)])
  }

  /** `attributes(true)` raises what `days_ago` raises, exactly when it does;
      otherwise it has the six stored fields under their names plus
      `full_name` and `days_ago`, and nothing else. */
  lemma ComputedAttributesContents(s: Shipment, clock: Clock)
    ensures var r := ComputedAttributes(s, clock);
      && (r.Failure? <==> ShipmentDaysAgo(s, clock).Failure?)
      && (r.Failure? ==> r.error == ShipmentDaysAgo(s, clock).error)
      && (r.Success? ==>
            && r.value.Keys == ComputedKeys
            && (forall k :: k in BaseKeys ==> r.value[k] == BaseAttributes(s)[k])
            && r.value[FullNameKey] == Text(Some(FullName(s)))
            && r.value[DaysAgoKey] == Days(ShipmentDaysAgo(s, clock).value))
  {
  }

  /** `order_number` is fetched without a default: a hash that has every other
      required key but lacks `order_number` raises KeyError for it, whether or
      not a parent number is given. */
  lemma OrderNumberIsRequired(attrs: AttributeHash)
    requires FirstNameKey in attrs && LastNameKey in attrs && NumberKey in attrs
    requires OrderNumberKey !in attrs
    ensures NewShipment(attrs) == Failure(KeyError(OrderNumberKey))
  {
  }
}
