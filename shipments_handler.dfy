/** The shipments collection (lib/shipments_handler.rb): parsing a block of
    text into shipments, the three lookups and the printed listing. The
    handler holds the sequence it was given and nothing changes it afterwards,
    so it is a value; the listing is returned as a string instead of being
    written to standard output. */
module ShipmentsHandlers {
  import opened Wrappers
  import opened RubyString
  import opened Shipments

  /** `ShipmentsHandler.new(shipments)`: the given sequence, kept as it is. */
  datatype ShipmentsHandler = ShipmentsHandler(shipments: seq<Shipment>)

  /** `initialize` keeps the collection it is given, and `shipments` reads it
      back unchanged. */
  lemma InitializeKeepsShipments(shipments: seq<Shipment>)
    ensures ShipmentsHandler(shipments).shipments == shipments
  {
  }

  // ---------------------------------------------------------------------------
  // Parsing
  // ---------------------------------------------------------------------------

  /** `Array#map` with a block that may raise: the results in order, or the
      first exception raised, in element order. */
  function MapRaising<A, B, E>(xs: seq<A>, f: A -> Result<B, E>): (r: Result<seq<B>, E>)
    ensures r.Success? <==> forall i :: 0 <= i < |xs| ==> f(xs[i]).Success?
    ensures r.Success? ==> |r.value| == |xs| && forall i :: 0 <= i < |xs| ==> f(xs[i]) == Success(r.value[i])
    ensures r.Failure? ==>
      exists i :: 0 <= i < |xs| && f(xs[i]) == Failure(r.error) && forall j :: 0 <= j < i ==> f(xs[j]).Success?
    decreases |xs|
  {
    if |xs| == 0 then Success([])
    else
      match f(xs[0])
      case Failure(e) => Failure(e)
      case Success(y) =>
        var rest := MapRaising(xs[1..], f);
        assert forall i :: 1 <= i < |xs| ==> xs[i] == xs[1..][i - 1];
        match rest
        case Failure(e) => Failure(e)
        case Success(ys) => Success([y] + ys)
  }

  /** `shipment_string.split(",").map(&:strip)`: the fields of one line, one
      per piece of the split, none holding a comma and none starting or ending
      with whitespace. */
  function Fields(line: string): (r: seq<string>)
    ensures |r| == |Split(line, ',')|
    ensures forall i :: 0 <= i < |r| ==> ',' !in r[i]
    ensures forall i :: 0 <= i < |r| ==> Unpadded(r[i])
  {
    var pieces := Split(line, ',');
    forall i | 0 <= i < |pieces|
      ensures ',' !in Strip(pieces[i])
    {
      StripKeepsOut(pieces[i], ',');
    }
    StripEach(pieces)
  }

  /** `pieces.map(&:strip)`. */
  function StripEach(pieces: seq<string>): (r: seq<string>)
    ensures |r| == |pieces|
    ensures forall i :: 0 <= i < |r| ==> r[i] == Strip(pieces[i])
    decreases |pieces|
  {
    if |pieces| == 0 then [] else [Strip(pieces[0])] + StripEach(pieces[1..])
  }

  /** `attributes[i]`: out-of-range positions read as nil. */
  function FieldAt(fields: seq<string>, i: nat): Option<string> {
    if i < |fields| then Some(fields[i]) else None
  }

  /** Field k of a line of comma-free parts, whatever their number, is part k
      stripped; past the last part that is not a trailing empty one it is nil. */
  lemma FieldsPositional(line: string, parts: seq<string>, k: nat)
    requires |parts| > 0 && line == Join(parts, ",")
    requires forall i :: 0 <= i < |parts| ==> ',' !in parts[i]
    ensures FieldAt(Fields(line), k) == (if k < |DropTrailingEmpty(parts)| then Some(Strip(parts[k])) else None)
  {
    SplitOfJoin(parts, ',');
  }

  /** The hash `shipment_attributes` builds from a line's fields: all six
      keys, each bound to the field at its position (nil past the last one). */
  function HashOfFields(f: seq<string>): (h: AttributeHash)
    ensures h.Keys == BaseKeys
    ensures
      && h[NumberKey] == FieldAt(f, 0) && h[OrderNumberKey] == FieldAt(f, 1)
      && h[ShipmentDateKey] == FieldAt(f, 2) && h[FirstNameKey] == FieldAt(f, 3)
      && h[LastNameKey] == FieldAt(f, 4) && h[ParentNumberKey] == FieldAt(f, 5)
  {
    map[
      NumberKey := FieldAt(f, 0),
      OrderNumberKey := FieldAt(f, 1),
      ShipmentDateKey := FieldAt(f, 2),
      FirstNameKey := FieldAt(f, 3),
      LastNameKey := FieldAt(f, 4),
      ParentNumberKey := FieldAt(f, 5)]
  }

  /** `shipment_attributes(line)`. */
  function ShipmentAttributes(line: string): AttributeHash {
    HashOfFields(Fields(line))
  }

  /** The shipment a line describes, read directly by position: number,
      order number, shipment date, first name, last name, parent number. */
  function PositionalShipment(f: seq<string>): Shipment {
    Shipment(
      firstName := FieldAt(f, 3),
      lastName := FieldAt(f, 4),
      number := FieldAt(f, 0),
      orderNumber := FieldAt(f, 1),
      parentNumber := FieldAt(f, 5),
      shipmentDate := FieldAt(f, 2))
  }

  /** `Shipment.new(shipment_attributes(line))`. It never raises, whatever the
      line: all six keys are always present, so a missing position gives nil
      (for `parent_number` too, never "N/A") and an empty field gives "". */
  function BuildShipment(line: string): (r: Result<Shipment, Error>)
    ensures r == Success(PositionalShipment(Fields(line)))
  {
    NewShipment(ShipmentAttributes(line))
  }

  /** An empty line (one in the middle of the data, say) does not raise
      either: it gives a shipment whose six fields are all nil. */
  lemma EmptyLine()
    ensures BuildShipment("") == Success(Shipment(None, None, None, None, None, None))
  {
    SplitEmpty(',');
    assert Fields("") == [];
  }

  /** `ShipmentsHandler.parse(data)`: one shipment per element of
      `data.split("\n")`, in line order, each read positionally from its
      fields. It never raises. */
  function Parse(data: string): (r: Result<ShipmentsHandler, Error>)
    ensures r.Success?
    ensures var lines := Split(data, '\n');
      && |r.value.shipments| == |lines|
      && forall i :: 0 <= i < |lines| ==> r.value.shipments[i] == PositionalShipment(Fields(lines[i]))
  {
    var lines := Split(data, '\n');
    match MapRaising(lines, BuildShipment)
    case Success(shipments) => Success(ShipmentsHandler(shipments))
    case Failure(e) => Failure(e)
  }

  /** A line of six comma-free fields whose last field is not empty: every
      field is read, stripped, at its position. */
  lemma SixFieldLine(line: string, n: string, o: string, d: string, f: string, l: string, p: string)
    requires line == Join([n, o, d, f, l, p], ",")
    requires ',' !in n && ',' !in o && ',' !in d && ',' !in f && ',' !in l && ',' !in p
    requires p != ""
    ensures var s := PositionalShipment(Fields(line));
      && s.number == Some(Strip(n)) && s.orderNumber == Some(Strip(o))
      && s.shipmentDate == Some(Strip(d)) && s.firstName == Some(Strip(f))
      && s.lastName == Some(Strip(l)) && s.parentNumber == Some(Strip(p))
  {
    SplitOfJoin([n, o, d, f, l, p], ',');
  }

  /** A line of five comma-free fields and a trailing comma, the fifth field
      not empty: the trailing empty piece is dropped, so `parent_number` is
      nil, not "N/A". */
  lemma TrailingCommaLine(line: string, n: string, o: string, d: string, f: string, l: string)
    requires line == Join([n, o, d, f, l, ""], ",")
    requires ',' !in n && ',' !in o && ',' !in d && ',' !in f && ',' !in l
    requires l != ""
    ensures var s := PositionalShipment(Fields(line));
      && s.number == Some(Strip(n)) && s.orderNumber == Some(Strip(o))
      && s.shipmentDate == Some(Strip(d)) && s.firstName == Some(Strip(f))
      && s.lastName == Some(Strip(l)) && s.parentNumber == None
  {
    var parts := [n, o, d, f, l, ""];
    assert parts[..5] == [n, o, d, f, l];
    assert |DropTrailingEmpty(parts)| == 5;
    FieldsPositional(line, parts, 0);
    FieldsPositional(line, parts, 1);
    FieldsPositional(line, parts, 2);
    FieldsPositional(line, parts, 3);
    FieldsPositional(line, parts, 4);
    FieldsPositional(line, parts, 5);
  }

  /** A whitespace-only last field is not dropped, since `split` drops empty
      pieces before `strip` runs: it survives as "" rather than nil. */
  lemma BlankParentField(line: string, n: string, o: string, d: string, f: string, l: string, p: string)
    requires line == Join([n, o, d, f, l, p], ",")
    requires ',' !in n && ',' !in o && ',' !in d && ',' !in f && ',' !in l
    requires p != "" && AllWhitespace(p)
    ensures PositionalShipment(Fields(line)).parentNumber == Some("")
  {
    SixFieldLine(line, n, o, d, f, l, p);
    StripAllWhitespace(p);
  }

  /** Two lines, the second not empty, give two shipments, one per line in
      order. */
  lemma TwoLines(a: string, b: string)
    requires '\n' !in a && '\n' !in b && b != ""
    ensures Parse(a + "\n" + b).value.shipments == [PositionalShipment(Fields(a)), PositionalShipment(Fields(b))]
  {
    assert [a, b][1..] == [b];
    assert Join([a, b], "\n") == a + "\n" + b;
    SplitOfJoin([a, b], '\n');
    assert Split(a + "\n" + b, '\n') == [a, b];
  }

  /** The shape of the first line the handler's tests parse: five unpadded
      fields and a trailing comma give those fields verbatim and a nil parent. */
  lemma SampleLineOneShape(line: string, n: string, o: string, d: string, f: string, l: string)
    requires line == Join([n, o, d, f, l, ""], ",")
    requires ',' !in n && ',' !in o && ',' !in d && ',' !in f && ',' !in l
    requires l != ""
    requires Unpadded(n) && Unpadded(o) && Unpadded(d) && Unpadded(f) && Unpadded(l)
    ensures var s := PositionalShipment(Fields(line));
      && s.number == Some(n) && s.orderNumber == Some(o) && s.shipmentDate == Some(d)
      && s.firstName == Some(f) && s.lastName == Some(l) && s.parentNumber == None
  {
    TrailingCommaLine(line, n, o, d, f, l);
    StripUnpadded(n);
    StripUnpadded(o);
    StripUnpadded(d);
    StripUnpadded(f);
    StripUnpadded(l);
  }

  /** The first line of the handler's tests,
      "SH348503,O567843,2018-12-10 15:08:58 -0000,Jane,Smith,": its fields
      verbatim, and a nil parent number because the line ends in a comma. */
  lemma SampleLineOne()
    ensures var s := PositionalShipment(Fields(
      "SH348503" + "," + "O567843" + "," + "2018-12-10 15:08:58 -0000" + "," + "Jane" + "," + "Smith" + "," + ""));
      && s.number == Some("SH348503") && s.orderNumber == Some("O567843")
      && s.shipmentDate == Some("2018-12-10 15:08:58 -0000")
      && s.firstName == Some("Jane") && s.lastName == Some("Smith") && s.parentNumber == None
  {
    JoinSix("SH348503", "O567843", "2018-12-10 15:08:58 -0000", "Jane", "Smith", "", ",");
    SampleLineOneShape(
      "SH348503" + "," + "O567843" + "," + "2018-12-10 15:08:58 -0000" + "," + "Jane" + "," + "Smith" + "," + "",
      "SH348503", "O567843", "2018-12-10 15:08:58 -0000", "Jane", "Smith");
  }

  /** The shape of the second line the handler's tests parse: an indented
      number, an empty order number and four more unpadded fields give the
      number without its indentation, "" for the order number (not "N/A")
      and the other fields verbatim. */
  lemma SampleLineTwoShape(line: string, w: string, n: string, d: string, f: string, l: string, p: string)
    requires line == Join([w + n, "", d, f, l, p], ",")
    requires ',' !in w && ',' !in n && ',' !in d && ',' !in f && ',' !in l && ',' !in p
    requires p != ""
    requires AllWhitespace(w)
    requires Unpadded(n) && Unpadded(d) && Unpadded(f) && Unpadded(l) && Unpadded(p)
    ensures var s := PositionalShipment(Fields(line));
      && s.number == Some(n) && s.orderNumber == Some("") && s.shipmentDate == Some(d)
      && s.firstName == Some(f) && s.lastName == Some(l) && s.parentNumber == Some(p)
  {
    SixFieldLine(line, w + n, "", d, f, l, p);
    StripIndented(w, n);
    StripUnpadded("");
    StripUnpadded(d);
    StripUnpadded(f);
    StripUnpadded(l);
    StripUnpadded(p);
  }

  /** The second line of the handler's tests,
      "    SH927813,,2018-12-15 09:49:35 -0000,Rebecca,Jones,SH907346": the
      number without its indentation, an empty order number kept as "", and
      the other fields verbatim. */
  lemma SampleLineTwo()
    ensures var s := PositionalShipment(Fields(
      "    " + "SH927813" + "," + "" + "," + "2018-12-15 09:49:35 -0000" + "," + "Rebecca" + "," + "Jones" + "," + "SH907346"));
      && s.number == Some("SH927813") && s.orderNumber == Some("")
      && s.shipmentDate == Some("2018-12-15 09:49:35 -0000")
      && s.firstName == Some("Rebecca") && s.lastName == Some("Jones") && s.parentNumber == Some("SH907346")
  {
    JoinSix("    " + "SH927813", "", "2018-12-15 09:49:35 -0000", "Rebecca", "Jones", "SH907346", ",");
    SampleLineTwoShape(
      "    " + "SH927813" + "," + "" + "," + "2018-12-15 09:49:35 -0000" + "," + "Rebecca" + "," + "Jones" + "," + "SH907346",
      "    ", "SH927813", "2018-12-15 09:49:35 -0000", "Rebecca", "Jones", "SH907346");
  }

  /** The first line of the handler's test data holds no line break. */
  lemma SampleLineOneUnbroken()
    ensures '\n' !in "SH348503" + "," + "O567843" + "," + "2018-12-10 15:08:58 -0000" + "," + "Jane" + "," + "Smith" + "," + ""
  {
  }

  /** The second line of the handler's test data holds no line break. */
  lemma SampleLineTwoUnbroken()
    ensures '\n' !in "    " + "SH927813" + "," + "" + "," + "2018-12-15 09:49:35 -0000" + "," + "Rebecca" + "," + "Jones" + "," + "SH907346"
  {
  }

  /** The two-line text the handler's tests parse: two shipments, the first
      with a nil parent number, the second with the order number "" and the
      number without its indentation. */
  lemma SampleData()
    ensures var shipments := Parse(
      "SH348503" + "," + "O567843" + "," + "2018-12-10 15:08:58 -0000" + "," + "Jane" + "," + "Smith" + "," + ""
      + "\n" +
      ("    " + "SH927813" + "," + "" + "," + "2018-12-15 09:49:35 -0000" + "," + "Rebecca" + "," + "Jones" + "," + "SH907346")
      ).value.shipments;
      && |shipments| == 2
      && shipments[0] == Shipment(number := Some("SH348503"), orderNumber := Some("O567843"),
           shipmentDate := Some("2018-12-10 15:08:58 -0000"), firstName := Some("Jane"),
           lastName := Some("Smith"), parentNumber := None)
      && shipments[1] == Shipment(number := Some("SH927813"), orderNumber := Some(""),
           shipmentDate := Some("2018-12-15 09:49:35 -0000"), firstName := Some("Rebecca"),
           lastName := Some("Jones"), parentNumber := Some("SH907346"))
  {
    var one := "SH348503" + "," + "O567843" + "," + "2018-12-10 15:08:58 -0000" + "," + "Jane" + "," + "Smith" + "," + "";
    var two := "    " + "SH927813" + "," + "" + "," + "2018-12-15 09:49:35 -0000" + "," + "Rebecca" + "," + "Jones" + "," + "SH907346";
    SampleLineOneUnbroken();
    SampleLineTwoUnbroken();
    SampleLineOne();
    SampleLineTwo();
    TwoLines(one, two);
  }

  // ---------------------------------------------------------------------------
  // Lookups
  // ---------------------------------------------------------------------------

  /** Position i holds the first shipment whose number is `number`. */
  predicate IsFirstMatch(shipments: seq<Shipment>, number: Option<string>, i: int) {
    && 0 <= i < |shipments|
    && shipments[i].number == number
    && forall j :: 0 <= j < i ==> shipments[j].number != number
  }

  /** `fetch_shipment(number)`: the first shipment with that number, or nil. */
  function FetchShipment(shipments: seq<Shipment>, number: Option<string>): (r: Option<Shipment>)
    ensures r.None? <==> forall i :: 0 <= i < |shipments| ==> shipments[i].number != number
    ensures r.Some? ==> exists i :: IsFirstMatch(shipments, number, i) && shipments[i] == r.value
    ensures forall i :: IsFirstMatch(shipments, number, i) ==> r == Some(shipments[i])
    decreases |shipments|
  {
    if |shipments| == 0 then None
    else if shipments[0].number == number then
      assert IsFirstMatch(shipments, number, 0);
      Some(shipments[0])
    else
      var r := FetchShipment(shipments[1..], number);
      assert forall i :: IsFirstMatch(shipments[1..], number, i) ==> IsFirstMatch(shipments, number, i + 1);
      assert forall i :: IsFirstMatch(shipments, number, i) ==> IsFirstMatch(shipments[1..], number, i - 1);
      r
  }

  /** `find_shipment(number)`: the attributes of the first shipment with that
      number, or nil when there is none. */
  function FindShipment(h: ShipmentsHandler, number: Option<string>): (r: Option<map<Key, Value>>)
    ensures r.None? <==> forall i :: 0 <= i < |h.shipments| ==> h.shipments[i].number != number
    ensures r.Some? ==> exists i :: IsFirstMatch(h.shipments, number, i) && r.value == BaseAttributes(h.shipments[i])
  {
    match FetchShipment(h.shipments, number)
    case None => None
    case Some(s) => Some(BaseAttributes(s))
  }

  /** `find_shipment_with_computed_properties(number)`: `attributes(true)` of
      the first shipment with that number, or nil when there is none. */
  function FindShipmentWithComputedProperties(h: ShipmentsHandler, number: Option<string>, clock: Clock)
    : (r: Result<Option<map<Key, Value>>, Error>)
    ensures (forall i :: 0 <= i < |h.shipments| ==> h.shipments[i].number != number) ==> r == Success(None)
    ensures forall i :: IsFirstMatch(h.shipments, number, i) ==>
      && (r.Failure? <==> ComputedAttributes(h.shipments[i], clock).Failure?)
      && (r.Success? ==> r.value == Some(ComputedAttributes(h.shipments[i], clock).value))
      && (r.Failure? ==> r.error == ComputedAttributes(h.shipments[i], clock).error)
  {
    match FetchShipment(h.shipments, number)
    case None => Success(None)
    case Some(s) =>
      var attrs :- ComputedAttributes(s, clock);
      Success(Some(attrs))
  }

  /** `shipments.select { |s| s.order_number == order_number }`. */
  function Select(shipments: seq<Shipment>, orderNumber: Option<string>): (r: seq<Shipment>)
    ensures |r| <= |shipments|
    ensures forall i :: 0 <= i < |r| ==> r[i] in shipments && r[i].orderNumber == orderNumber
    ensures forall i :: 0 <= i < |shipments| && shipments[i].orderNumber == orderNumber ==> shipments[i] in r
    ensures (forall i :: 0 <= i < |shipments| ==> shipments[i].orderNumber != orderNumber) ==> r == []
    decreases |shipments|
  {
    if |shipments| == 0 then []
    else
      var rest := Select(shipments[1..], orderNumber);
      assert forall i :: 1 <= i < |shipments| ==> shipments[i] == shipments[1..][i - 1];
      if shipments[0].orderNumber == orderNumber then [shipments[0]] + rest else rest
  }

  /** Selecting from two consecutive runs selects from each in turn: the
      selection keeps collection order. */
  lemma {:induction false} SelectAppend(a: seq<Shipment>, b: seq<Shipment>, orderNumber: Option<string>)
    ensures Select(a + b, orderNumber) == Select(a, orderNumber) + Select(b, orderNumber)
    decreases |a|
  {
    if |a| > 0 {
      assert (a + b)[0] == a[0];
      assert (a + b)[1..] == a[1..] + b;
      SelectAppend(a[1..], b, orderNumber);
    } else {
      assert a + b == b;
    }
  }

  /** `attributes(true)` succeeds on every one of `shipments`. */
  predicate AllComputable(shipments: seq<Shipment>, clock: Clock) {
    forall k :: 0 <= k < |shipments| ==> ComputedAttributes(shipments[k], clock).Success?
  }

  /** Position k holds the first of `shipments` on which `attributes(true)` raises. */
  predicate IsFirstFailure(shipments: seq<Shipment>, clock: Clock, k: int) {
    && 0 <= k < |shipments|
    && ComputedAttributes(shipments[k], clock).Failure?
    && forall j :: 0 <= j < k ==> ComputedAttributes(shipments[j], clock).Success?
  }

  /** `shipments.map { |s| s.attributes(true) }`: the computed attributes of
      each shipment in turn; raises what the first shipment that raises does.
      This is `MapRaising` with `attributes(true)` as the block
      (`AllComputedAttributesIsMap`), written out so that its contract speaks
      of `ComputedAttributes` directly. */
  function AllComputedAttributes(shipments: seq<Shipment>, clock: Clock)
    : (r: Result<seq<map<Key, Value>>, Error>)
    ensures r.Success? <==> AllComputable(shipments, clock)
    ensures r.Success? ==>
      && |r.value| == |shipments|
      && forall k :: 0 <= k < |shipments| ==> ComputedAttributes(shipments[k], clock) == Success(r.value[k])
    ensures r.Failure? ==>
      exists k :: IsFirstFailure(shipments, clock, k) && r.error == ComputedAttributes(shipments[k], clock).error
    decreases |shipments|
  {
    if |shipments| == 0 then Success([])
    else
      match ComputedAttributes(shipments[0], clock)
      case Failure(e) =>
        assert IsFirstFailure(shipments, clock, 0);
        Failure(e)
      case Success(a) =>
        match AllComputedAttributes(shipments[1..], clock)
        case Failure(e) =>
          assert forall k :: IsFirstFailure(shipments[1..], clock, k) ==> IsFirstFailure(shipments, clock, k + 1);
          Failure(e)
        case Success(others) =>
          assert forall k :: 1 <= k < |shipments| ==> shipments[k] == shipments[1..][k - 1];
          Success([a] + others)
  }

  /** `AllComputedAttributes` is `MapRaising` with `attributes(true)` as the
      block. */
  lemma {:induction false} AllComputedAttributesIsMap(shipments: seq<Shipment>, clock: Clock)
    ensures AllComputedAttributes(shipments, clock) == MapRaising(shipments, s => ComputedAttributes(s, clock))
    decreases |shipments|
  {
    if |shipments| > 0 {
      AllComputedAttributesIsMap(shipments[1..], clock);
    }
  }

  /** `find_associated_shipments(order_number)`: `attributes(true)` of every
      shipment with that order number, in collection order; an empty list,
      never nil, when none has it. */
  function FindAssociatedShipments(h: ShipmentsHandler, orderNumber: Option<string>, clock: Clock)
    : (r: Result<seq<map<Key, Value>>, Error>)
    ensures var matched := Select(h.shipments, orderNumber);
      && (r.Success? <==> AllComputable(matched, clock))
      && (r.Success? ==>
            && |r.value| == |matched|
            && forall k :: 0 <= k < |matched| ==> ComputedAttributes(matched[k], clock) == Success(r.value[k]))
    ensures var matched := Select(h.shipments, orderNumber);
      r.Failure? ==>
        exists k :: IsFirstFailure(matched, clock, k) && r.error == ComputedAttributes(matched[k], clock).error
    ensures (forall i :: 0 <= i < |h.shipments| ==> h.shipments[i].orderNumber != orderNumber) ==> r == Success([])
  {
    var matched := Select(h.shipments, orderNumber);
    AllComputedAttributes(matched, clock)
  }

  // ---------------------------------------------------------------------------
  // The printed listing
  // ---------------------------------------------------------------------------

  /** What one iteration prints before its separator: the 1-based heading and `to_str`. */
  function Block(k: nat, s: Shipment): string {
    "Shipment #" + NatToDecimal(k) + ":\n" + ToStr(s)
  }

  function Blocks(shipments: seq<Shipment>): (r: seq<string>)
    ensures |r| == |shipments|
    ensures forall k :: 0 <= k < |r| ==> r[k] == Block(k + 1, shipments[k])
  {
    seq(|shipments|, k requires 0 <= k < |shipments| => Block(k + 1, shipments[k]))
  }

  /** Everything `print_all_shipments` prints: the blocks separated by one
      blank line, with nothing after the last. It is empty exactly when there
      are no shipments, and otherwise starts with the first shipment's block. */
  function Listing(shipments: seq<Shipment>): (r: string)
    ensures r == "" <==> |shipments| == 0
    ensures |shipments| > 0 ==> Block(1, shipments[0]) <= r
  {
    Join(Blocks(shipments), "\n\n")
  }

  /** One more shipment adds a blank line and its block to the listing. */
  lemma ListingSnoc(shipments: seq<Shipment>, s: Shipment)
    requires shipments != []
    ensures Listing(shipments + [s]) == Listing(shipments) + "\n\n" + Block(|shipments| + 1, s)
  {
    assert Blocks(shipments + [s]) == Blocks(shipments) + [Block(|shipments| + 1, s)];
    JoinSnoc(Blocks(shipments), Block(|shipments| + 1, s), "\n\n");
  }

  /** The listing of the first index + 1 shipments: the listing of the first
      index ones and a blank line, unless there are none, then the next block. */
  lemma ListingStep(shipments: seq<Shipment>, index: nat)
    requires index < |shipments|
    ensures Listing(shipments[..index + 1]) ==
      (if index == 0 then "" else Listing(shipments[..index]) + "\n\n") + Block(index + 1, shipments[index])
  {
    assert shipments[..index + 1] == shipments[..index] + [shipments[index]];
    if index == 0 {
      assert Blocks(shipments[..1]) == [Block(1, shipments[0])];
    } else {
      ListingSnoc(shipments[..index], shipments[index]);
    }
  }

  /** Two shipments print as two numbered blocks with one blank line between. */
  lemma ListingTwo(a: Shipment, b: Shipment)
    ensures Listing([a, b]) == "Shipment #1:\n" + ToStr(a) + "\n\n" + "Shipment #2:\n" + ToStr(b)
  {
    assert NatToDecimal(1) == "1" && NatToDecimal(2) == "2";
    assert Blocks([a, b]) == [Block(1, a), Block(2, b)];
    assert [Block(1, a), Block(2, b)][1..] == [Block(2, b)];
    assert Join([Block(2, b)], "\n\n") == Block(2, b);
    assert Listing([a, b]) == Block(1, a) + "\n\n" + Block(2, b);
  }

  /** `print_all_shipments`: prints each shipment's heading and `to_str`,
      followed by a blank line unless it is the last, and returns itself. */
  method PrintAllShipments(h: ShipmentsHandler) returns (output: string, self: ShipmentsHandler)
    ensures output == Listing(h.shipments)
    ensures self == h
  {
    var shipments := h.shipments;
    output := "";
    for index := 0 to |shipments|
      invariant index == 0 ==> output == ""
      invariant 0 < index ==>
        output == Listing(shipments[..index]) + (if index < |shipments| then "\n\n" else "")
    {
      ghost var before := output;
      var heading := "Shipment #" + NatToDecimal(index + 1) + ":\n";
      output := output + heading;
      output := output + ToStr(shipments[index]);
      AppendAssoc(before, heading, ToStr(shipments[index]));
      ListingStep(shipments, index);
      if index != |shipments| - 1 {
        output := output + "\n\n";
      }
    }
    assert shipments[..|shipments|] == shipments;
    self := h;
  }
}
