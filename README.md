# Shipments: a Dafny model

A model of a small Ruby batch utility that reads shipment records, one per
line with comma-separated fields, into a collection and answers lookups on it.
It has two parts:

- **`Shipment`** (`lib/shipment.rb`, module `Shipments` in `shipment.dfy`):
  an immutable value built from a keyed attribute hash. It renders itself as
  one labelled line (`to_str`), composes a full name, and counts the days since
  it shipped (`days_ago`).
- **`ShipmentsHandler`** (`lib/shipments_handler.rb`, module
  `ShipmentsHandlers` in `shipments_handler.dfy`): parses a block of text into
  shipments, finds a shipment by number (with or without computed properties),
  finds every shipment of an order, and prints a numbered listing.

Two supporting modules hold what the Ruby code takes from its core library:

- `ruby_string.dfy` (module `RubyString`): `String#split` with a one-character
  literal separator, `String#strip`, `Array#join` and `Integer#to_s`.
- `wrappers.dfy` (module `Wrappers`): `Option` and `Result`.

How Ruby maps onto the model:

- A field value is a Ruby string or `nil`, so it is an `Option<string>`.
- An attribute hash is a `map` keyed by the datatype `Key`, one constructor per
  symbol.
- An exception is the `Failure` side of a `Result`:
  - `KeyError(key)` for `Hash#fetch` on an absent key;
  - `TypeError` when the shipment date is `nil` (`DateTime.parse(nil)`);
  - `DateError` (`Date::Error`, an `ArgumentError`) when the shipment date
    text cannot be read as a date.
- `ShipmentsHandler` is a value. Its methods never reassign its shipments
  after `initialize`, so every query is a function of that value.
- `print_all_shipments` is a method whose loop appends to an output string
  where the Ruby code prints. It is proved equal to the function `Listing`.
- Interpolating `nil` into a string gives empty text (`Shipments.Show`).

`days_ago` depends on the wall clock and on `DateTime.parse`. The model takes
both as a parameter, `Clock(today, dayOf)`:

- `today` is today's day number;
- `dayOf` reads a timestamp as a day number with the time of day dropped, or
  gives `None` when it cannot read it.

The model itself contains only the subtraction at `lib/shipment.rb:35`.

### Where the code and its tests disagree

In the first case the model follows the code, and a lemma shows what the code
does. In the second the code has nothing to follow, so the model follows the
tests.

- **`order_number` is required.** `spec/shipment_spec.rb:37-45` builds a
  shipment without `order_number` and expects `"N/A"`. But
  `lib/shipment.rb:12` fetches `order_number` without a default, so it raises
  `KeyError` (`Shipments.OrderNumberIsRequired`). Only `parent_number` has the
  `"N/A"` default.
- **`attributes` is not defined.** `lib/shipments_handler.rb:46,51,60` call
  `attributes` and `attributes(true)`, and `spec/shipment_spec.rb:113-147`
  tests them, but `lib/shipment.rb` does not define them. As written, those
  three lookups raise `NoMethodError` whenever a shipment matches.
  `Shipments.BaseAttributes` and `Shipments.ComputedAttributes` are built only
  from the keys and values those tests assert.

### Behaviour a reader might not expect

No test contradicts these; the model follows the code, and a lemma shows each.

- **A present empty value is kept.** An order or parent number that is present
  but `nil` or `""` is stored as given, not replaced by `"N/A"`. Parsing never
  gives `"N/A"` at all, because `shipment_attributes` always supplies all six
  keys:
  - a trailing comma gives a `nil` parent (`ShipmentsHandlers.TrailingCommaLine`);
  - an empty order field gives `""` (`ShipmentsHandlers.SixFieldLine` with an
    empty field);
  - both happen in the two-line sample the handler's tests parse
    (`ShipmentsHandlers.SampleData`).
- **Parsing never raises.** An empty line does not fail: it gives a shipment
  whose fields are all `nil` (`ShipmentsHandlers.EmptyLine`). A line of only
  spaces gives a number of `""` and nil for the rest
  (`ShipmentsHandlers.FieldsPositional` with one part). Only trailing empty
  lines are dropped, by `split`.

## Model

| member | source | states |
|---|---|---|
| `Shipments.NewShipment` | lib/shipment.rb:8-15 | Raises KeyError exactly when one of first_name, last_name, number, order_number, shipment_date is absent, naming the first absent one in fetch order; otherwise every field is the supplied value verbatim (nil and "" kept) and parent_number is the supplied value, or "N/A" when its key is absent |
| `Shipments.OrderNumberIsRequired` | lib/shipment.rb:12 | A hash with the names and number but no order_number raises KeyError(order_number), parent number or not |
| `Shipments.ToStr` | lib/shipment.rb:17-62 | to_str is exactly "Number: n, Order Number: o, Shipped: d, First Name: f, Last Name: l, Parent Shipment: p": the six labelled segments in that order, joined with ", ", nil rendered as empty text |
| `Shipments.ToStrWithoutParent` | lib/shipment.rb:60-62 | A shipment built without a parent_number key renders ending in "Parent Shipment: N/A" |
| `Shipments.FullName` | lib/shipment.rb:28-30 | full_name splits as first name, one space, last name, with nothing trimmed |
| `Shipments.DaysAgo` | lib/shipment.rb:35 | Adding the result to the shipped day number gives today's day number |
| `Shipments.ShipmentDaysAgo` | lib/shipment.rb:32-36 | Raises TypeError when the date is nil and Date::Error when it is unreadable, and only then; otherwise shipped day + result = today |
| `Shipments.DaysAgoAfter` | spec/shipment_spec.rb:91-110 | n days after the shipping day, at any time of day, days_ago is n; on the shipping day itself it is 0 |
| `Shipments.BaseAttributes` | spec/shipment_spec.rb:113-126 | attributes has exactly the keys number, order_number, shipment_date, first_name, last_name, parent_number, each holding that field |
| `Shipments.AttributesRebuild` | spec/shipment_spec.rb:113-126 | Building a shipment from what attributes reports gives the same shipment back |
| `Shipments.ComputedAttributesContents` | spec/shipment_spec.rb:128-147 | `ComputedAttributes`, that is attributes(true), has those six keys plus full_name and days_ago, holding the same fields, full_name and days_ago; it raises what days_ago raises, exactly when days_ago does |
| `RubyString.Join` | lib/shipment.rb:25 | Array#join gives "" for no parts and otherwise starts with the first part |
| `RubyString.Pieces` | lib/shipments_handler.rb:17 | There is at least one piece and no piece contains the separator |
| `RubyString.DropTrailingEmpty` | lib/shipments_handler.rb:6 | The result is a prefix of the input, does not end with "", and only "" pieces were removed |
| `RubyString.Split` | lib/shipments_handler.rb:6 | No element contains the separator and the last element is never "" |
| `RubyString.SplitEmpty` | lib/shipments_handler.rb:6 | "".split(sep) is [] |
| `RubyString.JoinPieces` | lib/shipments_handler.rb:17 | Joining the pieces with the separator gives the string back |
| `RubyString.SplitJoin` | lib/shipments_handler.rb:6 | A string that does not end with the separator is its split joined with the separator |
| `RubyString.PiecesOfJoin` | lib/shipments_handler.rb:17 | Splitting a join of separator-free parts gives the parts back |
| `RubyString.SplitOfJoin` | lib/shipments_handler.rb:17 | split of such a join is the parts without their trailing empty parts |
| `RubyString.Strip` | lib/shipments_handler.rb:17 | strip returns a contiguous slice of the input, with only whitespace cut from each end, that neither starts nor ends with whitespace |
| `RubyString.StripKeepsOut` | lib/shipments_handler.rb:17 | strip only removes characters: one absent from the string is absent from its strip |
| `RubyString.StripIdempotent` | lib/shipments_handler.rb:17 | Stripping twice equals stripping once |
| `RubyString.StripUnpadded` | lib/shipments_handler.rb:17 | A string that neither starts nor ends with whitespace strips to itself |
| `RubyString.StripIndented` | lib/shipments_handler.rb:17 | Leading whitespace before such a string is removed and nothing else |
| `RubyString.StripAllWhitespace` | lib/shipments_handler.rb:17 | A whitespace-only string strips to "" |
| `RubyString.NatToDecimal` | lib/shipments_handler.rb:37 | Integer#to_s gives at least one decimal digit, with no leading zero |
| `RubyString.DecimalRoundTrip` | lib/shipments_handler.rb:37 | Reading the digits of n.to_s back gives n |
| `ShipmentsHandlers.MapRaising` | lib/shipments_handler.rb:7-9 | map succeeds exactly when every element's block succeeds, giving their results in order; otherwise it raises what the first failing element raises |
| `ShipmentsHandlers.InitializeKeepsShipments` | lib/shipments_handler.rb:29-33 | initialize keeps the given collection and the shipments reader returns it unchanged |
| `ShipmentsHandlers.Fields` | lib/shipments_handler.rb:17 | One field per element of line.split(","), none holding a comma, none starting or ending with whitespace; `FieldsPositional` states what each field holds |
| `ShipmentsHandlers.FieldsPositional` | lib/shipments_handler.rb:17-25 | For a line of any number of comma-free parts, field k is part k stripped, and nil once k is past the last part that is not a trailing empty one |
| `ShipmentsHandlers.HashOfFields` | lib/shipments_handler.rb:16-26 | The hash shipment_attributes builds (`ShipmentAttributes`) always has all six keys, each bound to the field at its position (`FieldAt`), or nil past the last field |
| `ShipmentsHandlers.BuildShipment` | lib/shipments_handler.rb:8 | Shipment.new(shipment_attributes(line)) never raises, whatever the line, and yields the fields by position |
| `ShipmentsHandlers.EmptyLine` | lib/shipments_handler.rb:17-25 | An empty line yields a shipment with all six fields nil |
| `ShipmentsHandlers.Parse` | lib/shipments_handler.rb:5-12 | parse never raises and gives one shipment per element of data.split("\n"), in line order, each read by position |
| `ShipmentsHandlers.SixFieldLine` | lib/shipments_handler.rb:17-25 | A line of six comma-free fields, the last not empty, gives a shipment whose number, order number, date, first name, last name and parent number are those fields stripped, in that order |
| `ShipmentsHandlers.TrailingCommaLine` | lib/shipments_handler.rb:17-25 | Five fields and a trailing comma give a nil parent_number, not "N/A" |
| `ShipmentsHandlers.BlankParentField` | lib/shipments_handler.rb:17 | A whitespace-only last field survives as "", because split drops empty pieces before strip runs |
| `ShipmentsHandlers.TwoLines` | spec/shipments_handler_spec.rb:38-43 | Two lines, the second not empty, give two shipments, each read by position from its own line, in order |
| `ShipmentsHandlers.SampleLineOneShape` | lib/shipments_handler.rb:17-25 | Five unpadded comma-free fields and a trailing comma give those fields verbatim and a nil parent number |
| `ShipmentsHandlers.SampleLineTwoShape` | lib/shipments_handler.rb:17-25 | An indented number, an empty order field and four unpadded fields give the number without its indentation, order number "" and the rest verbatim |
| `ShipmentsHandlers.SampleLineOne` | spec/shipments_handler_spec.rb:7 | The tests' first line reads as number SH348503, order O567843, its date, Jane, Smith and a nil parent number |
| `ShipmentsHandlers.SampleLineTwo` | spec/shipments_handler_spec.rb:8 | The tests' indented second line reads as number SH927813, order number "", its date, Rebecca, Jones and parent SH907346 |
| `ShipmentsHandlers.SampleData` | spec/shipments_handler_spec.rb:6-9 | Parsing the tests' two-line data gives exactly those two shipments, in that order |
| `ShipmentsHandlers.FetchShipment` | lib/shipments_handler.rb:66-70 | The result is nil exactly when no shipment has the number; otherwise it is the first shipment with that number, and whenever position i holds the first match the result is the shipment at i |
| `ShipmentsHandlers.FindShipment` | lib/shipments_handler.rb:44-47 | nil exactly when no shipment has the number; otherwise the attributes of the first shipment with it |
| `ShipmentsHandlers.FindShipmentWithComputedProperties` | lib/shipments_handler.rb:49-52 | nil when no shipment has the number; otherwise attributes(true) of the first shipment with it, raising exactly when that does and with the same error |
| `ShipmentsHandlers.Select` | lib/shipments_handler.rb:55-57 | Every selected shipment is in the collection and has the order number, every shipment with it is selected, and nothing is selected when none has it |
| `ShipmentsHandlers.SelectAppend` | lib/shipments_handler.rb:55-57 | Selecting from a + b is selecting from a, then from b, so collection order is kept |
| `ShipmentsHandlers.AllComputedAttributesIsMap` | lib/shipments_handler.rb:60 | The map of attributes(true) over the matched shipments is `MapRaising` with attributes(true) as the block |
| `ShipmentsHandlers.AllComputedAttributes` | lib/shipments_handler.rb:60 | The map succeeds exactly when attributes(true) succeeds on every shipment, giving their results in order; otherwise it raises what the first shipment that fails raises (`IsFirstFailure`) |
| `ShipmentsHandlers.FindAssociatedShipments` | lib/shipments_handler.rb:54-62 | attributes(true) of every selected shipment, in order; an empty list, never nil, when none matches; raises exactly when one of them does, with the error of the first matched shipment that raises |
| `ShipmentsHandlers.Listing` | lib/shipments_handler.rb:35-42 | What print_all_shipments prints is empty exactly when there are no shipments, and otherwise starts with "Shipment #1:\n" and the first to_str |
| `ShipmentsHandlers.ListingStep` | lib/shipments_handler.rb:36-40 | `Listing(shipments[..index + 1])` is `Listing(shipments[..index])`, then "\n\n" unless index is 0, then the heading "Shipment #(index+1):\n" and to_str of shipment index: the blank line the loop prints at the end of one iteration comes before the next block |
| `ShipmentsHandlers.PrintAllShipments` | lib/shipments_handler.rb:35-42 | The loop's output equals Listing of the shipments, and the handler itself is returned |
| `ShipmentsHandlers.ListingSnoc` | lib/shipments_handler.rb:36-40 | One more shipment adds one blank line and "Shipment #k:\n" + to_str, and nothing after it |
| `ShipmentsHandlers.ListingTwo` | spec/shipments_handler_spec.rb:53-63 | Two shipments print "Shipment #1:\n" + to_str + "\n\n" + "Shipment #2:\n" + to_str |

## Left out

- Writing to standard output: `print_all_shipments` returns what it would print as a string.
- `Date.today` and `DateTime.parse(..).to_date` are a clock and a foreign date parser. They come in as `Clock`, and only the subtraction is modelled.
- ShipmentDaysAgo: "independent of the time of day" is only as strong as `Clock.dayOf`. That function is assumed to drop the time of day, and time zones are not modelled.
- The body of `attributes` does not exist in `lib/shipment.rb`. `BaseAttributes` and `ComputedAttributes` state only the key sets and values the tests assert. `attributes(true)` is assumed to raise exactly when `days_ago` does.
- FindShipment, FindShipmentWithComputedProperties, FindAssociatedShipments: `lib/shipment.rb` defines no `attributes`, so as written `lib/shipments_handler.rb:46,51,60` raise `NoMethodError` whenever a shipment matches. These members return what the tests expect `attributes` and `attributes(true)` to return, not that error.
- Aliasing of the shipments array: `initialize` keeps the caller's array by reference and `attr_reader :shipments` hands that same array out, so code outside the handler can change the collection later. A value model cannot show such changes, so the model promises only what holds while nobody changes that array.
- Object identity: `print_all_shipments` returns `self`. For a value this is equality, which is weaker than the `be(handler)` identity the test checks.
- Attribute hashes hold only the known symbols, and field values are strings or nil. `initialize` ignores any other key, so such keys cannot be represented. Values of other Ruby classes are not modelled.
- `String#split` is modelled only for a one-character literal separator other than a space, the only kind the code uses; `Split` requires that.
- Strings are sequences of characters; encodings are not modelled. `strip` removes NUL, tab, line feed, vertical tab, form feed, carriage return and space at both ends, as current Ruby does. Older Ruby versions kept a leading NUL.
- RSpec doubles (`allow(...).to receive`) and `Timecop` in the tests are test scaffolding, not behaviour.
