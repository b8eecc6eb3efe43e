/**
 The bounded estimate of a packet's wire size, and the JSON text it estimates.
 Strings are sequences of UTF-16 code units; packets are trees.
 */
module PacketSize {
  import opened CodeUnits
  import opened Numbers

  const PACKET_MAX_DEPTH := 64
  const PACKET_MAX_NODES := 100_000
  const ENVELOPE_OVERHEAD_BYTES := 64
  const BINARY_OVERHEAD_BYTES := 64
  const CALLBACK_OVERHEAD_BYTES := 16

  type Ascii = n: int | 0 <= n < 0x80

  datatype Entry = Entry(key: Text, value: Value)

  /** `Unsupported` stands for bigints, symbols, accessors and objects that are not plain. */
  datatype Value =
    | Null
    | Boolean(b: bool)
    | Number(finite: bool, text: seq<Ascii>)
    | Str(units: Text)
    | Undefined
    | Callback
    | Binary(byteLength: nat)
    | Unsupported
    | Array(items: seq<Value>)
    | Object(entries: seq<Entry>)

  /** The length of the UTF-8 encoding; a lone surrogate is encoded as U+FFFD. */
  function Utf8Length(s: Text): nat
    decreases |s|
  {
    if s == [] then 0
    else if StartsPair(s) then 4 + Utf8Length(s[2..])
    else UnitLength(s[0]) + Utf8Length(s[1..])
  }

  function UnitLength(c: CodeUnit): nat {
    if c < 0x80 then 1 else if c < 0x800 then 2 else 3
  }

  // ----- the JSON text

  function Hex(n: int): Ascii
    requires 0 <= n < 16
  {
    if n < 10 then 0x30 + n else 0x61 + n - 10
  }

  function UnicodeEscape(c: CodeUnit): Text {
    [0x5c, 0x75, Hex(c / 0x1000), Hex(c / 0x100 % 0x10), Hex(c / 0x10 % 0x10), Hex(c % 0x10)]
  }

  predicate ShortEscaped(c: CodeUnit) {
    c in {0x22, 0x5c, 0x08, 0x09, 0x0a, 0x0c, 0x0d}
  }

  function ShortEscape(c: CodeUnit): Text
    requires ShortEscaped(c)
  {
    [0x5c, if c == 0x08 then 0x62 else if c == 0x09 then 0x74 else if c == 0x0a then 0x6e
           else if c == 0x0c then 0x66 else if c == 0x0d then 0x72 else c]
  }

  function EscapeUnit(c: CodeUnit): Text {
    if ShortEscaped(c) then ShortEscape(c)
    else if c < 0x20 || High(c) || Low(c) then UnicodeEscape(c)
    else [c]
  }

  function Escape(s: Text): Text
    decreases |s|
  {
    if s == [] then []
    else if StartsPair(s) then s[..2] + Escape(s[2..])
    else EscapeUnit(s[0]) + Escape(s[1..])
  }

  function Quote(s: Text): Text {
    [0x22] + Escape(s) + [0x22]
  }

  const NULL_TEXT: Text := [0x6e, 0x75, 0x6c, 0x6c]
  const TRUE_TEXT: Text := [0x74, 0x72, 0x75, 0x65]
  const FALSE_TEXT: Text := [0x66, 0x61, 0x6c, 0x73, 0x65]

  predicate IsJson(v: Value) {
    match v
    case Undefined => false
    case Callback => false
    case Binary(_) => false
    case Unsupported => false
    case Array(items) => forall i | 0 <= i < |items| :: IsJson(items[i])
    case Object(entries) => forall i | 0 <= i < |entries| :: IsJson(entries[i].value)
    case _ => true
  }

  function JsonText(v: Value): Text
    decreases v, 1
  {
    match v
    case Boolean(b) => if b then TRUE_TEXT else FALSE_TEXT
    case Number(finite, text) => if finite then text else NULL_TEXT
    case Str(units) => Quote(units)
    case Array(items) => [0x5b] + ItemsText(items) + [0x5d]
    case Object(entries) => [0x7b] + EntriesText(entries) + [0x7d]
    case _ => NULL_TEXT
  }

  function ItemsText(items: seq<Value>): Text
    decreases items, 0
  {
    if items == [] then []
    else JsonText(items[0]) + (if |items| > 1 then [0x2c] else []) + ItemsText(items[1..])
  }

  function EntriesText(entries: seq<Entry>): Text
    decreases entries, 0
  {
    if entries == [] then []
    else Quote(entries[0].key) + [0x3a] + JsonText(entries[0].value)
         + (if |entries| > 1 then [0x2c] else []) + EntriesText(entries[1..])
  }

  /** Escapes, one of each kind; a pair stays as it is. */
  lemma EscapeExample()
    ensures Escape([0x61]) == [0x61] && Escape([0x22]) == [0x5c, 0x22] && Escape([0x5c]) == [0x5c, 0x5c]
    ensures Escape([0x08]) == [0x5c, 0x62] && Escape([0x09]) == [0x5c, 0x74] && Escape([0x0a]) == [0x5c, 0x6e]
    ensures Escape([0x0c]) == [0x5c, 0x66] && Escape([0x0d]) == [0x5c, 0x72]
    ensures Escape([0x1f]) == [0x5c, 0x75, 0x30, 0x30, 0x31, 0x66]
    ensures Escape([0xd800]) == [0x5c, 0x75, 0x64, 0x38, 0x30, 0x30]
    ensures Escape([0xdfff]) == [0x5c, 0x75, 0x64, 0x66, 0x66, 0x66]
    ensures Escape([0xd83d, 0xde00]) == [0xd83d, 0xde00]
  {
    assert [0xd83d, 0xde00][..2] == [0xd83d, 0xde00];
  }

  lemma MoreItems(v: Value, rest: seq<Value>)
    ensures ItemsText([v] + rest) == JsonText(v) + (if rest != [] then [0x2c] else []) + ItemsText(rest)
  {
    assert ([v] + rest)[1..] == rest;
  }

  lemma MoreEntries(key: Text, v: Value, rest: seq<Entry>)
    ensures EntriesText([Entry(key, v)] + rest)
         == Quote(key) + [0x3a] + JsonText(v) + (if rest != [] then [0x2c] else []) + EntriesText(rest)
  {
    assert ([Entry(key, v)] + rest)[1..] == rest;
  }

  lemma QuotedLetter(s: Text, c: CodeUnit)
    requires s == [c] && 0x61 <= c <= 0x7a
    ensures Quote(s) == [0x22, c, 0x22]
  {
    assert s[1..] == [];
    assert Escape(s) == [c];
  }

  /** The items null, true, false, 7, infinity, "a" as text, each but the last with its comma. */
  lemma ItemsExample(a: Text, number: Value, infinity: Value)
    requires a == [0x61] && number == Number(true, [0x37]) && infinity == Number(false, [])
    ensures ItemsText([Null] + ([Boolean(true)] + ([Boolean(false)] + ([number] + ([infinity] + ([Str(a)] + []))))))
         == [0x6e, 0x75, 0x6c, 0x6c] + [0x2c] + ([0x74, 0x72, 0x75, 0x65] + [0x2c] + ([0x66, 0x61, 0x6c, 0x73, 0x65] + [0x2c]
            + ([0x37] + [0x2c] + ([0x6e, 0x75, 0x6c, 0x6c] + [0x2c] + ([0x22, 0x61, 0x22] + [] + [])))))
  {
    var i5 := [Str(a)] + [];
    var i4 := [infinity] + i5;
    var i3 := [number] + i4;
    var i2 := [Boolean(false)] + i3;
    var i1 := [Boolean(true)] + i2;
    MoreItems(Null, i1);
    MoreItems(Boolean(true), i2);
    MoreItems(Boolean(false), i3);
    MoreItems(number, i4);
    MoreItems(infinity, i5);
    MoreItems(Str(a), []);
    QuotedLetter(a, 0x61);
  }

  /** The object that holds an array under "k" and an empty object under "l", as text. */
  lemma ObjectExample(items: seq<Value>, k: Text, l: Text)
    requires k == [0x6b] && l == [0x6c]
    ensures JsonText(Object([Entry(k, Array(items))] + ([Entry(l, Object([]))] + [])))
         == [0x7b] + ([0x22, 0x6b, 0x22] + [0x3a] + ([0x5b] + ItemsText(items) + [0x5d]) + [0x2c]
            + ([0x22, 0x6c, 0x22] + [0x3a] + ([0x7b] + [] + [0x7d]) + [] + [])) + [0x7d]
  {
    MoreEntries(k, Array(items), [Entry(l, Object([]))] + []);
    MoreEntries(l, Object([]), []);
    QuotedLetter(k, 0x6b);
    QuotedLetter(l, 0x6c);
  }

  /** Nothing that follows can pair with the end of s. */
  predicate Closed(s: Text) {
    s == [] || !High(s[|s| - 1])
  }

  lemma {:induction false} Utf8Append(a: Text, b: Text)
    requires Closed(a)
    ensures Utf8Length(a + b) == Utf8Length(a) + Utf8Length(b)
    decreases |a|
  {
    if a == [] {
      assert a + b == b;
    } else if StartsPair(a) {
      assert (a + b)[2..] == a[2..] + b;
      Utf8Append(a[2..], b);
    } else {
      assert (a + b)[1..] == a[1..] + b;
      Utf8Append(a[1..], b);
    }
  }

  lemma {:induction false} Utf8Ascii(s: Text)
    requires forall i | 0 <= i < |s| :: s[i] < 0x80
    ensures Utf8Length(s) == |s| && Closed(s)
    decreases |s|
  {
    if s != [] {
      Utf8Ascii(s[1..]);
    }
  }

  // ----- the length of a quoted string

  /** What escaping adds to the UTF-8 length. */
  function Extra(s: Text): nat
    decreases |s|
  {
    if s == [] then 0
    else if StartsPair(s) then Extra(s[2..])
    else UnitExtra(s[0]) + Extra(s[1..])
  }

  function UnitExtra(c: CodeUnit): nat {
    if ShortEscaped(c) then 1 else if c < 0x20 then 5 else if High(c) || Low(c) then 3 else 0
  }

  lemma EscapedUnitLength(c: CodeUnit)
    ensures Closed(EscapeUnit(c)) && Utf8Length(EscapeUnit(c)) == UnitLength(c) + UnitExtra(c)
  {
    var text := EscapeUnit(c);
    if |text| > 1 {
      Utf8Ascii(text);
    } else {
      assert Utf8Length(text) == UnitLength(c) + Utf8Length(text[1..]);
    }
  }

  lemma {:induction false} EscapeLength(s: Text)
    ensures Closed(Escape(s)) && Utf8Length(Escape(s)) == Utf8Length(s) + Extra(s)
    decreases |s|
  {
    if s == [] {
    } else if StartsPair(s) {
      EscapeLength(s[2..]);
      assert Escape(s)[2..] == Escape(s[2..]);
    } else {
      EscapeLength(s[1..]);
      var head := EscapeUnit(s[0]);
      EscapedUnitLength(s[0]);
      Utf8Append(head, Escape(s[1..]));
    }
  }

  lemma QuoteLength(s: Text)
    ensures Closed(Quote(s)) && Utf8Length(Quote(s)) == Utf8Length(s) + Extra(s) + 2
  {
    EscapeLength(s);
    Utf8Append([0x22], Escape(s));
    Utf8Append([0x22] + Escape(s), [0x22]);
    assert Utf8Length([0x22]) == 1;
  }

  /** Exactly the UTF-8 length of the quoted string, lone surrogates and control characters included. */
  method JsonStringBytes(value: Text) returns (bytes: nat)
    ensures bytes == Utf8Length(Quote(value))
  {
    bytes := Utf8Length(value);
    var index := 0;
    while index < |value|
      invariant index <= |value|
      invariant bytes + Extra(value[index..]) == Utf8Length(value) + Extra(value)
    {
      var code := value[index];
      assert value[index..][1..] == value[index + 1..];
      assert StartsPair(value[index..]) ==> value[index..][2..] == value[index + 2..];
      if code == 0x22 || code == 0x5c || code == 0x08 || code == 0x09 || code == 0x0a || code == 0x0c || code == 0x0d {
        bytes := bytes + 1;
      } else if code < 0x20 {
        bytes := bytes + 5;
      } else if 0xd800 <= code <= 0xdbff {
        if index + 1 < |value| && 0xdc00 <= value[index + 1] <= 0xdfff {
          index := index + 1;
        } else {
          bytes := bytes + 3;
        }
      } else if 0xdc00 <= code <= 0xdfff {
        bytes := bytes + 3;
      }
      index := index + 1;
    }
    assert value[index..] == [];
    bytes := bytes + 2;
    QuoteLength(value);
  }

  // ----- what a packet is charged

  datatype Totals = Totals(supported: bool, bytes: nat, nodes: nat, height: nat)

  function Both(a: Totals, b: Totals): Totals {
    Totals(a.supported && b.supported, a.bytes + b.bytes, a.nodes + b.nodes, Max(a.height, b.height))
  }

  const NOTHING := Totals(true, 0, 0, 0)

  function Container(count: nat, inner: Totals): Totals {
    Totals(inner.supported, 2 + Max(count, 1) - 1 + inner.bytes, 1 + inner.nodes, if count == 0 then 0 else 1 + inner.height)
  }

  function Measure(v: Value): (t: Totals)
    ensures t.nodes >= 1
    decreases v, 1
  {
    match v
    case Null => Totals(true, 4, 1, 0)
    case Boolean(b) => Totals(true, if b then 4 else 5, 1, 0)
    case Number(finite, text) => Totals(true, if finite then |text| else 4, 1, 0)
    case Str(units) => Totals(true, Utf8Length(Quote(units)), 1, 0)
    case Undefined => Totals(true, 4, 1, 0)
    case Callback => Totals(true, CALLBACK_OVERHEAD_BYTES, 1, 0)
    case Binary(byteLength) => Totals(true, byteLength + BINARY_OVERHEAD_BYTES, 1, 0)
    case Unsupported => Totals(false, 0, 1, 0)
    case Array(items) => Container(|items|, MeasureItems(items))
    case Object(entries) => Container(|entries|, MeasureEntries(entries))
  }

  function MeasureItems(items: seq<Value>): (t: Totals)
    ensures t.nodes >= |items|
    decreases items, 0
  {
    if items == [] then NOTHING else Both(Measure(items[0]), MeasureItems(items[1..]))
  }

  function MeasureEntries(entries: seq<Entry>): (t: Totals)
    ensures t.nodes >= |entries|
    decreases entries, 0
  {
    if entries == [] then NOTHING
    else
      var t := Measure(entries[0].value);
      Both(t.(bytes := t.bytes + Utf8Length(Quote(entries[0].key)) + 1), MeasureEntries(entries[1..]))
  }

  lemma Bracketed(open: Ascii, inner: Text, close: Ascii)
    requires Closed(inner)
    ensures Closed([open] + inner + [close]) && Utf8Length([open] + inner + [close]) == Utf8Length(inner) + 2
  {
    Utf8Append([open], inner);
    Utf8Append([open] + inner, [close]);
    assert Utf8Length([open]) == 1 && Utf8Length([close]) == 1;
  }

  /** On JSON trees the charge is exactly the UTF-8 length of the JSON text. */
  lemma {:induction false} ChargeIsJsonLength(v: Value)
    requires IsJson(v)
    ensures Measure(v).supported && Measure(v).bytes == Utf8Length(JsonText(v)) && Closed(JsonText(v))
    decreases v, 1
  {
    match v
    case Number(finite, text) => Utf8Ascii(JsonText(v));
    case Str(units) => QuoteLength(units);
    case Array(items) =>
      ItemsLength(items);
      Bracketed(0x5b, ItemsText(items), 0x5d);
    case Object(entries) =>
      EntriesLength(entries);
      Bracketed(0x7b, EntriesText(entries), 0x7d);
    case _ => Utf8Ascii(JsonText(v));
  }

  function Comma(count: nat): Text {
    if count > 1 then [0x2c] else []
  }

  lemma JoinedLength(head: Text, comma: Text, rest: Text)
    requires Closed(head) && Closed(rest) && (comma == [0x2c] || (comma == [] && rest == []))
    ensures Closed(head + comma + rest)
    ensures Utf8Length(head + comma + rest) == Utf8Length(head) + |comma| + Utf8Length(rest)
  {
    Utf8Ascii(comma);
    Utf8Append(head, comma);
    Utf8Append(head + comma, rest);
  }

  lemma {:induction false} ItemsLength(items: seq<Value>)
    requires forall i | 0 <= i < |items| :: IsJson(items[i])
    ensures MeasureItems(items).supported && Closed(ItemsText(items))
    ensures MeasureItems(items).bytes + Max(|items|, 1) - 1 == Utf8Length(ItemsText(items))
    decreases items, 0
  {
    if items != [] {
      ChargeIsJsonLength(items[0]);
      ItemsLength(items[1..]);
      var head, comma, rest := JsonText(items[0]), Comma(|items|), ItemsText(items[1..]);
      JoinedLength(head, comma, rest);
      assert ItemsText(items) == head + comma + rest;
    }
  }

  lemma EntryHeadLength(key: Text, value: Text)
    requires Closed(value)
    ensures Closed(Quote(key) + [0x3a] + value)
    ensures Utf8Length(Quote(key) + [0x3a] + value) == Utf8Length(Quote(key)) + 1 + Utf8Length(value)
  {
    QuoteLength(key);
    Utf8Append(Quote(key), [0x3a]);
    Utf8Ascii([0x3a]);
    Utf8Append(Quote(key) + [0x3a], value);
  }

  lemma {:induction false} EntriesLength(entries: seq<Entry>)
    requires forall i | 0 <= i < |entries| :: IsJson(entries[i].value)
    ensures MeasureEntries(entries).supported && Closed(EntriesText(entries))
    ensures MeasureEntries(entries).bytes + Max(|entries|, 1) - 1 == Utf8Length(EntriesText(entries))
    decreases entries, 0
  {
    if entries != [] {
      ChargeIsJsonLength(entries[0].value);
      EntriesLength(entries[1..]);
      var value := JsonText(entries[0].value);
      EntryHeadLength(entries[0].key, value);
      var head, comma, rest := Quote(entries[0].key) + [0x3a] + value, Comma(|entries|), EntriesText(entries[1..]);
      JoinedLength(head, comma, rest);
      assert EntriesText(entries) == head + comma + rest;
    }
  }

  // ----- the stack loop

  datatype Frame = Frame(value: Value, depth: nat)

  function MeasureFrame(f: Frame): Totals {
    Measure(f.value).(height := f.depth + Measure(f.value).height)
  }

  /** The totals of everything still on the stack, the top of the stack last. */
  function MeasureStack(stack: seq<Frame>): (t: Totals)
    ensures t.nodes >= |stack|
  {
    if stack == [] then NOTHING else Both(MeasureStack(stack[..|stack| - 1]), MeasureFrame(stack[|stack| - 1]))
  }

  predicate Within(t: Totals, cutoff: nat) {
    t.supported && t.nodes <= PACKET_MAX_NODES && t.height <= PACKET_MAX_DEPTH && ENVELOPE_OVERHEAD_BYTES + t.bytes <= cutoff
  }

  function Reported(t: Totals, cutoff: nat): nat {
    if Within(t, cutoff) then ENVELOPE_OVERHEAD_BYTES + t.bytes else cutoff + 1
  }

  // ----- the same totals, told from the nodes of the tree

  /** Every value of a tree, each before its children. */
  function Nodes(v: Value): (nodes: seq<Value>)
    ensures v in nodes
    decreases v, 1
  {
    match v
    case Array(items) => [v] + NodesOfItems(items)
    case Object(entries) => [v] + NodesOfEntries(entries)
    case _ => [v]
  }

  function NodesOfItems(items: seq<Value>): seq<Value>
    decreases items, 0
  {
    if items == [] then [] else Nodes(items[0]) + NodesOfItems(items[1..])
  }

  function NodesOfEntries(entries: seq<Entry>): seq<Value>
    decreases entries, 0
  {
    if entries == [] then [] else Nodes(entries[0].value) + NodesOfEntries(entries[1..])
  }

  /** The tree with each leaf that JSON does not know replaced by null. */
  function WithNulls(v: Value): (j: Value)
    ensures IsJson(j)
    decreases v, 1
  {
    match v
    case Undefined => Null
    case Callback => Null
    case Binary(_) => Null
    case Unsupported => Null
    case Array(items) => Array(ItemsWithNulls(items))
    case Object(entries) => Object(EntriesWithNulls(entries))
    case _ => v
  }

  function ItemsWithNulls(items: seq<Value>): (js: seq<Value>)
    ensures |js| == |items| && forall i | 0 <= i < |js| :: IsJson(js[i])
    decreases items, 0
  {
    if items == [] then [] else [WithNulls(items[0])] + ItemsWithNulls(items[1..])
  }

  function EntriesWithNulls(entries: seq<Entry>): (js: seq<Entry>)
    ensures |js| == |entries| && forall i | 0 <= i < |js| :: IsJson(js[i].value)
    decreases entries, 0
  {
    if entries == [] then [] else [Entry(entries[0].key, WithNulls(entries[0].value))] + EntriesWithNulls(entries[1..])
  }

  /** What the nodes that are not JSON cost beyond the null in their place. */
  function Surcharge(nodes: seq<Value>): nat {
    if nodes == [] then 0
    else
      (match nodes[0]
       case Binary(byteLength) => byteLength + 60
       case Callback => 12
       case _ => 0)
      + Surcharge(nodes[1..])
  }

  lemma {:induction false} SurchargeOfBoth(a: seq<Value>, b: seq<Value>)
    ensures Surcharge(a + b) == Surcharge(a) + Surcharge(b)
    decreases |a|
  {
    if a == [] {
      assert a + b == b;
    } else {
      assert (a + b)[1..] == a[1..] + b;
      SurchargeOfBoth(a[1..], b);
    }
  }

  /** The path of child numbers leads to a value of the tree. */
  predicate Leads(v: Value, path: seq<nat>)
    decreases |path|
  {
    path == []
    || (v.Array? && path[0] < |v.items| && Leads(v.items[path[0]], path[1..]))
    || (v.Object? && path[0] < |v.entries| && Leads(v.entries[path[0]].value, path[1..]))
  }

  ghost predicate NoDeeperThan(v: Value, depth: int) {
    forall path | Leads(v, path) :: |path| <= depth
  }

  /** Charge of a packet: its JSON text, with nulls for what JSON does not know, and the surcharges. */
  function Charge(v: Value): nat {
    Utf8Length(JsonText(WithNulls(v))) + Surcharge(Nodes(v))
  }

  lemma {:induction false} NodesAreCounted(v: Value)
    ensures Measure(v).nodes == |Nodes(v)| && (Measure(v).supported <==> Unsupported !in Nodes(v))
    decreases v, 1
  {
    match v
    case Array(items) => NodesOfItemsAreCounted(items);
    case Object(entries) => NodesOfEntriesAreCounted(entries);
    case _ =>
  }

  lemma {:induction false} NodesOfItemsAreCounted(items: seq<Value>)
    ensures MeasureItems(items).nodes == |NodesOfItems(items)|
    ensures MeasureItems(items).supported <==> Unsupported !in NodesOfItems(items)
    decreases items, 0
  {
    if items != [] {
      NodesAreCounted(items[0]);
      NodesOfItemsAreCounted(items[1..]);
    }
  }

  lemma {:induction false} NodesOfEntriesAreCounted(entries: seq<Entry>)
    ensures MeasureEntries(entries).nodes == |NodesOfEntries(entries)|
    ensures MeasureEntries(entries).supported <==> Unsupported !in NodesOfEntries(entries)
    decreases entries, 0
  {
    if entries != [] {
      NodesAreCounted(entries[0].value);
      NodesOfEntriesAreCounted(entries[1..]);
    }
  }

  /** Where every node is supported, the charge is that of the tree with nulls and the surcharges. */
  lemma {:induction false} BytesAreNullsAndSurcharges(v: Value)
    requires Measure(v).supported
    ensures Measure(v).bytes == Measure(WithNulls(v)).bytes + Surcharge(Nodes(v))
    decreases v, 1
  {
    match v
    case Array(items) =>
      ItemBytes(items);
      SurchargeOfBoth([v], NodesOfItems(items));
    case Object(entries) =>
      EntryBytes(entries);
      SurchargeOfBoth([v], NodesOfEntries(entries));
    case _ =>
  }

  lemma {:induction false} ItemBytes(items: seq<Value>)
    requires MeasureItems(items).supported
    ensures MeasureItems(items).bytes == MeasureItems(ItemsWithNulls(items)).bytes + Surcharge(NodesOfItems(items))
    decreases items, 0
  {
    if items != [] {
      BytesAreNullsAndSurcharges(items[0]);
      ItemBytes(items[1..]);
      assert ItemsWithNulls(items)[1..] == ItemsWithNulls(items[1..]);
      SurchargeOfBoth(Nodes(items[0]), NodesOfItems(items[1..]));
    }
  }

  lemma {:induction false} EntryBytes(entries: seq<Entry>)
    requires MeasureEntries(entries).supported
    ensures MeasureEntries(entries).bytes == MeasureEntries(EntriesWithNulls(entries)).bytes + Surcharge(NodesOfEntries(entries))
    decreases entries, 0
  {
    if entries != [] {
      BytesAreNullsAndSurcharges(entries[0].value);
      EntryBytes(entries[1..]);
      assert EntriesWithNulls(entries)[1..] == EntriesWithNulls(entries[1..]);
      SurchargeOfBoth(Nodes(entries[0].value), NodesOfEntries(entries[1..]));
    }
  }

  /** Some path leads exactly as deep as the height, and none leads deeper. */
  lemma {:induction false} HeightOfItem(v: Value, path: seq<nat>)
    requires Leads(v, path)
    ensures |path| <= Measure(v).height
    decreases |path|
  {
    if path != [] {
      if v.Array? {
        HeightOfItem(v.items[path[0]], path[1..]);
        ItemIsNoHigher(v.items, path[0]);
      } else {
        HeightOfItem(v.entries[path[0]].value, path[1..]);
        EntryIsNoHigher(v.entries, path[0]);
      }
    }
  }

  lemma {:induction false} ItemIsNoHigher(items: seq<Value>, i: nat)
    requires i < |items|
    ensures Measure(items[i]).height <= MeasureItems(items).height
    decreases |items|
  {
    if i > 0 {
      ItemIsNoHigher(items[1..], i - 1);
    }
  }

  lemma {:induction false} EntryIsNoHigher(entries: seq<Entry>, i: nat)
    requires i < |entries|
    ensures Measure(entries[i].value).height <= MeasureEntries(entries).height
    decreases |entries|
  {
    if i > 0 {
      EntryIsNoHigher(entries[1..], i - 1);
    }
  }

  lemma {:induction false} HighestItem(items: seq<Value>) returns (i: nat)
    requires items != []
    ensures i < |items| && Measure(items[i]).height == MeasureItems(items).height
    decreases |items|
  {
    i := 0;
    if |items| > 1 {
      var j := HighestItem(items[1..]);
      if Measure(items[0]).height < MeasureItems(items).height {
        i := j + 1;
      }
    }
  }

  lemma {:induction false} HighestEntry(entries: seq<Entry>) returns (i: nat)
    requires entries != []
    ensures i < |entries| && Measure(entries[i].value).height == MeasureEntries(entries).height
    decreases |entries|
  {
    i := 0;
    if |entries| > 1 {
      var j := HighestEntry(entries[1..]);
      if Measure(entries[0].value).height < MeasureEntries(entries).height {
        i := j + 1;
      }
    }
  }

  lemma {:induction false} DeepestPath(v: Value) returns (path: seq<nat>)
    ensures Leads(v, path) && |path| == Measure(v).height
    decreases v
  {
    path := [];
    if v.Array? && v.items != [] {
      var i := HighestItem(v.items);
      var rest := DeepestPath(v.items[i]);
      path := [i] + rest;
      assert path[1..] == rest;
    } else if v.Object? && v.entries != [] {
      var i := HighestEntry(v.entries);
      assert v.entries[i] in v.entries;
      var rest := DeepestPath(v.entries[i].value);
      path := [i] + rest;
      assert path[1..] == rest;
    }
  }

  lemma HeightIsDepth(v: Value, depth: int)
    ensures Measure(v).height <= depth <==> NoDeeperThan(v, depth)
  {
    var path := DeepestPath(v);
    forall p | Leads(v, p)
      ensures |p| <= Measure(v).height
    {
      HeightOfItem(v, p);
    }
  }

  /** What a packet must be to be charged at all: few nodes, none too deep, none unsupported, within the cutoff. */
  ghost predicate Fits(packet: Value, cutoff: nat) {
    && |Nodes(packet)| <= 100_000
    && NoDeeperThan(packet, 64)
    && Unsupported !in Nodes(packet)
    && 64 + Charge(packet) <= cutoff
  }

  /** The totals of the loop are these. */
  lemma ReportedIsCharge(packet: Value, cutoff: nat)
    ensures Reported(Measure(packet), cutoff) == if Fits(packet, cutoff) then 64 + Charge(packet) else cutoff + 1
  {
    NodesAreCounted(packet);
    HeightIsDepth(packet, 64);
    if Measure(packet).supported {
      BytesAreNullsAndSurcharges(packet);
      ChargeIsJsonLength(WithNulls(packet));
    }
  }

  /** What is left to do, given what the loop has counted so far. */
  predicate Pending(t: Totals, bytes: nat, nodes: nat, rest: Totals) {
    && ENVELOPE_OVERHEAD_BYTES + t.bytes == bytes + rest.bytes
    && t.nodes == nodes + rest.nodes
    && t.supported == rest.supported
    && (t.height <= PACKET_MAX_DEPTH <==> rest.height <= PACKET_MAX_DEPTH)
  }

  /** Items i, i + 1, ... as frames still to be pushed at the given depth. */
  function Unpushed(items: seq<Value>, depth: nat): Totals {
    var t := MeasureItems(items);
    t.(height := if items == [] then 0 else depth + t.height)
  }

  function UnpushedEntries(entries: seq<Entry>, depth: nat): Totals {
    var t := MeasureEntries(entries);
    t.(height := if entries == [] then 0 else depth + t.height)
  }

  lemma BothIsAssociative(a: Totals, b: Totals, c: Totals)
    ensures Both(Both(a, b), c) == Both(a, Both(b, c)) && Both(a, b) == Both(b, a)
  {
  }

  lemma {:induction false} LastItem(items: seq<Value>)
    requires items != []
    ensures MeasureItems(items) == Both(MeasureItems(items[..|items| - 1]), Measure(items[|items| - 1]))
    decreases |items|
  {
    if |items| > 1 {
      LastItem(items[1..]);
      assert items[1..][..|items| - 2] == items[..|items| - 1][1..];
    }
  }

  function MeasureEntry(e: Entry): Totals {
    Measure(e.value).(bytes := Measure(e.value).bytes + Utf8Length(Quote(e.key)) + 1)
  }

  lemma {:induction false} LastEntry(entries: seq<Entry>)
    requires entries != []
    ensures MeasureEntries(entries) == Both(MeasureEntries(entries[..|entries| - 1]), MeasureEntry(entries[|entries| - 1]))
    decreases |entries|
  {
    if |entries| > 1 {
      LastEntry(entries[1..]);
      assert entries[1..][..|entries| - 2] == entries[..|entries| - 1][1..];
    }
  }

  lemma PushOne(stack: seq<Frame>, f: Frame)
    ensures MeasureStack(stack + [f]) == Both(MeasureStack(stack), MeasureFrame(f))
  {
  }

  lemma LastUnpushed(items: seq<Value>, index: nat, depth: nat)
    requires index < |items|
    ensures Unpushed(items[..index + 1], depth) == Both(Unpushed(items[..index], depth), MeasureFrame(Frame(items[index], depth)))
  {
    LastItem(items[..index + 1]);
    assert items[..index + 1][..index] == items[..index];
  }

  lemma LastUnpushedEntry(entries: seq<Entry>, index: nat, depth: nat)
    requires index < |entries|
    ensures var e := MeasureEntry(entries[index]);
      UnpushedEntries(entries[..index + 1], depth)
      == Both(UnpushedEntries(entries[..index], depth), e.(height := depth + e.height))
  {
    LastEntry(entries[..index + 1]);
    assert entries[..index + 1][..index] == entries[..index];
  }

  method PushItems(stack: seq<Frame>, items: seq<Value>, depth: nat) returns (pushed: seq<Frame>)
    ensures |pushed| == |stack| + |items|
    ensures MeasureStack(pushed) == Both(MeasureStack(stack), Unpushed(items, depth))
  {
    pushed := stack;
    var index := |items|;
    assert items[..index] == items;
    while index > 0
      invariant 0 <= index <= |items| && |pushed| == |stack| + |items| - index
      invariant Both(MeasureStack(pushed), Unpushed(items[..index], depth)) == Both(MeasureStack(stack), Unpushed(items, depth))
    {
      index := index - 1;
      var frame := Frame(items[index], depth);
      LastUnpushed(items, index, depth);
      PushOne(pushed, frame);
      BothIsAssociative(MeasureStack(pushed), MeasureFrame(frame), Unpushed(items[..index], depth));
      BothIsAssociative(Unpushed(items[..index], depth), MeasureFrame(frame), NOTHING);
      pushed := pushed + [frame];
    }
    assert items[..0] == [];
  }

  /** The stack holds the rest, except for the bytes already added to the count. */
  predicate Moved(rest: Totals, before: nat, stack: Totals, bytes: nat) {
    before + rest.bytes == bytes + stack.bytes && rest.(bytes := stack.bytes) == stack
  }

  lemma MoveEntry(stack: Totals, unpushed: Totals, frame: Totals, keyBytes: nat, rest: Totals, before: nat, bytes: nat)
    requires Moved(rest, before, Both(stack, Both(unpushed, frame.(bytes := frame.bytes + keyBytes))), bytes)
    ensures Moved(rest, before, Both(Both(stack, frame), unpushed), bytes + keyBytes)
  {
  }

  lemma PushEntryStep(pushed: seq<Frame>, frame: Frame, entries: seq<Entry>, index: nat, depth: nat, rest: Totals, before: nat,
                      bytes: nat, keyBytes: nat)
    requires index < |entries| && frame == Frame(entries[index].value, depth)
    requires keyBytes == Utf8Length(Quote(entries[index].key)) + 1
    requires Moved(rest, before, Both(MeasureStack(pushed), UnpushedEntries(entries[..index + 1], depth)), bytes)
    ensures Moved(rest, before, Both(MeasureStack(pushed + [frame]), UnpushedEntries(entries[..index], depth)), bytes + keyBytes)
    ensures keyBytes + MeasureEntries(entries[..index]).bytes <= MeasureEntries(entries[..index + 1]).bytes
  {
    LastUnpushedEntry(entries, index, depth);
    PushOne(pushed, frame);
    MoveEntry(MeasureStack(pushed), UnpushedEntries(entries[..index], depth), MeasureFrame(frame), keyBytes, rest, before, bytes);
  }

  /** Pushes the entries' values and charges their keys, stopping once the cutoff is passed. */
  method PushEntries(stack: seq<Frame>, entries: seq<Entry>, depth: nat, before: nat, cutoff: nat)
    returns (pushed: seq<Frame>, bytes: nat, exceeded: bool)
    requires before <= cutoff
    ensures exceeded ==> before + MeasureEntries(entries).bytes > cutoff
    ensures !exceeded ==>
      && |pushed| == |stack| + |entries| && bytes <= cutoff
      && Moved(Both(MeasureStack(stack), UnpushedEntries(entries, depth)), before, MeasureStack(pushed), bytes)
  {
    pushed, bytes, exceeded := stack, before, false;
    ghost var rest := Both(MeasureStack(stack), UnpushedEntries(entries, depth));
    var index := |entries|;
    assert entries[..index] == entries;
    while index > 0
      invariant 0 <= index <= |entries| && |pushed| == |stack| + |entries| - index && bytes <= cutoff
      invariant Moved(rest, before, Both(MeasureStack(pushed), UnpushedEntries(entries[..index], depth)), bytes)
      invariant bytes + MeasureEntries(entries[..index]).bytes <= before + MeasureEntries(entries).bytes
    {
      index := index - 1;
      var frame := Frame(entries[index].value, depth);
      var keyBytes := JsonStringBytes(entries[index].key);
      PushEntryStep(pushed, frame, entries, index, depth, rest, before, bytes, keyBytes + 1);
      bytes := bytes + keyBytes + 1;
      if bytes > cutoff {
        exceeded := true;
        return;
      }
      pushed := pushed + [frame];
    }
    assert entries[..0] == [];
  }

  /** The charge of a value without children. */
  method LeafBytes(value: Value) returns (bytes: nat)
    requires !value.Array? && !value.Object?
    ensures Measure(value) == Totals(!value.Unsupported?, bytes, 1, 0)
  {
    match value
    case Null => bytes := 4;
    case Boolean(b) => bytes := if b then 4 else 5;
    case Number(finite, text) => bytes := if finite then |text| else 4;
    case Str(units) => bytes := JsonStringBytes(units);
    case Undefined => bytes := 4;
    case Callback => bytes := CALLBACK_OVERHEAD_BYTES;
    case Binary(byteLength) => bytes := byteLength + BINARY_OVERHEAD_BYTES;
    case Unsupported => bytes := 0;
  }

  /** Visiting a node: it is counted, its own bytes are added, its children replace it on the stack. */
  predicate Visited(rest: Totals, before: nat, stack: Totals, bytes: nat) {
    && before + rest.bytes == bytes + stack.bytes
    && rest.nodes == 1 + stack.nodes
    && rest.supported == stack.supported
    && (rest.height <= PACKET_MAX_DEPTH <==> stack.height <= PACKET_MAX_DEPTH)
  }

  predicate Hopeless(rest: Totals, before: nat, nodes: nat, cutoff: nat) {
    before + rest.bytes > cutoff || nodes + rest.nodes > PACKET_MAX_NODES || !rest.supported || rest.height > PACKET_MAX_DEPTH
  }

  lemma ContainerVisited(stack: Totals, count: nat, inner: Totals, depth: nat, before: nat, next: Totals, bytes: nat)
    requires depth <= PACKET_MAX_DEPTH && (count == 0 ==> inner == NOTHING)
    requires Moved(Both(stack, inner.(height := if count == 0 then 0 else depth + 1 + inner.height)), before + 2 + Max(count, 1) - 1, next, bytes)
    ensures var frame := Container(count, inner);
      Visited(Both(stack, frame.(height := depth + frame.height)), before, next, bytes)
  {
  }

  method VisitArray(stack: seq<Frame>, items: seq<Value>, depth: nat, before: nat, nodes: nat, cutoff: nat)
    returns (next: seq<Frame>, bytes: nat, rejected: bool)
    requires depth <= PACKET_MAX_DEPTH && nodes + 1 + |stack| <= PACKET_MAX_NODES
    ensures var rest := Both(MeasureStack(stack), MeasureFrame(Frame(Array(items), depth)));
      if rejected then Hopeless(rest, before, nodes, cutoff)
      else bytes <= cutoff && nodes + 1 + |next| <= PACKET_MAX_NODES && Visited(rest, before, MeasureStack(next), bytes)
  {
    next, bytes, rejected := stack, before, true;
    if |items| > PACKET_MAX_NODES - (nodes + 1) - |stack| {
      return;
    }
    bytes := bytes + 2 + (if |items| == 0 then 0 else |items| - 1);
    if bytes > cutoff {
      return;
    }
    next := PushItems(stack, items, depth + 1);
    rejected := false;
    ContainerVisited(MeasureStack(stack), |items|, MeasureItems(items), depth, before, MeasureStack(next), bytes);
  }

  method VisitObject(stack: seq<Frame>, entries: seq<Entry>, depth: nat, before: nat, nodes: nat, cutoff: nat)
    returns (next: seq<Frame>, bytes: nat, rejected: bool)
    requires depth <= PACKET_MAX_DEPTH && nodes + 1 + |stack| <= PACKET_MAX_NODES
    ensures var rest := Both(MeasureStack(stack), MeasureFrame(Frame(Object(entries), depth)));
      if rejected then Hopeless(rest, before, nodes, cutoff)
      else bytes <= cutoff && nodes + 1 + |next| <= PACKET_MAX_NODES && Visited(rest, before, MeasureStack(next), bytes)
  {
    next, bytes, rejected := stack, before, true;
    if |entries| > PACKET_MAX_NODES - (nodes + 1) - |stack| {
      return;
    }
    bytes := bytes + 2 + (if |entries| == 0 then 0 else |entries| - 1);
    if bytes > cutoff {
      return;
    }
    next, bytes, rejected := PushEntries(stack, entries, depth + 1, bytes, cutoff);
    if !rejected {
      ContainerVisited(MeasureStack(stack), |entries|, MeasureEntries(entries), depth, before, MeasureStack(next), bytes);
    }
  }

  lemma StillPending(total: Totals, bytes: nat, nodes: nat, rest: Totals, stack: Totals, bytes': nat)
    requires Pending(total, bytes, nodes, rest) && Visited(rest, bytes, stack, bytes')
    ensures Pending(total, bytes', nodes + 1, stack)
  {
  }

  lemma CutOff(total: Totals, bytes: nat, nodes: nat, rest: Totals, cutoff: nat)
    requires Pending(total, bytes, nodes, rest)
    ensures Hopeless(rest, bytes, nodes, cutoff) ==> Reported(total, cutoff) == cutoff + 1
    ensures rest == NOTHING && bytes <= cutoff && nodes <= PACKET_MAX_NODES ==> Reported(total, cutoff) == bytes
  {
  }

  lemma RootFrame(packet: Value, total: Totals, f: Frame)
    requires total == Measure(packet) && f == Frame(packet, 0)
    ensures MeasureFrame(f) == total
  {
  }

  lemma SingleFrame(f: Frame, stack: seq<Frame>, t: Totals)
    requires stack == [f] && t == MeasureFrame(f)
    ensures MeasureStack(stack) == Both(NOTHING, t)
  {
  }

  lemma StartPending(total: Totals, left: Totals)
    requires left == Both(NOTHING, total)
    ensures Pending(total, ENVELOPE_OVERHEAD_BYTES, 0, left)
  {
  }

  method VisitLeaf(stack: seq<Frame>, current: Frame, before: nat, nodes: nat, cutoff: nat)
    returns (bytes: nat, rejected: bool)
    requires !current.value.Array? && !current.value.Object? && current.depth <= PACKET_MAX_DEPTH
    ensures var rest := Both(MeasureStack(stack), MeasureFrame(current));
      if rejected then Hopeless(rest, before, nodes, cutoff)
      else bytes <= cutoff && Visited(rest, before, MeasureStack(stack), bytes)
  {
    var leaf := LeafBytes(current.value);
    bytes := before + leaf;
    rejected := current.value.Unsupported? || bytes > cutoff;
  }

  /** One turn of the loop on a non-empty stack; `rejected` is an early return of cutoff + 1. */
  method Visit(stack: seq<Frame>, before: nat, nodes: nat, cutoff: nat)
    returns (next: seq<Frame>, bytes: nat, rejected: bool)
    requires stack != [] && nodes + |stack| <= PACKET_MAX_NODES
    ensures if rejected then Hopeless(MeasureStack(stack), before, nodes, cutoff)
      else bytes <= cutoff && nodes + 1 + |next| <= PACKET_MAX_NODES && Visited(MeasureStack(stack), before, MeasureStack(next), bytes)
  {
    var current := stack[|stack| - 1];
    next, bytes, rejected := stack[..|stack| - 1], before, true;
    if nodes + 1 > PACKET_MAX_NODES || current.depth > PACKET_MAX_DEPTH {
      return;
    }
    match current.value
    case Array(items) => next, bytes, rejected := VisitArray(next, items, current.depth, before, nodes, cutoff);
    case Object(entries) => next, bytes, rejected := VisitObject(next, entries, current.depth, before, nodes, cutoff);
    case _ => bytes, rejected := VisitLeaf(next, current, before, nodes, cutoff);
  }

  method StackLoop(root: Frame, cutoff: nat, ghost total: Totals) returns (result: nat)
    requires MeasureFrame(root) == total
    ensures result == Reported(total, cutoff)
  {
    var stack := [root];
    var bytes: nat, nodes: nat := ENVELOPE_OVERHEAD_BYTES, 0;
    ghost var left := MeasureStack(stack);
    SingleFrame(root, stack, total);
    StartPending(total, left);
    while stack != []
      invariant left == MeasureStack(stack) && Pending(total, bytes, nodes, left)
      invariant nodes + |stack| <= PACKET_MAX_NODES
      invariant nodes > 0 ==> bytes <= cutoff
      invariant nodes > 0 || stack != []
      decreases left.nodes
    {
      var next, more, rejected := Visit(stack, bytes, nodes, cutoff);
      if rejected {
        CutOff(total, bytes, nodes, left, cutoff);
        return cutoff + 1;
      }
      ghost var after := MeasureStack(next);
      StillPending(total, bytes, nodes, left, after, more);
      stack, bytes, nodes, left := next, more, nodes + 1, after;
    }
    result := bytes;
    CutOff(total, bytes, nodes, NOTHING, cutoff);
  }

  /**
   Within the cutoff, the node limit and the depth limit the result is the envelope
   plus the exact charge; otherwise it is cutoff + 1.
   */
  method BoundedSocketPacketBytes(packet: Value, cutoff: nat) returns (result: nat)
    ensures result == Reported(Measure(packet), cutoff)
    ensures result == if Fits(packet, cutoff) then 64 + Charge(packet) else cutoff + 1
    ensures IsJson(packet) && result <= cutoff ==> result == ENVELOPE_OVERHEAD_BYTES + Utf8Length(JsonText(packet))
  {
    var root := Frame(packet, 0);
    ReportedIsCharge(packet, cutoff);
    ghost var total := Measure(packet);
    RootFrame(packet, total, root);
    result := StackLoop(root, cutoff, total);
    if IsJson(packet) && result <= cutoff {
      UncutJsonPacketIsExact(packet, cutoff);
    }
  }

  /** A JSON packet that is not cut off is charged 64 bytes plus its exact JSON length. */
  lemma UncutJsonPacketIsExact(packet: Value, cutoff: nat)
    requires IsJson(packet) && Reported(Measure(packet), cutoff) <= cutoff
    ensures Reported(Measure(packet), cutoff) == ENVELOPE_OVERHEAD_BYTES + Utf8Length(JsonText(packet))
  {
    ChargeIsJsonLength(packet);
  }
}
