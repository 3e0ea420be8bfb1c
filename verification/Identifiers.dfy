/** Typed DNS and IP identifiers: validation, semantic keys and the ACME wire form. */
module Identifiers {
  import opened Wrappers
  import opened Text
  import opened Json

  // ---------------------------------------------------------------- addresses

  /** A predicate that could be "is the canonical text of an unscoped IPv6 address". */
  type V6Predicate = p: string -> bool |
    p("::") && forall s :: p(s) ==> ':' in s && NoUpper(s)
    witness (s => s == "::")

  /** The canonical texts of IPv6 addresses, left arbitrary within those laws. */
  const IsV6Text: V6Predicate

  type V6Text = s: string | IsV6Text(s) witness "::"

  /** `ipaddress.IPv4Address` by its octets; `ipaddress.IPv6Address` by its text. */
  datatype Address =
    | V4(a: Byte, b: Byte, c: Byte, d: Byte)
    | V6(text: V6Text)

  /** `str(address)`. */
  function AddressText(address: Address): string {
    match address
    case V4(a, b, c, d) => Join([Decimal(a), Decimal(b), Decimal(c), Decimal(d)], '.')
    case V6(text) => text
  }

  function ParseOctet(s: string): Option<Byte> {
    if 1 <= |s| <= 3 && AllDigits(s) && (|s| == 1 || s[0] != '0') && Text.Number(s) < 256
    then Some(Text.Number(s)) else None
  }

  /** `ipaddress.IPv4Address(text)`. */
  function ParseV4(s: string): Option<Address> {
    var parts := Split(s, '.');
    if |parts| != 4 then None
    else
      match (ParseOctet(parts[0]), ParseOctet(parts[1]), ParseOctet(parts[2]), ParseOctet(parts[3]))
      case (Some(a), Some(b), Some(c), Some(d)) => Some(V4(a, b, c, d))
      case _ => None
  }

  /** `ipaddress.ip_address(text)`, kept only when `str` gives the text back. */
  function ParseCanonicalAddress(s: string): Option<Address> {
    match ParseV4(s)
    case Some(address) => Some(address)
    case None => if IsV6Text(s) then Some(V6(s)) else None
  }

  lemma OctetRoundTrip(n: Byte)
    ensures ParseOctet(Decimal(n)) == Some(n)
  {
    NumberOfDecimal(n);
    if n >= 10 { assert Decimal(n) == Decimal(n / 10) + [Digit(n % 10)]; }
    if n >= 100 { assert Decimal(n / 10) == Decimal(n / 10 / 10) + [Digit(n / 10 % 10)]; }
  }

  lemma OctetCanonical(s: string)
    requires ParseOctet(s).Some?
    ensures Decimal(ParseOctet(s).value) == s
  {
    DecimalOfNumber(s);
  }

  lemma V4TextShape(address: Address)
    requires address.V4?
    ensures forall c :: c in AddressText(address) ==> IsDigit(c) || c == '.'
  {
    var parts := [Decimal(address.a), Decimal(address.b), Decimal(address.c), Decimal(address.d)];
    assert Join(parts, '.') == parts[0] + ['.'] + Join(parts[1..], '.');
    assert Join(parts[1..], '.') == parts[1] + ['.'] + Join(parts[2..], '.');
    assert Join(parts[2..], '.') == parts[2] + ['.'] + Join(parts[3..], '.');
    assert Join(parts[3..], '.') == parts[3];
  }

  lemma V4RoundTrip(address: Address)
    requires address.V4?
    ensures ParseV4(AddressText(address)) == Some(address)
  {
    var parts := [Decimal(address.a), Decimal(address.b), Decimal(address.c), Decimal(address.d)];
    SplitJoin(parts, '.');
    OctetRoundTrip(address.a);
    OctetRoundTrip(address.b);
    OctetRoundTrip(address.c);
    OctetRoundTrip(address.d);
  }

  lemma V4Canonical(s: string)
    requires ParseV4(s).Some?
    ensures AddressText(ParseV4(s).value) == s
  {
    hide Split, Join, ParseOctet, Decimal;
    var parts := Split(s, '.');
    JoinSplit(s, '.');
    OctetCanonical(parts[0]);
    OctetCanonical(parts[1]);
    OctetCanonical(parts[2]);
    OctetCanonical(parts[3]);
    var v := ParseV4(s).value;
    assert parts == [Decimal(v.a), Decimal(v.b), Decimal(v.c), Decimal(v.d)];
  }

  /** The accepted IP texts are exactly the canonical ones, each naming one address. */
  lemma CanonicalAddressText(s: string, address: Address)
    ensures ParseCanonicalAddress(s) == Some(address) <==> AddressText(address) == s
  {
    if address.V4? {
      V4RoundTrip(address);
    }
    if ParseV4(s).Some? {
      V4Canonical(s);
      V4TextShape(ParseV4(s).value);
    }
  }

  lemma AddressTextInjective(x: Address, y: Address)
    requires AddressText(x) == AddressText(y)
    ensures x == y
  {
    CanonicalAddressText(AddressText(x), x);
    CanonicalAddressText(AddressText(x), y);
  }

  /** Address text has no upper-case letter, and only IPv6 text has a colon. */
  lemma AddressTextShape(address: Address)
    ensures Lower(AddressText(address)) == AddressText(address)
    ensures ':' in AddressText(address) <==> address.V6?
    ensures AddressText(address) != ""
  {
    if address.V4? { V4TextShape(address); V4RoundTrip(address); }
    var text := AddressText(address);
    assert NoUpper(text) by {
      forall i | 0 <= i < |text| && address.V4? ensures !IsUpper(text[i]) {
        assert text[i] in text;
      }
    }
    LowerOfLower(text);
  }

  // ---------------------------------------------------------------- DNS names

  /** A predicate that could be "decodes and re-encodes to itself as an A-label". */
  type LabelPredicate = p: string -> bool | forall s :: p(Lower(s)) == p(s)
    witness (s => true)

  /** The canonical A-labels, left arbitrary up to letter case. */
  const IsCanonicalALabel: LabelPredicate

  predicate IsLabelChar(c: char) { IsAlphanumeric(c) || c == '-' }

  predicate ValidLabel(part: string) {
    && 1 <= |part| <= 63
    && (forall i :: 0 <= i < |part| ==> IsLabelChar(part[i]))
    && IsAlphanumeric(part[0])
    && IsAlphanumeric(part[|part| - 1])
    && ("xn--" <= Lower(part) ==> IsCanonicalALabel(part))
  }

  /** The name with a leading wildcard label removed. */
  function StripWildcard(value: string): string {
    if "*." <= value then value[2..] else value
  }

  /** `validate_dns_identifier` returns `value` unchanged; otherwise it raises. */
  predicate ValidDns(value: string, allowWildcard: bool) {
    && value != ""
    && IsAscii(value)
    && ("*." <= value ==> allowWildcard)
    && '*' !in StripWildcard(value)
    && |value| <= 253
    && ValidLabels(Split(StripWildcard(value), '.'))
  }

  predicate ValidLabels(parts: seq<string>) {
    forall i :: 0 <= i < |parts| ==> ValidLabel(parts[i])
  }

  lemma LabelIgnoresCase(part: string)
    ensures ValidLabel(Lower(part)) <==> ValidLabel(part)
  {
    LowerIdempotent(part);
    var l := Lower(part);
    if |part| >= 1 {
      assert forall i :: 0 <= i < |part| ==> (IsLabelChar(l[i]) <==> IsLabelChar(part[i]));
      assert IsAlphanumeric(l[0]) <==> IsAlphanumeric(part[0]);
      assert IsAlphanumeric(l[|l| - 1]) <==> IsAlphanumeric(part[|part| - 1]);
    }
    assert IsCanonicalALabel(Lower(part)) == IsCanonicalALabel(part);
  }

  lemma StripWildcardLower(value: string)
    ensures "*." <= Lower(value) <==> "*." <= value
    ensures StripWildcard(Lower(value)) == Lower(StripWildcard(value))
  {
    if |value| >= 2 {
      assert Lower(value)[0] == '*' <==> value[0] == '*';
      assert Lower(value)[1] == '.' <==> value[1] == '.';
      assert Lower(value)[2..] == Lower(value[2..]);
    }
  }

  lemma LabelsIgnoreCase(parts: seq<string>, lowered: seq<string>)
    requires |lowered| == |parts|
    requires forall i :: 0 <= i < |parts| ==> lowered[i] == Lower(parts[i])
    ensures ValidLabels(lowered) <==> ValidLabels(parts)
  {
    forall i | 0 <= i < |parts| ensures ValidLabel(lowered[i]) <==> ValidLabel(parts[i]) {
      LabelIgnoresCase(parts[i]);
    }
  }

  lemma AsciiIgnoresCase(s: string)
    ensures IsAscii(Lower(s)) <==> IsAscii(s)
    ensures '*' in Lower(s) <==> '*' in s
  {
    var l := Lower(s);
    assert forall i :: 0 <= i < |s| ==> ((l[i] as int < 128) <==> (s[i] as int < 128));
    assert forall i :: 0 <= i < |s| ==> (l[i] == '*' <==> s[i] == '*');
  }

  /** DNS validity does not depend on letter case. */
  lemma DnsIgnoresCase(value: string, allowWildcard: bool)
    ensures ValidDns(Lower(value), allowWildcard) <==> ValidDns(value, allowWildcard)
  {
    var name := StripWildcard(value);
    StripWildcardLower(value);
    AsciiIgnoresCase(value);
    AsciiIgnoresCase(name);
    SplitLower(name);
    LabelsIgnoreCase(Split(name, '.'), Split(Lower(name), '.'));
  }

  /** A single character is a label exactly when it is a letter or a digit. */
  lemma OneCharacterLabel(c: char)
    ensures ValidLabel([c]) <==> IsAlphanumeric(c)
  {
    assert |"xn--"| == 4;
  }

  /** Two labels joined by a hyphen are a label as long as the length and the A-label rule allow
      it, and a hyphen at either end is never allowed. */
  lemma HyphenatedLabel(a: string, b: string)
    requires ValidLabel(a) && ValidLabel(b)
    ensures ValidLabel(a + "-" + b) <==>
            |a| + |b| <= 62 && ("xn--" <= Lower(a + "-" + b) ==> IsCanonicalALabel(a + "-" + b))
    ensures !ValidLabel("-" + a) && !ValidLabel(a + "-")
  {
    hide Lower, IsLabelChar, IsAlphanumeric;
    HyphenatedCharacters(a, b);
    HyphenAtEdge(a);
  }

  lemma HyphenatedCharacters(a: string, b: string)
    requires ValidLabel(a) && ValidLabel(b)
    ensures var joined := a + "-" + b;
            && |joined| == |a| + |b| + 1
            && (forall i :: 0 <= i < |joined| ==> IsLabelChar(joined[i]))
            && IsAlphanumeric(joined[0]) && IsAlphanumeric(joined[|joined| - 1])
  {
    hide Lower;
    var joined := a + "-" + b;
    assert joined[0] == a[0] && joined[|joined| - 1] == b[|b| - 1];
  }

  lemma HyphenAtEdge(a: string)
    ensures !ValidLabel("-" + a) && !ValidLabel(a + "-")
  {
    hide Lower;
    assert ("-" + a)[0] == '-' && (a + "-")[|a|] == '-';
  }

  /** Without a wildcard, the labels joined by dots are a valid name exactly when each of them
      is a valid label and the name has at most 253 characters; so with one in front, where it
      is allowed. */
  lemma NameOfLabels(parts: seq<string>, allowWildcard: bool)
    requires |parts| >= 1 && forall i :: 0 <= i < |parts| ==> '.' !in parts[i] && parts[i] != "*"
    ensures ValidDns(Join(parts, '.'), allowWildcard) <==> ValidLabels(parts) && |Join(parts, '.')| <= 253
    ensures ValidDns("*." + Join(parts, '.'), allowWildcard) <==>
            allowWildcard && ValidLabels(parts) && |Join(parts, '.')| <= 251
  {
    hide ValidLabel, Split, Join;
    var name := Join(parts, '.');
    SplitJoin(parts, '.');
    NoWildcardInFront(parts);
    assert ("*." + name)[2..] == name;
    if ValidLabels(parts) {
      LabelsPlain(parts);
      assert name != "";
    }
  }

  lemma NoWildcardInFront(parts: seq<string>)
    requires |parts| >= 1 && '.' !in parts[0] && parts[0] != "*"
    ensures !("*." <= Join(parts, '.'))
  {
    if |parts| > 1 { assert Join(parts, '.') == parts[0] + ['.'] + Join(parts[1..], '.'); }
    assert "*."[0] == '*' && "*."[1] == '.';
  }

  /** The characters of a name of valid labels. */
  lemma {:induction false} LabelsPlain(parts: seq<string>)
    requires |parts| >= 1 && ValidLabels(parts)
    ensures var name := Join(parts, '.'); name != "" && IsAscii(name) && '*' !in name
  {
    hide ValidLabel;
    LabelPlain(parts[0]);
    if |parts| > 1 { LabelsPlain(parts[1..]); }
  }

  lemma LabelPlain(part: string)
    requires ValidLabel(part)
    ensures part != "" && IsAscii(part) && '*' !in part
  {
  }

  lemma LabelHasNoColon(part: string)
    requires ValidLabel(part)
    ensures ':' !in part
  {
  }

  /** A valid DNS name never contains a colon. */
  lemma DnsHasNoColon(value: string, allowWildcard: bool)
    requires ValidDns(value, allowWildcard)
    ensures ':' !in value
  {
    hide ValidLabels, Split, IsAscii;
    LabelsHaveNoColon(StripWildcard(value));
    if "*." <= value { assert value == "*." + value[2..]; }
  }

  lemma LabelsHaveNoColon(name: string)
    requires ValidLabels(Split(name, '.'))
    ensures ':' !in name
  {
    hide ValidLabel, Split;
    if ':' in name {
      CharInPart(name, '.', ':');
      var i :| 0 <= i < |Split(name, '.')| && ':' in Split(name, '.')[i];
      LabelHasNoColon(Split(name, '.')[i]);
    }
  }

  lemma PlainNameShape(name: string)
    requires '*' !in name && ValidLabels(Split(name, '.'))
    ensures !("*." <= name) && name != ""
  {
    assert ValidLabel(Split(name, '.')[0]);
    assert "*."[0] == '*';
  }

  /** Removing the wildcard label leaves a valid plain name, and putting it back
      restores the identifier: the server's split and the client's join are inverse. */
  lemma WildcardRoundTrip(value: string)
    requires ValidDns(value, true)
    ensures ValidDns(StripWildcard(value), false)
    ensures (if "*." <= value then "*." + StripWildcard(value) else StripWildcard(value)) == value
  {
    hide ValidLabels, Split, IsAscii;
    var name := StripWildcard(value);
    PlainNameShape(name);
    AsciiSuffix(value, 2);
    if "*." <= value { assert value == "*." + value[2..]; }
  }

  lemma AsciiSuffix(s: string, k: nat)
    requires IsAscii(s)
    ensures k <= |s| ==> IsAscii(s[k..])
  {
  }

  // ---------------------------------------------------------------- values and keys

  /** `IdentifierValue`: a string is a DNS name, an address object an IP. */
  datatype Value = Dns(name: string) | Ip(address: Address)

  datatype Kind = DnsKind | IpKind

  /** `IdentifierKey`: the type and the case-normalized text. */
  datatype Key = Key(kind: Kind, text: string)

  /** An ACME identifier object with its presentation-preserving value. */
  datatype Identifier = Identifier(kind: Kind, value: string)

  /** `validate_identifier_value`. */
  predicate ValidValue(value: Value) {
    value.Dns? ==> ValidDns(value.name, true)
  }

  predicate ValidValues(values: seq<Value>) {
    forall i :: 0 <= i < |values| ==> ValidValue(values[i])
  }

  /** `str(value)`. */
  function ValueText(value: Value): string {
    match value
    case Dns(name) => name
    case Ip(address) => AddressText(address)
  }

  /** `identifier_key_from_value`. */
  function KeyOfValue(value: Value): Key {
    match value
    case Dns(name) => Key(DnsKind, Lower(name))
    case Ip(address) => Key(IpKind, AddressText(address))
  }

  /** `protocol_identifier_from_value`. */
  function IdentifierOfValue(value: Value): Identifier {
    match value
    case Dns(name) => Identifier(DnsKind, name)
    case Ip(address) => Identifier(IpKind, AddressText(address))
  }

  predicate ValidIdentifier(id: Identifier) {
    match id.kind
    case DnsKind => ValidDns(id.value, true)
    case IpKind => ParseCanonicalAddress(id.value).Some?
  }

  predicate ValidIdentifiers(ids: seq<Identifier>) {
    forall i :: 0 <= i < |ids| ==> ValidIdentifier(ids[i])
  }

  /** `identifier_key_from_protocol` on a validated identifier. */
  function KeyOfIdentifier(id: Identifier): Key {
    Key(id.kind, if id.kind == DnsKind then Lower(id.value) else id.value)
  }

  /** One step of `protocol_identifier_values`. */
  function ValueOfIdentifier(id: Identifier): Value
    requires ValidIdentifier(id)
  {
    if id.kind == DnsKind then Dns(id.value) else Ip(ParseCanonicalAddress(id.value).value)
  }

  function KeysOfValues(values: seq<Value>): set<Key> {
    set i | 0 <= i < |values| :: KeyOfValue(values[i])
  }

  function KeysOfIdentifiers(ids: seq<Identifier>): set<Key> {
    set i | 0 <= i < |ids| :: KeyOfIdentifier(ids[i])
  }

  function IdentifiersOfValues(values: seq<Value>): (ids: seq<Identifier>) {
    seq(|values|, i requires 0 <= i < |values| => IdentifierOfValue(values[i]))
  }

  function ValuesOfIdentifiers(ids: seq<Identifier>): (values: seq<Value>)
    requires ValidIdentifiers(ids)
  {
    seq(|ids|, i requires 0 <= i < |ids| => ValueOfIdentifier(ids[i]))
  }

  /** A public value and its wire form determine each other and share one key. */
  lemma ValueWireRoundTrip(value: Value)
    requires ValidValue(value)
    ensures ValidIdentifier(IdentifierOfValue(value))
    ensures ValueOfIdentifier(IdentifierOfValue(value)) == value
    ensures KeyOfIdentifier(IdentifierOfValue(value)) == KeyOfValue(value)
    ensures IdentifierOfValue(value).value == ValueText(value)
  {
    hide ValidDns, ParseCanonicalAddress, AddressText;
    if value.Ip? { CanonicalAddressText(AddressText(value.address), value.address); }
  }

  lemma WireValueRoundTrip(id: Identifier)
    requires ValidIdentifier(id)
    ensures ValidValue(ValueOfIdentifier(id))
    ensures IdentifierOfValue(ValueOfIdentifier(id)) == id
    ensures KeyOfValue(ValueOfIdentifier(id)) == KeyOfIdentifier(id)
  {
    hide ValidDns, ParseCanonicalAddress, AddressText;
    if id.kind == IpKind {
      CanonicalAddressText(id.value, ParseCanonicalAddress(id.value).value);
    }
  }

  lemma ValuesWireRoundTrip(values: seq<Value>)
    requires ValidValues(values)
    ensures ValidIdentifiers(IdentifiersOfValues(values))
    ensures ValuesOfIdentifiers(IdentifiersOfValues(values)) == values
    ensures KeysOfIdentifiers(IdentifiersOfValues(values)) == KeysOfValues(values)
  {
    forall i | 0 <= i < |values|
      ensures ValidIdentifier(IdentifiersOfValues(values)[i])
      ensures ValueOfIdentifier(IdentifiersOfValues(values)[i]) == values[i]
      ensures KeyOfIdentifier(IdentifiersOfValues(values)[i]) == KeyOfValue(values[i])
    {
      ValueWireRoundTrip(values[i]);
    }
    forall k | k in KeysOfValues(values) ensures k in KeysOfIdentifiers(IdentifiersOfValues(values)) {
      var i :| 0 <= i < |values| && k == KeyOfValue(values[i]);
      assert KeyOfIdentifier(IdentifiersOfValues(values)[i]) == k;
    }
  }

  lemma WireValuesRoundTrip(ids: seq<Identifier>)
    requires ValidIdentifiers(ids)
    ensures ValidValues(ValuesOfIdentifiers(ids))
    ensures IdentifiersOfValues(ValuesOfIdentifiers(ids)) == ids
    ensures KeysOfValues(ValuesOfIdentifiers(ids)) == KeysOfIdentifiers(ids)
  {
    var values := ValuesOfIdentifiers(ids);
    forall i | 0 <= i < |ids|
      ensures ValidValue(values[i]) && IdentifierOfValue(values[i]) == ids[i]
    {
      WireValueRoundTrip(ids[i]);
    }
    ValuesWireRoundTrip(values);
  }

  // ---------------------------------------------------------------- wire parsing

  datatype IdentifierError = Malformed | Unsupported

  /** `normalize_protocol_identifier`. */
  function NormalizeIdentifier(kind: Json, value: Json): Result<Identifier, IdentifierError> {
    if !(kind.Str? && value.Str? && value.s != "") then Err(Malformed)
    else if kind.s == "dns" then
      if ValidDns(value.s, true) then Ok(Identifier(DnsKind, value.s)) else Err(Malformed)
    else if kind.s == "ip" then
      if ParseCanonicalAddress(value.s).Some? then Ok(Identifier(IpKind, value.s)) else Err(Malformed)
    else Err(Unsupported)
  }

  /** The body of the loop in `normalize_protocol_identifiers`. */
  function NormalizeItem(item: Json): Result<Identifier, IdentifierError> {
    if !item.Obj? || "type" !in item.fields || "value" !in item.fields then Err(Malformed)
    else NormalizeIdentifier(item.fields["type"], item.fields["value"])
  }

  /** What the array of identifiers must normalize to: every item's own identifier in
      order, or the error of the first item that has one. */
  function NormalizeIdentifiers(raw: Json): Result<seq<Identifier>, IdentifierError> {
    if !raw.Arr? || raw.items == [] then Err(Malformed) else Traverse(NormalizeItem, raw.items)
  }

  lemma NormalizedItemValid(item: Json)
    requires NormalizeItem(item).Ok?
    ensures ValidIdentifier(NormalizeItem(item).value)
  {
    hide ValidDns, ParseCanonicalAddress;
  }

  lemma NormalizedIdentifiersValid(raw: Json)
    requires NormalizeIdentifiers(raw).Ok?
    ensures NormalizeIdentifiers(raw).value != []
    ensures ValidIdentifiers(NormalizeIdentifiers(raw).value)
  {
    TraverseMeaning(NormalizeItem, raw.items);
    var ids := NormalizeIdentifiers(raw).value;
    forall i | 0 <= i < |ids| ensures ValidIdentifier(ids[i]) {
      NormalizedItemValid(raw.items[i]);
    }
  }

  /** `normalize_protocol_identifiers`, with its loop over the raw array. */
  method NormalizeProtocolIdentifiers(raw: Json) returns (r: Result<seq<Identifier>, IdentifierError>)
    ensures r == NormalizeIdentifiers(raw)
  {
    hide NormalizeItem;
    if !raw.Arr? || raw.items == [] {
      return Err(Malformed);
    }
    var identifiers: seq<Identifier> := [];
    for k := 0 to |raw.items|
      invariant Traverse(NormalizeItem, raw.items[..k]) == Ok(identifiers)
    {
      assert raw.items[..k + 1] == raw.items[..k] + [raw.items[k]];
      TraverseAppend(NormalizeItem, raw.items[..k], raw.items[k]);
      var item := NormalizeItem(raw.items[k]);
      if item.Err? {
        TraverseFailsEarly(NormalizeItem, raw.items, k + 1);
        return Err(item.error);
      }
      identifiers := identifiers + [item.value];
    }
    assert raw.items[..|raw.items|] == raw.items;
    return Ok(identifiers);
  }

  /** The JSON array `create_order` sends for a list of public values. */
  function WireItem(id: Identifier): Json {
    Obj(map["type" := Str(if id.kind == DnsKind then "dns" else "ip"), "value" := Str(id.value)])
  }

  function WireItems(ids: seq<Identifier>): seq<Json> {
    seq(|ids|, i requires 0 <= i < |ids| => WireItem(ids[i]))
  }

  /** A server that parses what the client sends gets the client's identifiers back. */
  lemma WireRoundTrip(values: seq<Value>)
    requires ValidValues(values) && values != []
    ensures NormalizeIdentifiers(Arr(WireItems(IdentifiersOfValues(values)))) == Ok(IdentifiersOfValues(values))
  {
    var ids := IdentifiersOfValues(values);
    var items := WireItems(ids);
    forall i | 0 <= i < |ids| ensures NormalizeItem(items[i]) == Ok(ids[i]) {
      ValueWireRoundTrip(values[i]);
      WireItemRoundTrip(ids[i]);
    }
    TraverseMeaning(NormalizeItem, items);
    assert Traverse(NormalizeItem, items).value == ids;
  }

  lemma WireItemRoundTrip(id: Identifier)
    requires ValidIdentifier(id)
    ensures NormalizeItem(WireItem(id)) == Ok(id)
  {
    hide ValidDns, ParseCanonicalAddress;
    IdentifierTextNotEmpty(id);
    WireItemFields(id);
    if id.kind == IpKind { assert |"ip"| != |"dns"|; }
  }

  lemma WireItemFields(id: Identifier)
    ensures var fields := WireItem(id).fields;
            && "type" in fields && "value" in fields
            && fields["type"] == Str(if id.kind == DnsKind then "dns" else "ip")
            && fields["value"] == Str(id.value)
  {
    assert |"type"| != |"value"|;
  }

  lemma IdentifierTextNotEmpty(id: Identifier)
    requires ValidIdentifier(id)
    ensures id.value != ""
  {
    if id.kind == IpKind {
      CanonicalAddressText(id.value, ParseCanonicalAddress(id.value).value);
      AddressTextShape(ParseCanonicalAddress(id.value).value);
    }
  }
}
