/** Binding a certificate signing request to the identifiers of an ACME order. */
module CsrBinding {
  import opened Wrappers
  import opened Text
  import opened Json
  import opened Identifiers
  import Base64Url

  /** One `subjectAltName` entry; the last two are names lacme cannot certify. */
  datatype GeneralName =
    | DnsName(name: string)
    | IpName(address: Address)
    | IpNetwork
    | OtherName

  /** A public key, by name. */
  type PublicKey = nat

  /** What the library reads from a parsed request: its SAN entries (none when the
      extension is absent), its common names, its key, and whether it is self-signed. */
  datatype Csr = Csr(sans: seq<GeneralName>, commonNames: seq<string>, key: PublicKey, signatureOk: bool)

  /** `_identifier_value_from_general_name`, `None` when it raises. */
  function ValueOfName(name: GeneralName): Option<Value> {
    match name
    case DnsName(s) => if ValidDns(s, true) then Some(Dns(s)) else None
    case IpName(address) => Some(Ip(address))
    case IpNetwork => None
    case OtherName => None
  }

  predicate SansReadable(sans: seq<GeneralName>) {
    forall i :: 0 <= i < |sans| ==> ValueOfName(sans[i]).Some?
  }

  /** `csr_san_identifier_values` when it does not raise. */
  function SanValues(sans: seq<GeneralName>): (values: seq<Value>)
    requires SansReadable(sans)
  {
    seq(|sans|, i requires 0 <= i < |sans| => ValueOfName(sans[i]).value)
  }

  lemma SanValuesValid(sans: seq<GeneralName>)
    requires SansReadable(sans)
    ensures ValidValues(SanValues(sans))
  {
  }

  /** `{str(value).lower() for value in values}`. */
  function LowerTexts(values: seq<Value>): set<string> {
    set i | 0 <= i < |values| :: Lower(ValueText(values[i]))
  }

  function DnsKey(commonName: string): Key {
    Key(DnsKind, Lower(commonName))
  }

  // ------------------------------------------------------------ what is accepted

  /** The common names that must be DNS names of the order: those that no SAN repeats. */
  predicate CommonNamesBound(commonNames: seq<string>, sanText: set<string>, expected: set<Key>) {
    forall i :: 0 <= i < |commonNames| && Lower(commonNames[i]) !in sanText ==>
      ValidDns(commonNames[i], true) && DnsKey(commonNames[i]) in expected
  }

  /** The keys of the common names that the order names. */
  function NamedKeys(commonNames: seq<string>, expected: set<Key>): set<Key> {
    set i | 0 <= i < |commonNames| && DnsKey(commonNames[i]) in expected :: DnsKey(commonNames[i])
  }

  /** The acceptance condition, free of the order in which the code looks at the names. */
  predicate Accepts(csr: Csr, ids: seq<Identifier>) {
    && SansReadable(csr.sans)
    && var values := SanValues(csr.sans);
    && var expected := KeysOfIdentifiers(ids);
    && CommonNamesBound(csr.commonNames, LowerTexts(values), expected)
    && KeysOfValues(values) + NamedKeys(csr.commonNames, expected) == expected
    && expected != {}
  }

  // ------------------------------------------------------------ the code's loop

  /** The condition under which a common name is taken as a further identifier. */
  predicate TakesName(commonName: string, expected: set<Key>, represented: set<Key>, sanText: set<string>) {
    (DnsKey(commonName) in expected && DnsKey(commonName) !in represented) || Lower(commonName) !in sanText
  }

  lemma NamedInOrderIsValid(commonName: string, ids: seq<Identifier>)
    requires ValidIdentifiers(ids)
    requires DnsKey(commonName) in KeysOfIdentifiers(ids)
    ensures ValidDns(commonName, true)
  {
    var i :| 0 <= i < |ids| && KeyOfIdentifier(ids[i]) == DnsKey(commonName);
    DnsIgnoresCase(ids[i].value, true);
    DnsIgnoresCase(commonName, true);
  }

  /** The keys the loop has added after reading these common names. */
  function TakenKeys(names: seq<string>, expected: set<Key>, sanText: set<string>): set<Key> {
    set i | 0 <= i < |names| && (DnsKey(names[i]) in expected || Lower(names[i]) !in sanText) :: DnsKey(names[i])
  }

  predicate UnlistedNamesValid(names: seq<string>, sanText: set<string>) {
    forall i :: 0 <= i < |names| && Lower(names[i]) !in sanText ==> ValidDns(names[i], true)
  }

  lemma TakenKeysStep(names: seq<string>, name: string, expected: set<Key>, sanText: set<string>)
    ensures TakenKeys(names + [name], expected, sanText) ==
            TakenKeys(names, expected, sanText)
            + if DnsKey(name) in expected || Lower(name) !in sanText then {DnsKey(name)} else {}
  {
    hide DnsKey, Lower;
    var all := names + [name];
    assert all[|names|] == name;
    forall k | k in TakenKeys(names, expected, sanText) ensures k in TakenKeys(all, expected, sanText) {
      var i :| 0 <= i < |names| && (DnsKey(names[i]) in expected || Lower(names[i]) !in sanText)
        && k == DnsKey(names[i]);
      assert all[i] == names[i];
    }
  }

  lemma UnlistedStep(names: seq<string>, name: string, sanText: set<string>)
    ensures UnlistedNamesValid(names + [name], sanText) <==>
            UnlistedNamesValid(names, sanText) && (Lower(name) !in sanText ==> ValidDns(name, true))
  {
    hide ValidDns, Lower;
    var all := names + [name];
    assert all[|names|] == name;
    assert forall i :: 0 <= i < |names| ==> all[i] == names[i];
  }

  lemma UnlistedPrefix(names: seq<string>, k: nat, sanText: set<string>)
    requires k <= |names| && UnlistedNamesValid(names, sanText)
    ensures UnlistedNamesValid(names[..k], sanText)
  {
    hide ValidDns, Lower;
  }

  /** The two final tests of the code are together the acceptance condition. */
  lemma AcceptanceCondition(names: seq<string>, sanKeys: set<Key>, expected: set<Key>, sanText: set<string>)
    ensures (sanKeys + TakenKeys(names, expected, sanText) == expected && UnlistedNamesValid(names, sanText)) <==>
            (sanKeys + NamedKeys(names, expected) == expected && CommonNamesBound(names, sanText, expected))
  {
    hide ValidDns, Lower, DnsKey;
    var taken, named := TakenKeys(names, expected, sanText), NamedKeys(names, expected);
    assert named <= taken && named <= expected;
    if sanKeys + taken == expected {
      forall i | 0 <= i < |names| && Lower(names[i]) !in sanText ensures DnsKey(names[i]) in expected {
        assert DnsKey(names[i]) in taken;
      }
    }
    if CommonNamesBound(names, sanText, expected) { assert taken <= named; }
  }

  /** `validate_csr_identifiers`: it returns exactly for the requests `Accepts` describes,
      and then the returned values name exactly the order's identifiers. */
  method ValidateCsrIdentifiers(csr: Csr, ids: seq<Identifier>) returns (r: Option<seq<Value>>)
    requires ValidIdentifiers(ids)
    ensures r.Some? <==> Accepts(csr, ids)
    ensures r.Some? ==> ValidValues(r.value) && KeysOfValues(r.value) == KeysOfIdentifiers(ids)
    ensures r.Some? ==> SanValues(csr.sans) <= r.value
  {
    hide ValidDns, Lower, KeysOfValues, KeysOfIdentifiers, TakenKeys, NamedKeys, UnlistedNamesValid,
      CommonNamesBound, LowerTexts, SanValues, ValueOfName, ValidValue, DnsKey,
      ValidValues, ValidIdentifiers, Accepts, KeyOfValue, KeyOfIdentifier, ValidIdentifier;
    AcceptsMeaning(csr, ids);
    var expected := KeysOfIdentifiers(ids);
    if !SansReadable(csr.sans) {
      return None;
    }
    var values := SanValues(csr.sans);
    SanValuesValid(csr.sans);
    ghost var sanKeys := KeysOfValues(values);
    var represented := KeysOfValues(values);
    var sanText := LowerTexts(values);
    var names := csr.commonNames;
    AcceptanceCondition(names, sanKeys, expected, sanText);
    UnlistedEmpty(sanText, expected);
    assert names[..0] == [];
    for k := 0 to |names|
      invariant ValidValues(values) && SanValues(csr.sans) <= values
      invariant represented == KeysOfValues(values)
      invariant represented == sanKeys + TakenKeys(names[..k], expected, sanText)
      invariant UnlistedNamesValid(names[..k], sanText)
    {
      var name := names[k];
      assert names[..k + 1] == names[..k] + [name];
      TakenKeysStep(names[..k], name, expected, sanText);
      UnlistedStep(names[..k], name, sanText);
      if TakesName(name, expected, represented, sanText) {
        if !ValidDns(name, true) {
          assert Lower(name) !in sanText by {
            if DnsKey(name) in expected { NamedInOrderIsValid(name, ids); }
          }
          assert !Accepts(csr, ids) by {
            if UnlistedNamesValid(names, sanText) { UnlistedPrefix(names, k + 1, sanText); }
          }
          return None;
        }
        KeysOfAppended(values, Dns(name));
        DnsValueKey(name);
        values := values + [Dns(name)];
        represented := represented + {DnsKey(name)};
      }
    }
    assert names[..|names|] == names;
    NoValuesNoKeys(values);
    if values == [] {
      return None;
    }
    if represented != expected {
      return None;
    }
    return Some(values);
  }

  lemma AcceptsMeaning(csr: Csr, ids: seq<Identifier>)
    ensures Accepts(csr, ids) ==> SansReadable(csr.sans) && KeysOfIdentifiers(ids) != {}
    ensures SansReadable(csr.sans) ==>
              var values, expected := SanValues(csr.sans), KeysOfIdentifiers(ids);
              Accepts(csr, ids) <==>
              && CommonNamesBound(csr.commonNames, LowerTexts(values), expected)
              && KeysOfValues(values) + NamedKeys(csr.commonNames, expected) == expected
              && expected != {}
  {
  }

  lemma DnsValueKey(name: string)
    ensures KeyOfValue(Dns(name)) == DnsKey(name)
    ensures ValidValue(Dns(name)) <==> ValidDns(name, true)
  {
  }

  lemma UnlistedEmpty(sanText: set<string>, expected: set<Key>)
    ensures UnlistedNamesValid([], sanText) && TakenKeys([], expected, sanText) == {}
  {
  }

  lemma NoValuesNoKeys(values: seq<Value>)
    ensures KeysOfValues(values) == {} <==> values == []
  {
    if values != [] { assert KeyOfValue(values[0]) in KeysOfValues(values); }
  }

  lemma KeysOfAppended(values: seq<Value>, value: Value)
    ensures ValidValues(values + [value]) <==> ValidValues(values) && ValidValue(value)
    ensures KeysOfValues(values + [value]) == KeysOfValues(values) + {KeyOfValue(value)}
  {
    hide ValidValue, KeyOfValue;
    var all := values + [value];
    assert all[|values|] == value;
    assert forall i :: 0 <= i < |values| ==> all[i] == values[i];
    forall k | k in KeysOfValues(values) ensures k in KeysOfValues(all) {
      var i :| 0 <= i < |values| && k == KeyOfValue(values[i]);
      assert all[i] == values[i];
    }
  }

  // ------------------------------------------------------------ name by name

  /** The SAN entry names this identifier: it has the same type, and the same text up to
      letter case. */
  predicate NamesIdentifier(name: GeneralName, id: Identifier) {
    match name
    case DnsName(s) => id.kind == DnsKind && Lower(s) == Lower(id.value)
    case IpName(address) => id.kind == IpKind && AddressText(address) == id.value
    case _ => false
  }

  predicate CommonNameIs(commonName: string, id: Identifier) {
    id.kind == DnsKind && Lower(commonName) == Lower(id.value)
  }

  /** The common name repeats the text of the SAN entry. */
  predicate Repeats(commonName: string, name: GeneralName) {
    match name
    case DnsName(s) => Lower(commonName) == Lower(s)
    case IpName(address) => Lower(commonName) == AddressText(address)
    case _ => false
  }

  /** The SAN entry names one of the identifiers. */
  predicate SanIn(name: GeneralName, ids: seq<Identifier>) {
    exists j :: 0 <= j < |ids| && NamesIdentifier(name, ids[j])
  }

  predicate CommonNameIn(commonName: string, ids: seq<Identifier>) {
    exists j :: 0 <= j < |ids| && CommonNameIs(commonName, ids[j])
  }

  predicate RepeatsOne(commonName: string, sans: seq<GeneralName>) {
    exists k :: 0 <= k < |sans| && Repeats(commonName, sans[k])
  }

  predicate SansNameOnly(sans: seq<GeneralName>, ids: seq<Identifier>) {
    forall i :: 0 <= i < |sans| ==> SanIn(sans[i], ids)
  }

  /** Every common name that repeats no SAN entry names one of the identifiers, too. */
  predicate CommonNamesNameOnly(commonNames: seq<string>, sans: seq<GeneralName>, ids: seq<Identifier>) {
    forall i :: 0 <= i < |commonNames| ==> RepeatsOne(commonNames[i], sans) || CommonNameIn(commonNames[i], ids)
  }

  predicate Named(csr: Csr, id: Identifier) {
    || (exists i :: 0 <= i < |csr.sans| && NamesIdentifier(csr.sans[i], id))
    || (exists i :: 0 <= i < |csr.commonNames| && CommonNameIs(csr.commonNames[i], id))
  }

  /** The request is for these identifiers, for all of them and for no others. */
  predicate BindsTo(csr: Csr, ids: seq<Identifier>) {
    && ids != [] && SansNameOnly(csr.sans, ids) && CommonNamesNameOnly(csr.commonNames, csr.sans, ids)
    && forall j :: 0 <= j < |ids| ==> Named(csr, ids[j])
  }

  lemma NamesByKey(name: GeneralName, id: Identifier)
    requires ValidIdentifier(id)
    ensures NamesIdentifier(name, id) <==>
            ValueOfName(name).Some? && KeyOfValue(ValueOfName(name).value) == KeyOfIdentifier(id)
  {
    hide ValidDns, AddressText, ParseCanonicalAddress, Lower;
    if name.DnsName? && id.kind == DnsKind && Lower(name.name) == Lower(id.value) {
      DnsIgnoresCase(name.name, true);
      DnsIgnoresCase(id.value, true);
    }
  }

  lemma CommonNameByKey(commonName: string, id: Identifier)
    ensures CommonNameIs(commonName, id) <==> DnsKey(commonName) == KeyOfIdentifier(id)
  {
    hide Lower;
  }

  lemma RepeatsByText(commonName: string, name: GeneralName)
    requires ValueOfName(name).Some?
    ensures Repeats(commonName, name) <==> Lower(commonName) == Lower(ValueText(ValueOfName(name).value))
  {
    hide ValidDns, Lower, AddressText;
    if name.IpName? { AddressTextShape(name.address); }
  }

  lemma SanInByKey(name: GeneralName, ids: seq<Identifier>)
    requires ValidIdentifiers(ids)
    ensures SanIn(name, ids) <==>
            ValueOfName(name).Some? && KeyOfValue(ValueOfName(name).value) in KeysOfIdentifiers(ids)
  {
    hide ValueOfName, KeyOfValue, KeyOfIdentifier, NamesIdentifier, ValidIdentifier;
    forall j | 0 <= j < |ids|
      ensures NamesIdentifier(name, ids[j]) <==>
              ValueOfName(name).Some? && KeyOfValue(ValueOfName(name).value) == KeyOfIdentifier(ids[j])
    {
      NamesByKey(name, ids[j]);
    }
  }

  lemma CommonNameInByKey(commonName: string, ids: seq<Identifier>)
    ensures CommonNameIn(commonName, ids) <==> DnsKey(commonName) in KeysOfIdentifiers(ids)
  {
    hide DnsKey, KeyOfIdentifier, CommonNameIs;
    forall j | 0 <= j < |ids|
      ensures CommonNameIs(commonName, ids[j]) <==> DnsKey(commonName) == KeyOfIdentifier(ids[j])
    {
      CommonNameByKey(commonName, ids[j]);
    }
  }

  lemma RepeatsOneByText(commonName: string, sans: seq<GeneralName>)
    requires SansReadable(sans)
    ensures RepeatsOne(commonName, sans) <==> Lower(commonName) in LowerTexts(SanValues(sans))
  {
    hide ValueOfName, ValueText, Lower, Repeats;
    forall k | 0 <= k < |sans|
      ensures Repeats(commonName, sans[k]) <==> Lower(commonName) == Lower(ValueText(SanValues(sans)[k]))
    {
      RepeatsByText(commonName, sans[k]);
    }
  }

  lemma NamedByKey(csr: Csr, ids: seq<Identifier>, j: nat)
    requires ValidIdentifiers(ids) && SansReadable(csr.sans) && j < |ids|
    ensures Named(csr, ids[j]) <==>
            KeyOfIdentifier(ids[j]) in
              KeysOfValues(SanValues(csr.sans)) + NamedKeys(csr.commonNames, KeysOfIdentifiers(ids))
  {
    hide ValueOfName, KeyOfValue, KeyOfIdentifier, NamesIdentifier, ValidIdentifier, CommonNameIs, DnsKey;
    forall i | 0 <= i < |csr.sans|
      ensures NamesIdentifier(csr.sans[i], ids[j]) <==> KeyOfValue(SanValues(csr.sans)[i]) == KeyOfIdentifier(ids[j])
    {
      NamesByKey(csr.sans[i], ids[j]);
    }
    forall i | 0 <= i < |csr.commonNames|
      ensures CommonNameIs(csr.commonNames[i], ids[j]) <==> DnsKey(csr.commonNames[i]) == KeyOfIdentifier(ids[j])
    {
      CommonNameByKey(csr.commonNames[i], ids[j]);
    }
  }

  lemma SansOnlyOrdered(sans: seq<GeneralName>, ids: seq<Identifier>)
    requires ValidIdentifiers(ids)
    ensures SansNameOnly(sans, ids) <==>
            SansReadable(sans) && KeysOfValues(SanValues(sans)) <= KeysOfIdentifiers(ids)
  {
    hide ValueOfName, KeyOfValue, KeysOfIdentifiers, SanIn, ValidIdentifiers;
    forall i | 0 <= i < |sans|
      ensures SanIn(sans[i], ids) <==>
              ValueOfName(sans[i]).Some? && KeyOfValue(ValueOfName(sans[i]).value) in KeysOfIdentifiers(ids)
    {
      SanInByKey(sans[i], ids);
    }
    if SansReadable(sans) {
      assert forall i :: 0 <= i < |sans| ==> SanValues(sans)[i] == ValueOfName(sans[i]).value;
      if KeysOfValues(SanValues(sans)) <= KeysOfIdentifiers(ids) {
        forall i | 0 <= i < |sans| ensures SanIn(sans[i], ids) {
          assert KeyOfValue(SanValues(sans)[i]) in KeysOfValues(SanValues(sans));
        }
      }
    }
  }

  lemma CommonNamesOnlyOrdered(names: seq<string>, sans: seq<GeneralName>, ids: seq<Identifier>)
    requires ValidIdentifiers(ids) && SansReadable(sans)
    ensures CommonNamesNameOnly(names, sans, ids) <==>
            CommonNamesBound(names, LowerTexts(SanValues(sans)), KeysOfIdentifiers(ids))
  {
    hide RepeatsOne, CommonNameIn, DnsKey, LowerTexts, SanValues, KeysOfIdentifiers, ValidIdentifiers, ValidDns, Lower,
      SansReadable;
    forall i | 0 <= i < |names|
      ensures RepeatsOne(names[i], sans) <==> Lower(names[i]) in LowerTexts(SanValues(sans))
      ensures CommonNameIn(names[i], ids) <==> DnsKey(names[i]) in KeysOfIdentifiers(ids)
      ensures DnsKey(names[i]) in KeysOfIdentifiers(ids) ==> ValidDns(names[i], true)
    {
      RepeatsOneByText(names[i], sans);
      CommonNameInByKey(names[i], ids);
      if DnsKey(names[i]) in KeysOfIdentifiers(ids) { NamedInOrderIsValid(names[i], ids); }
    }
  }

  lemma AllNamedOrdered(csr: Csr, ids: seq<Identifier>)
    requires ValidIdentifiers(ids) && SansReadable(csr.sans)
    ensures (forall j :: 0 <= j < |ids| ==> Named(csr, ids[j])) <==>
            KeysOfIdentifiers(ids) <=
              KeysOfValues(SanValues(csr.sans)) + NamedKeys(csr.commonNames, KeysOfIdentifiers(ids))
  {
    hide Named, KeysOfValues, NamedKeys, SanValues, KeyOfIdentifier, ValidIdentifiers, SansReadable;
    var named := KeysOfValues(SanValues(csr.sans)) + NamedKeys(csr.commonNames, KeysOfIdentifiers(ids));
    forall j | 0 <= j < |ids| ensures Named(csr, ids[j]) <==> KeyOfIdentifier(ids[j]) in named {
      NamedByKey(csr, ids, j);
    }
    if KeysOfIdentifiers(ids) <= named {
      forall j | 0 <= j < |ids| ensures KeyOfIdentifier(ids[j]) in named {
        assert KeyOfIdentifier(ids[j]) in KeysOfIdentifiers(ids);
      }
    }
  }

  /** The acceptance condition on key sets says the same as `BindsTo` does name by name. */
  lemma BindsExact(csr: Csr, ids: seq<Identifier>)
    requires ValidIdentifiers(ids)
    ensures Accepts(csr, ids) <==> BindsTo(csr, ids)
  {
    hide SansNameOnly, CommonNamesNameOnly, Named, Accepts, KeysOfIdentifiers, KeysOfValues, SanValues, SansReadable,
      CommonNamesBound, LowerTexts, ValidIdentifiers;
    AcceptsMeaning(csr, ids);
    SansOnlyOrdered(csr.sans, ids);
    NoIdentifiersNoKeys(ids);
    if SansReadable(csr.sans) {
      CommonNamesOnlyOrdered(csr.commonNames, csr.sans, ids);
      AllNamedOrdered(csr, ids);
      assert NamedKeys(csr.commonNames, KeysOfIdentifiers(ids)) <= KeysOfIdentifiers(ids);
    }
  }

  lemma NoIdentifiersNoKeys(ids: seq<Identifier>)
    ensures KeysOfIdentifiers(ids) == {} <==> ids == []
  {
    if ids != [] { assert KeyOfIdentifier(ids[0]) in KeysOfIdentifiers(ids); }
  }

  // ------------------------------------------------------------ the finalize payload

  /** `load_der_x509_csr`: which bytes are which request is left arbitrary. */
  const LoadCsr: Bytes -> Option<Csr>

  /** `decode_and_validate_csr`: the request's bytes and the order's own typed values. */
  function DecodeCsr(field: Json, ids: seq<Identifier>): (r: Option<(Bytes, seq<Value>)>)
    ensures r.Some? ==> LoadCsr(r.value.0).Some?
  {
    if !field.Str? || field.s == "" || !ValidIdentifiers(ids) then None
    else
      match Base64Url.DecodeStrict(field.s)
      case None => None
      case Some(der) =>
        match LoadCsr(der)
        case None => None
        case Some(csr) =>
          if csr.signatureOk && Accepts(csr, ids) then Some((der, ValuesOfIdentifiers(ids))) else None
  }

  /** The field is the base64url text of these bytes, and they are a request that is signed
      with its own key and is for exactly these identifiers. */
  predicate ProperCsr(field: Json, der: Bytes, ids: seq<Identifier>) {
    && field == Str(Base64Url.Encode(der)) && der != []
    && LoadCsr(der).Some? && LoadCsr(der).value.signatureOk && BindsTo(LoadCsr(der).value, ids)
  }

  /** For an order's identifiers, decoding succeeds exactly with a proper request, and only
      with the bytes that encode to the field. */
  lemma DecodeExact(field: Json, ids: seq<Identifier>, der: Bytes, values: seq<Value>)
    requires ValidIdentifiers(ids)
    ensures DecodeCsr(field, ids) == Some((der, values)) <==>
            ProperCsr(field, der, ids) && values == ValuesOfIdentifiers(ids)
  {
    hide Accepts, BindsTo, Base64Url.Encode, Base64Url.DecodeStrict, ValidIdentifiers, ValuesOfIdentifiers;
    if field.Str? {
      Base64Url.StrictInverse(der, field.s);
      Base64Url.EncodeEmpty(der);
    }
    if LoadCsr(der).Some? { BindsExact(LoadCsr(der).value, ids); }
  }

  /** The field holds a proper request for these identifiers, which are those of an order. */
  ghost predicate HasProperCsr(field: Json, ids: seq<Identifier>) {
    ValidIdentifiers(ids) && exists der :: ProperCsr(field, der, ids)
  }

  lemma DecodeSucceeds(field: Json, ids: seq<Identifier>)
    ensures DecodeCsr(field, ids).Some? <==> HasProperCsr(field, ids)
    ensures DecodeCsr(field, ids).Some? ==>
              && ValidIdentifiers(ids) && ProperCsr(field, DecodeCsr(field, ids).value.0, ids)
              && DecodeCsr(field, ids).value.1 == ValuesOfIdentifiers(ids)
  {
    hide DecodeCsr, ProperCsr, ValidIdentifiers, ValuesOfIdentifiers;
    if ValidIdentifiers(ids) {
      if der :| ProperCsr(field, der, ids) { DecodeExact(field, ids, der, ValuesOfIdentifiers(ids)); }
      if DecodeCsr(field, ids).Some? {
        var decoded := DecodeCsr(field, ids).value;
        DecodeExact(field, ids, decoded.0, decoded.1);
      }
    } else {
      OnlyOrders(field, ids);
    }
  }

  lemma OnlyOrders(field: Json, ids: seq<Identifier>)
    ensures DecodeCsr(field, ids).Some? ==> ValidIdentifiers(ids)
  {
    hide Accepts, Base64Url.DecodeStrict, ValidIdentifiers;
  }

  /** `decode_and_validate_csr` succeeds exactly with a proper request for these identifiers,
      and then yields its bytes and the identifiers' own values. */
  method DecodeAndValidateCsr(field: Json, ids: seq<Identifier>) returns (r: Option<(Bytes, seq<Value>)>)
    ensures r == DecodeCsr(field, ids)
    ensures r.Some? <==> HasProperCsr(field, ids)
    ensures r.Some? ==> ValidIdentifiers(ids) && ProperCsr(field, r.value.0, ids)
    ensures r.Some? ==> r.value.1 == ValuesOfIdentifiers(ids)
  {
    hide Accepts, Base64Url.DecodeStrict, ValidIdentifiers, KeysOfIdentifiers, KeysOfValues, ProperCsr, HasProperCsr,
      ValuesOfIdentifiers;
    DecodeSucceeds(field, ids);
    if !field.Str? || field.s == "" {
      return None;
    }
    var der := Base64Url.DecodeStrict(field.s);
    if der.None? {
      return None;
    }
    var csr := LoadCsr(der.value);
    if csr.None? || !csr.value.signatureOk || !ValidIdentifiers(ids) {
      return None;
    }
    var bound := ValidateCsrIdentifiers(csr.value, ids);
    if bound.None? {
      return None;
    }
    return Some((der.value, ValuesOfIdentifiers(ids)));
  }

  // ------------------------------------------------------------ the client's request

  function NameOfValue(value: Value): GeneralName {
    match value
    case Dns(name) => DnsName(name)
    case Ip(address) => IpName(address)
  }

  function CsrFor(key: PublicKey, values: seq<Value>): Csr
    requires values != []
  {
    Csr(seq(|values|, i requires 0 <= i < |values| => NameOfValue(values[i])),
        [ValueText(values[0])], key, true)
  }

  /** The longest common name the X.509 library accepts. */
  const MAX_COMMON_NAME: nat := 64

  /** The first value's text, if there is one, can be a common name. */
  predicate CommonNameFits(values: seq<Value>) {
    values != [] ==> |ValueText(values[0])| <= MAX_COMMON_NAME
  }

  /** The request of `generate_csr`, unless it raises. */
  function GeneratedCsr(key: PublicKey, values: seq<Value>): Option<Csr> {
    if values == [] || !ValidValues(values) || !CommonNameFits(values) then None else Some(CsrFor(key, values))
  }

  /** `generate_csr`: one typed SAN per value, in order, and the first value's text as the
      only common name; it raises for an empty or invalid list and for a first text that is
      too long for a common name. */
  method GenerateCsr(key: PublicKey, values: seq<Value>) returns (r: Option<Csr>)
    ensures r == GeneratedCsr(key, values)
    ensures r.Some? <==> values != [] && ValidValues(values) && |ValueText(values[0])| <= 64
    ensures r.Some? ==> r.value.commonNames == [ValueText(values[0])] && r.value.key == key && r.value.signatureOk
    ensures r.Some? ==> SansReadable(r.value.sans) && SanValues(r.value.sans) == values
  {
    hide ValidValues, SansReadable, SanValues, ValueText;
    if values == [] || !ValidValues(values) || |ValueText(values[0])| > MAX_COMMON_NAME {
      return None;
    }
    var sans: seq<GeneralName> := [];
    for k := 0 to |values|
      invariant |sans| == k
      invariant forall i :: 0 <= i < k ==> sans[i] == NameOfValue(values[i])
    {
      match values[k] {
        case Ip(address) => sans := sans + [IpName(address)];
        case Dns(name) => sans := sans + [DnsName(name)];
      }
    }
    assert sans == CsrFor(key, values).sans;
    ClientSans(key, values);
    return Some(Csr(sans, [ValueText(values[0])], key, true));
  }

  lemma ClientSans(key: PublicKey, values: seq<Value>)
    requires values != [] && ValidValues(values)
    ensures SansReadable(CsrFor(key, values).sans) && SanValues(CsrFor(key, values).sans) == values
  {
    hide ValidDns;
    var sans := CsrFor(key, values).sans;
    assert forall i :: 0 <= i < |values| ==> ValueOfName(sans[i]) == Some(values[i]);
  }

  /** The client's request fits an order exactly when the order names the same typed
      identifiers, or those plus the first value's text read as a DNS name. */
  lemma ClientCsrAccepted(key: PublicKey, values: seq<Value>, ids: seq<Identifier>)
    requires values != [] && ValidValues(values)
    ensures Accepts(CsrFor(key, values), ids) <==>
            || KeysOfIdentifiers(ids) == KeysOfValues(values)
            || KeysOfIdentifiers(ids) == KeysOfValues(values) + {DnsKey(ValueText(values[0]))}
  {
    hide SansReadable, ValueText, ValidValues, KeysOfIdentifiers, KeysOfValues, LowerTexts, CommonNamesBound,
      NamedKeys, DnsKey, Lower, SanValues, NameOfValue;
    ClientSans(key, values);
    NoValuesNoKeys(values);
    FirstTextListed(values);
    SingleName(ValueText(values[0]), LowerTexts(values), KeysOfIdentifiers(ids));
  }

  lemma FirstTextListed(values: seq<Value>)
    requires values != []
    ensures Lower(ValueText(values[0])) in LowerTexts(values)
  {
  }

  lemma SingleName(name: string, sanText: set<string>, expected: set<Key>)
    requires Lower(name) in sanText
    ensures CommonNamesBound([name], sanText, expected)
    ensures NamedKeys([name], expected) == if DnsKey(name) in expected then {DnsKey(name)} else {}
  {
    hide DnsKey, Lower, ValidDns;
    assert [name][0] == name;
  }

  /** The first identifier's text is the first value's. */
  lemma FirstTextFits(ids: seq<Identifier>)
    requires ids != [] && ValidIdentifiers(ids)
    ensures CommonNameFits(ValuesOfIdentifiers(ids)) <==> |ids[0].value| <= MAX_COMMON_NAME
  {
    hide ParseCanonicalAddress, AddressText, ValidDns;
    WireValueRoundTrip(ids[0]);
  }

  /** In particular the server accepts it for the order created from the same list. */
  lemma OwnOrderAcceptsClientCsr(key: PublicKey, values: seq<Value>, der: Bytes)
    requires values != [] && ValidValues(values)
    requires LoadCsr(der) == Some(CsrFor(key, values)) && der != []
    ensures ValidIdentifiers(IdentifiersOfValues(values))
    ensures DecodeCsr(Str(Base64Url.Encode(der)), IdentifiersOfValues(values)) == Some((der, values))
  {
    hide Accepts, Base64Url.Encode, Base64Url.DecodeStrict, ValidValues, ValidIdentifiers, KeysOfIdentifiers,
      KeysOfValues, IdentifiersOfValues, ValuesOfIdentifiers;
    ValuesWireRoundTrip(values);
    ClientCsrAccepted(key, values, IdentifiersOfValues(values));
    Base64Url.StrictInverse(der, Base64Url.Encode(der));
    Base64Url.EncodeEmpty(der);
  }
}
