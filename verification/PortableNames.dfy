/** The directory names of the file store: safe on every file system, and the identifiers that
    keep their own text as the name. */
module PortableNames {
  import opened Text
  import opened Identifiers
  import opened CertStore

  /** A character no file name may hold on some file system. */
  predicate Forbidden(c: char) {
    || (c as int) < 32
    || c == '<' || c == '>' || c == ':' || c == '"' || c == '/' || c == '\\' || c == '|' || c == '?' || c == '*'
  }

  /** The part of a name that device names are compared with. */
  function DevicePart(name: string): string {
    Upper(StripRight(Split(name, '.')[0]))
  }

  /** A name that can be a directory anywhere. */
  predicate SafeName(name: string) {
    && name != "" && name != "." && name != ".." && |name| <= 255
    && (forall i :: 0 <= i < |name| ==> !Forbidden(name[i]))
    && name[|name| - 1] != ' ' && name[|name| - 1] != '.'
    && !Reserved(DevicePart(name))
  }

  lemma DeviceNamesShort(name: string)
    requires Reserved(name)
    ensures |name| <= 4
  {
  }

  /** No forbidden character, no dot and no space. */
  predicate PlainText(s: string) {
    forall i :: 0 <= i < |s| ==> !Forbidden(s[i]) && s[i] != '.' && s[i] != ' '
  }

  lemma PrefixPlain()
    ensures PlainText(PREFIX) && |PREFIX| == 9
  {
  }

  lemma DigestPlain(domain: string)
    ensures PlainText(Digest(domain)) && |Digest(domain)| == 64
  {
    assert IsHexDigest(Digest(domain));
  }

  lemma PlainJoined(a: string, b: string)
    requires PlainText(a) && PlainText(b)
    ensures PlainText(a + b)
  {
    hide Forbidden;
  }

  lemma PlainSafe(name: string)
    requires PlainText(name) && 4 < |name| <= 255
    ensures SafeName(name)
  {
    hide Reserved, Upper, StripRight, Forbidden, Split;
    SplitNoSep(name, '.');
    LongNameNoDevice(name);
  }

  lemma HashedSafe(domain: string)
    ensures SafeName(PREFIX + Digest(domain))
  {
    hide PlainText, SafeName, IsHexDigest;
    PrefixPlain();
    DigestPlain(domain);
    PlainJoined(PREFIX, Digest(domain));
    PlainSafe(PREFIX + Digest(domain));
  }

  lemma LongNameNoDevice(name: string)
    requires |name| > 4 && name[|name| - 1] != ' ' && name[|name| - 1] != '.'
    ensures !Reserved(Upper(StripRight(name)))
  {
    if Reserved(Upper(name)) { DeviceNamesShort(Upper(name)); }
  }

  /** Every directory name of a valid key is safe. */
  lemma ComponentSafe(domain: string)
    requires LegalKey(domain)
    ensures SafeName(Component(domain))
  {
    hide Reserved, Upper, StripRight, Split;
    HashedSafe(domain);
  }

  /** A name with a forbidden character is hashed; in particular a wildcard name. */
  lemma ForbiddenHashed(domain: string, i: nat)
    requires i < |domain| && Forbidden(domain[i])
    ensures Component(domain) == PREFIX + Digest(domain)
  {
    hide Reserved, Upper, StripRight, Split;
  }

  // ---------------------------------------------------------------- identifiers as keys

  /** Labels and dots, with a letter or digit at the end. */
  predicate NameText(name: string) {
    && name != "" && IsAlphanumeric(name[|name| - 1])
    && forall i :: 0 <= i < |name| ==> IsLabelChar(name[i]) || name[i] == '.'
  }

  lemma LabelText(part: string)
    requires ValidLabel(part)
    ensures NameText(part)
  {
  }

  lemma DottedText(first: string, rest: string)
    requires NameText(first) && NameText(rest)
    ensures NameText(first + ['.'] + rest)
  {
    hide IsLabelChar, IsAlphanumeric;
    var name := first + ['.'] + rest;
    assert name[|name| - 1] == rest[|rest| - 1];
  }

  lemma {:induction false} NameOfLabelsText(parts: seq<string>)
    requires |parts| >= 1 && ValidLabels(parts)
    ensures NameText(Join(parts, '.'))
  {
    hide ValidLabel, NameText;
    LabelText(parts[0]);
    if |parts| > 1 {
      NameOfLabelsText(parts[1..]);
      DottedText(parts[0], Join(parts[1..], '.'));
    }
  }

  lemma TextPortable(domain: string)
    requires NameText(domain)
    ensures PortableComponent(domain) <==> |domain| <= 255 && !Reserved(DevicePart(domain))
    ensures LegalKey(domain)
  {
    hide Reserved, Upper, StripRight, Split;
  }

  /** The first label is a device name in either case. */
  predicate DeviceLabel(domain: string) {
    Reserved(Upper(Split(domain, '.')[0]))
  }

  lemma FirstLabelWhole(domain: string)
    requires ValidLabels(Split(domain, '.'))
    ensures Reserved(DevicePart(domain)) <==> DeviceLabel(domain)
  {
    hide Split, Reserved, Upper;
    LabelText(Split(domain, '.')[0]);
  }

  lemma PlainDirectory(domain: string)
    requires ValidLabels(Split(domain, '.'))
    ensures LegalKey(domain)
    ensures KeptAsName(domain) <==> |domain| <= 200 && !(PREFIX <= domain) && !DeviceLabel(domain)
  {
    hide Reserved, NameText, Split, LegalKey, PortableComponent, ValidLabels, DeviceLabel, DevicePart;
    JoinSplit(domain, '.');
    NameOfLabelsText(Split(domain, '.'));
    TextPortable(domain);
    FirstLabelWhole(domain);
  }

  /** A valid DNS name is its own directory exactly when it has no wildcard and at most 200
      characters, looks like no hashed name, and its first label is no device name; or when it
      happens to be its own hashed name. */
  lemma DnsDirectory(domain: string)
    requires ValidDns(domain, true)
    ensures LegalKey(domain)
    ensures Component(domain) == domain <==>
            || (!("*." <= domain) && |domain| <= 200 && !(PREFIX <= domain) && !DeviceLabel(domain))
            || domain == PREFIX + Digest(domain)
  {
    hide Split, ValidLabels, KeptAsName, DeviceLabel, LegalKey, Component, Forbidden;
    OwnComponent(domain);
    if "*." <= domain {
      AsteriskForbidden();
      ForbiddenHashed(domain, 0);
      WildcardLegal(domain);
      HashedIsOther(domain);
    } else {
      PlainDirectory(domain);
    }
  }

  lemma AsteriskForbidden()
    ensures Forbidden('*') && "*."[0] == '*'
  {
  }

  lemma HashedIsOther(domain: string)
    requires domain != "" && domain[0] == '*'
    ensures PREFIX + Digest(domain) != domain
    ensures !KeptAsName(domain)
  {
    hide Reserved, Upper, StripRight, Split;
    assert (PREFIX + Digest(domain))[0] == PREFIX[0] == 'l';
  }

  lemma WildcardLegal(domain: string)
    requires ValidDns(domain, true) && "*." <= domain
    ensures LegalKey(domain)
  {
    hide ValidLabels, Split, NameText, LegalKey;
    var name := domain[2..];
    JoinSplit(name, '.');
    NameOfLabelsText(Split(name, '.'));
    TextLegal(name);
    assert domain == "*." + name;
  }

  lemma TextLegal(name: string)
    requires NameText(name)
    ensures LegalKey("*." + name)
  {
    var domain := "*." + name;
    assert domain[0] == '*' && |domain| > 2;
    assert forall i :: 2 <= i < |domain| ==> domain[i] == name[i - 2];
  }

  lemma OwnComponent(domain: string)
    ensures Component(domain) == domain <==> KeptAsName(domain) || domain == PREFIX + Digest(domain)
    ensures domain == PREFIX + Digest(domain) ==> PREFIX <= domain && !KeptAsName(domain)
  {
    hide PortableComponent;
  }

  /** IPv6 text has colons and is hashed. */
  lemma V6Directory(address: Address)
    requires address.V6?
    ensures Component(AddressText(address)) == PREFIX + Digest(AddressText(address))
  {
    hide AddressText, Component;
    AddressTextShape(address);
    var text := AddressText(address);
    var i :| 0 <= i < |text| && text[i] == ':';
    ForbiddenHashed(text, i);
  }
}
