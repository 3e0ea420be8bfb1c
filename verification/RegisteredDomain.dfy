/** The default rule for the registered domain a name counts towards. */
module RegisteredDomain {
  import opened Text
  import opened Identifiers

  /** The second-level domains under which a registered domain has three labels. The rule
      is studied for every such list. */
  const KNOWN_SLDS: set<string>

  function StripDots(s: string): string {
    if s != "" && s[|s| - 1] == '.' then StripDots(s[..|s| - 1]) else s
  }

  /** The last labels of a name, joined again. */
  function Tail(parts: seq<string>, k: nat): string
    requires 1 <= k <= |parts|
  {
    Join(parts[|parts| - k..], '.')
  }

  /** How many of the labels count. */
  function Kept(parts: seq<string>): nat
    requires |parts| >= 1
  {
    if |parts| <= 2 then |parts| else if Tail(parts, 2) in KNOWN_SLDS then 3 else 2
  }

  /** `_default_registered_domain`. */
  function Default(domain: string): string {
    var bare := StripDots(StripWildcard(Lower(domain)));
    var parts := Split(bare, '.');
    if |parts| <= 2 then bare
    else if Tail(parts, 2) in KNOWN_SLDS then Tail(parts, 3)
    else Tail(parts, 2)
  }

  // ---------------------------------------------------------------- plain lower-case names

  predicate PlainLabel(part: string) {
    part != "" && '*' !in part && '.' !in part && NoUpper(part)
  }

  predicate PlainLabels(parts: seq<string>) {
    |parts| >= 1 && forall i :: 0 <= i < |parts| ==> PlainLabel(parts[i])
  }

  lemma {:induction false} JoinPlain(parts: seq<string>)
    requires PlainLabels(parts)
    ensures var name := Join(parts, '.'); name != "" && '*' !in name && NoUpper(name) && name[|name| - 1] != '.'
  {
    if |parts| > 1 {
      JoinPlain(parts[1..]);
      var rest := Join(parts[1..], '.');
      var name := parts[0] + ['.'] + rest;
      assert name[|name| - 1] == rest[|rest| - 1];
    } else {
      assert parts[0][|parts[0]| - 1] in parts[0];
    }
  }

  lemma NoWildcard(name: string)
    requires '*' !in name
    ensures StripWildcard(name) == name
  {
    if name != "" { assert name[0] in name; }
    assert "*."[0] == '*';
  }

  /** On a plain name the rule keeps the last labels. */
  lemma DefaultOfPlain(parts: seq<string>)
    requires PlainLabels(parts)
    ensures Default(Join(parts, '.')) == Tail(parts, Kept(parts))
  {
    hide PlainLabel, Join, Split, Lower, StripWildcard;
    var name := Join(parts, '.');
    JoinPlain(parts);
    LowerOfLower(name);
    NoWildcard(name);
    LabelsWithoutDot(parts);
    SplitJoin(parts, '.');
    assert parts[|parts| - |parts|..] == parts;
  }

  lemma LabelsWithoutDot(parts: seq<string>)
    requires PlainLabels(parts)
    ensures forall i :: 0 <= i < |parts| ==> '.' !in parts[i]
  {
  }

  lemma TailPlain(parts: seq<string>, k: nat)
    requires PlainLabels(parts) && 1 <= k <= |parts|
    ensures PlainLabels(parts[|parts| - k..])
  {
    hide PlainLabel;
  }

  lemma TailOfTail(parts: seq<string>, k: nat, j: nat)
    requires 1 <= j <= k <= |parts|
    ensures Tail(parts[|parts| - k..], j) == Tail(parts, j)
  {
    hide Join;
    var tail := parts[|parts| - k..];
    assert tail[|tail| - j..] == parts[|parts| - j..];
  }

  // ---------------------------------------------------------------- valid names

  lemma {:induction false} PartsWithoutSeparator(s: string, sep: char)
    ensures forall i :: 0 <= i < |Split(s, sep)| ==> sep !in Split(s, sep)[i]
  {
    if s != [] { PartsWithoutSeparator(s[1..], sep); }
  }

  /** The labels of a valid name, lower-cased and without the wildcard, are plain. */
  lemma ValidNameLabels(domain: string)
    requires ValidDns(domain, true)
    ensures PlainLabels(Split(Lower(StripWildcard(domain)), '.'))
  {
    hide ValidLabel, PlainLabel;
    var name := StripWildcard(domain);
    var parts, lowered := Split(name, '.'), Split(Lower(name), '.');
    SplitLower(name);
    PartsWithoutSeparator(Lower(name), '.');
    forall i | 0 <= i < |lowered| ensures PlainLabel(lowered[i]) {
      assert ValidLabel(parts[i]);
      LabelLowered(parts[i]);
    }
  }

  lemma LabelLowered(part: string)
    requires ValidLabel(part)
    ensures '.' !in Lower(part) ==> PlainLabel(Lower(part))
  {
    assert forall i :: 0 <= i < |part| ==> IsLabelChar(part[i]);
  }

  /** The labels a valid name is counted by. */
  function LabelsOf(domain: string): (parts: seq<string>)
    ensures |parts| >= 1
  {
    Split(Lower(StripWildcard(domain)), '.')
  }

  lemma DefaultOfValid(domain: string)
    requires ValidDns(domain, true)
    ensures PlainLabels(LabelsOf(domain))
    ensures Default(domain) == Tail(LabelsOf(domain), Kept(LabelsOf(domain)))
  {
    hide ValidDns, Default, Tail, Kept, PlainLabels;
    ValidNameLabels(domain);
    JoinSplit(Lower(StripWildcard(domain)), '.');
    DefaultOfPlain(LabelsOf(domain));
    BareAlike(domain);
  }

  lemma BareAlike(domain: string)
    requires PlainLabels(LabelsOf(domain))
    ensures Default(domain) == Default(Lower(StripWildcard(domain)))
  {
    hide PlainLabels, Tail;
    var bare := Lower(StripWildcard(domain));
    StripWildcardLower(domain);
    LowerIdempotent(StripWildcard(domain));
    JoinSplit(bare, '.');
    JoinPlain(LabelsOf(domain));
    NoWildcard(bare);
  }

  /** The registered domain of a valid name does not depend on letter case or on a wildcard
      label, and it is its own registered domain. */
  lemma DefaultIsStable(domain: string)
    requires ValidDns(domain, true)
    ensures Default(Lower(domain)) == Default(domain)
    ensures Default(StripWildcard(domain)) == Default(domain)
    ensures Default(Default(domain)) == Default(domain)
  {
    hide ValidDns, Default, Tail, Kept, PlainLabels, Lower, Split;
    DefaultOfValid(domain);
    BareAlike(domain);
    LoweredAlike(domain);
    var parts := LabelsOf(domain);
    KeptTwice(parts);
  }

  lemma LoweredAlike(domain: string)
    requires PlainLabels(LabelsOf(domain))
    ensures Default(Lower(domain)) == Default(domain)
    ensures Default(StripWildcard(domain)) == Default(domain)
  {
    hide PlainLabels, Tail, Join, Split, Lower;
    LowerIdempotent(domain);
    var bare := Lower(StripWildcard(domain));
    LowerIdempotent(StripWildcard(domain));
    StripWildcardLower(domain);
    JoinSplit(bare, '.');
    JoinPlain(LabelsOf(domain));
    NoWildcard(bare);
  }

  lemma KeptTwice(parts: seq<string>)
    requires PlainLabels(parts)
    ensures Default(Tail(parts, Kept(parts))) == Tail(parts, Kept(parts))
  {
    hide PlainLabel, Default, Join;
    var k := Kept(parts);
    var tail := parts[|parts| - k..];
    TailPlain(parts, k);
    DefaultOfPlain(tail);
    TailOfTail(parts, k, k);
    if |parts| > 2 { TailOfTail(parts, k, 2); }
  }

  /** A name one label below another counts towards the same registered domain exactly when
      the other is not itself a bare suffix: it has three labels or more, or it has two that
      are not a known second-level domain. */
  lemma SubdomainCounts(first: string, parts: seq<string>)
    requires PlainLabel(first) && PlainLabels(parts)
    ensures Default(Join([first] + parts, '.')) == Default(Join(parts, '.')) <==>
            |parts| >= 3 || (|parts| == 2 && Tail(parts, 2) !in KNOWN_SLDS)
  {
    hide PlainLabels, PlainLabel, Default, Join, Tail, Kept;
    PlainNotEmpty(parts);
    PlainBelow(first, parts);
    DefaultOfPlain(parts);
    DefaultOfPlain([first] + parts);
    KeptBelow(first, parts);
  }

  lemma PlainNotEmpty(parts: seq<string>)
    requires PlainLabels(parts)
    ensures |parts| >= 1
  {
  }

  lemma KeptBelow(first: string, parts: seq<string>)
    requires |parts| >= 1
    ensures Tail([first] + parts, Kept([first] + parts)) == Tail(parts, Kept(parts)) <==>
            |parts| >= 3 || (|parts| == 2 && Tail(parts, 2) !in KNOWN_SLDS)
  {
    hide Tail, Join;
    if |parts| >= 2 { TailBelow(first, parts, 2); }
    if |parts| >= 3 { TailBelow(first, parts, 3); }
    if |parts| <= 2 { WholeIsLonger(first, parts); }
  }

  lemma WholeIsLonger(first: string, parts: seq<string>)
    requires |parts| >= 1
    ensures Tail([first] + parts, |parts| + 1) != Tail(parts, |parts|)
  {
    hide Join;
    LongerBelow(first, parts);
    var sub := [first] + parts;
    assert sub[|sub| - |sub|..] == sub && parts[|parts| - |parts|..] == parts;
  }

  lemma PlainBelow(first: string, parts: seq<string>)
    requires PlainLabel(first) && PlainLabels(parts)
    ensures PlainLabels([first] + parts)
  {
    hide PlainLabel;
  }

  lemma TailBelow(first: string, parts: seq<string>, k: nat)
    requires 1 <= k <= |parts|
    ensures Tail([first] + parts, k) == Tail(parts, k)
  {
    hide Join;
    var sub := [first] + parts;
    assert sub[|sub| - k..] == parts[|parts| - k..];
  }

  lemma LongerBelow(first: string, parts: seq<string>)
    requires |parts| >= 1
    ensures |Join([first] + parts, '.')| > |Join(parts, '.')|
  {
    assert ([first] + parts)[1..] == parts;
  }

  // ---------------------------------------------------------------- trailing dots

  lemma LowerDot(domain: string)
    ensures Lower(domain + ".") == Lower(domain) + "."
    ensures Lower(domain) == "*" <==> domain == "*"
  {
    if |domain| == 1 { assert Lower(domain)[0] == '*' <==> domain[0] == '*'; }
  }

  lemma WildcardDot(name: string)
    requires name != "*"
    ensures StripWildcard(name + ".") == StripWildcard(name) + "."
  {
    assert "*."[0] == '*' && "*."[1] == '.';
    if |name| >= 2 { assert (name + ".")[..2] == name[..2]; }
    if "*." <= name { assert (name + ".")[2..] == name[2..] + "."; }
    if |name| == 1 { assert name[0] != '*' && (name + ".")[0] == name[0]; }
  }

  /** A dot at the end of a name does not matter, except to a lone asterisk. */
  lemma TrailingDot(domain: string)
    requires domain != "*"
    ensures Default(domain + ".") == Default(domain)
  {
    hide Lower, StripWildcard, Split, Tail;
    LowerDot(domain);
    WildcardDot(Lower(domain));
    DotStripped(StripWildcard(Lower(domain)));
  }

  lemma DotStripped(name: string)
    ensures StripDots(name + ".") == StripDots(name)
  {
    assert (name + ".")[..|name|] == name;
  }
}
