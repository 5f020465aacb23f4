/** `.knot` names: labels that carry a kind, an identity and a checksum, domains with a service in
    front, and aliases. Error texts are left out; `sum` is the digest of the checksum. */
module Naming {
  import opened NodeId
  import opened Wire
  import opened Crypto
  import opened Text
  import Base32

  const SUFFIX := ".knot"
  const NODE: Byte := 1
  const SERVICE: Byte := 2
  const DEFAULT_SERVICE := "http"

  type Checksum = Bytes -> Digest

  predicate IsLetterOrDigit(c: char) { 'a' <= c <= 'z' || '0' <= c <= '9' }

  /** `[a-z0-9][a-z0-9._-]{0,62}` */
  predicate IsServiceName(s: string) {
    1 <= |s| <= 63 && IsLetterOrDigit(s[0])
    && forall i :: 1 <= i < |s| ==> IsLetterOrDigit(s[i]) || s[i] == '.' || s[i] == '_' || s[i] == '-'
  }

  /** `[a-z0-9][a-z0-9-]{0,62}` */
  predicate IsAliasName(s: string) {
    1 <= |s| <= 63 && IsLetterOrDigit(s[0]) && forall i :: 1 <= i < |s| ==> IsLetterOrDigit(s[i]) || s[i] == '-'
  }

  function NormalizeService(service: string): string {
    var s := Lower(Trim(service));
    if s == "" then DEFAULT_SERVICE else s
  }

  // ---------------------------------------------------------------- labels

  function Payload(sum: Checksum, kind: Byte, raw: Raw): (p: Bytes)
    ensures |p| == 35
  {
    [kind] + raw + sum([kind] + raw)[..2]
  }

  function Label(sum: Checksum, kind: Byte, raw: Raw): string { Lower(Base32.Encode(Payload(sum, kind, raw))) }

  /** Fill a buffer with kind, identity and the first two bytes of the checksum, then print it. */
  method EncodeLabel(sum: Checksum, kind: Byte, raw: Raw) returns (printed: string)
    ensures printed == Label(sum, kind, raw)
  {
    var payload := new Byte[1 + |raw| + 2];
    payload[0] := kind;
    for i := 0 to |raw|
      invariant payload[..1 + i] == [kind] + raw[..i]
    {
      payload[1 + i] := raw[i];
      assert payload[..1 + (i + 1)] == payload[..1 + i] + [raw[i]];
    }
    assert raw[..|raw|] == raw;
    var digest := sum(payload[..1 + |raw|]);
    payload[1 + |raw|] := digest[0];
    payload[2 + |raw|] := digest[1];
    assert payload[..] == payload[..1 + |raw|] + digest[..2];
    printed := Lower(Base32.Encode(payload[..]));
  }

  datatype Identity = Node(id: Raw) | Service(id: Raw)

  function ParseLabel(sum: Checksum, text: string): Result<Identity> {
    match Base32.Decode(Upper(Trim(Lower(text))))
    case Err => Err
    case Ok(raw) =>
      if |raw| != 35 then Err
      else if raw[33..] != sum(raw[..33])[..2] then Err
      else if raw[0] == NODE then Ok(Node(raw[1..33]))
      else if raw[0] == SERVICE then Ok(Service(raw[1..33]))
      else Err
  }

  function Domain(sum: Checksum, id: Raw): string { Label(sum, NODE, id) + SUFFIX }

  function IdentityDomain(sum: Checksum, id: Raw): string { Label(sum, SERVICE, id) + SUFFIX }

  function ServiceDomain(sum: Checksum, service: string, id: Raw): Result<string> {
    var s := NormalizeService(service);
    if IsServiceName(s) then Ok(s + "." + Domain(sum, id)) else Err
  }

  // ---------------------------------------------------------------- resolving

  datatype Alias = Alias(name: string, node: string, serviceId: string)

  /** `alias` is empty for a canonical address. */
  datatype Resolved =
    | NodeService(node: Raw, service: string, alias: string, host: string)
    | ServiceIdentity(id: Raw, alias: string, host: string)

  /** `prefix` followed by Base32, in either case. */
  function ParseId(prefix: string, s: string): Result<Raw> {
    var t := Trim(Lower(s));
    if !HasPrefix(t, prefix) then Err
    else
      match Base32.Decode(Upper(t[|prefix|..]))
      case Err => Err
      case Ok(raw) => if |raw| == 32 then var id: Raw := raw; Ok(id) else Err
  }

  function PrintId(prefix: string, id: Raw): string { prefix + Lower(Base32.Encode(id)) }

  const NODE_PREFIX := "kr_"
  const SERVICE_PREFIX := "ks_"

  /** A node or service, written as its domain or as its ID. */
  function ParseReference(sum: Checksum, kind: Byte, value: string): Result<Raw> {
    var v := Trim(Lower(value));
    if HasSuffix(v, SUFFIX) then
      var labels := Split(TrimSuffix(v, SUFFIX), '.');
      if |labels| != 1 then Err
      else
        match ParseLabel(sum, labels[0])
        case Ok(Node(id)) => if kind == NODE then Ok(id) else Err
        case Ok(Service(id)) => if kind == SERVICE then Ok(id) else Err
        case Err => Err
    else ParseId(if kind == NODE then NODE_PREFIX else SERVICE_PREFIX, v)
  }

  function ResolveAlias(sum: Checksum, labels: seq<string>, host: string, aliases: seq<Alias>): Result<Resolved>
    requires 1 <= |labels| <= 2
  {
    var name := labels[|labels| - 1];
    if aliases == [] then Err
    else if Lower(aliases[0].name) != name then ResolveAlias(sum, labels, host, aliases[1..])
    else if aliases[0].serviceId != "" then
      if |labels| != 1 then Err
      else
        match ParseReference(sum, SERVICE, aliases[0].serviceId)
        case Err => Err
        case Ok(id) => Ok(ServiceIdentity(id, name, host))
    else
      match ParseReference(sum, NODE, aliases[0].node)
      case Err => Err
      case Ok(id) => Ok(NodeService(id, if |labels| > 1 then NormalizeService(labels[0]) else DEFAULT_SERVICE, name, host))
  }

  function ResolveLabels(sum: Checksum, labels: seq<string>, host: string, aliases: seq<Alias>): Result<Resolved>
    requires |labels| >= 1
  {
    var last := labels[|labels| - 1];
    match ParseLabel(sum, last)
    case Ok(Service(id)) => if |labels| != 1 then Err else Ok(ServiceIdentity(id, "", host))
    case Ok(Node(id)) =>
      var service := if |labels| > 1 then NormalizeService(Join(labels[..|labels| - 1], '.')) else DEFAULT_SERVICE;
      if IsServiceName(service) then Ok(NodeService(id, service, "", host)) else Err
    case Err =>
      if |labels| > 2 || !IsAliasName(last) then Err else ResolveAlias(sum, labels, host, aliases)
  }

  function CleanHost(typed: string): string { TrimSuffix(Trim(Lower(typed)), ".") }

  function ResolveHost(sum: Checksum, typed: string, aliases: seq<Alias>): Result<Resolved> {
    var host := CleanHost(typed);
    if ':' in host || !HasSuffix(host, SUFFIX) then Err
    else
      var labels := Split(TrimSuffix(host, SUFFIX), '.');
      if labels[|labels| - 1] == "" then Err else ResolveLabels(sum, labels, host, aliases)
  }

  // ---------------------------------------------------------------- what labels are made of

  predicate IsLabelChar(c: char) { 'a' <= c <= 'z' || '2' <= c <= '7' }

  ghost predicate IsLabelText(s: string) { s != "" && forall c :: c in s ==> IsLabelChar(c) }

  lemma PrintedText(b: Bytes)
    requires b != []
    ensures IsLabelText(Lower(Base32.Encode(b)))
    ensures Upper(Lower(Base32.Encode(b))) == Base32.Encode(b)
  {
    Base32.RoundTrip(b);
    var e := Base32.Encode(b);
    forall i | 0 <= i < |e| ensures IsLabelChar(Lower(e)[i]) && Upper(Lower(e))[i] == e[i] {
      assert e[i] in e;
    }
  }

  /** A printed label is read back as what it was printed from. */
  lemma LabelRoundTrip(sum: Checksum, kind: Byte, id: Raw)
    requires kind == NODE || kind == SERVICE
    ensures IsLabelText(Label(sum, kind, id))
    ensures ParseLabel(sum, Label(sum, kind, id)) == Ok(if kind == NODE then Node(id) else Service(id))
  {
    var p := Payload(sum, kind, id);
    var l := Label(sum, kind, id);
    PrintedText(p);
    PlainStays(l);
    Base32.RoundTrip(p);
    assert p[..33] == [kind] + id && p[33..] == sum([kind] + id)[..2] && p[1..33] == id;
  }

  /** A label is accepted exactly if it decodes to a kind, an identity and the first two bytes of the
      digest of both. */
  lemma LabelsAreChecked(sum: Checksum, text: string, x: Identity)
    ensures ParseLabel(sum, text) == Ok(x) <==>
            && Base32.Decode(Upper(Trim(Lower(text)))).Ok?
            && var raw := Base32.Decode(Upper(Trim(Lower(text)))).value;
               var head := [if x.Node? then 1 else 2] + x.id;
               raw == head + sum(head)[..2]
  {
    var decoded := Base32.Decode(Upper(Trim(Lower(text))));
    if decoded.Ok? {
      var raw := decoded.value;
      var head := [if x.Node? then 1 else 2] + x.id;
      if raw == head + sum(head)[..2] {
        assert raw[..33] == head && raw[33..] == sum(head)[..2] && raw[1..33] == x.id;
      }
      if ParseLabel(sum, text) == Ok(x) {
        assert raw[..33] == [raw[0]] + raw[1..33];
        assert raw == raw[..33] + raw[33..];
      }
    }
  }

  /** A label printed with any other two bytes at its end is refused. */
  lemma WrongChecksumIsRefused(sum: Checksum, kind: Byte, id: Raw, check: Bytes)
    requires |check| == 2 && check != sum([kind] + id)[..2]
    ensures ParseLabel(sum, Lower(Base32.Encode([kind] + id + check))) == Err
  {
    var raw := [kind] + id + check;
    PrintedText(raw);
    PlainStays(Lower(Base32.Encode(raw)));
    Base32.RoundTrip(raw);
    assert raw[..33] == [kind] + id && raw[33..] == check;
  }

  /** Likewise an ID. */
  lemma IdRoundTrip(prefix: string, id: Raw)
    requires prefix == NODE_PREFIX || prefix == SERVICE_PREFIX
    ensures ParseId(prefix, PrintId(prefix, id)) == Ok(id)
  {
    var e := Lower(Base32.Encode(id));
    PrintedText(id);
    assert IsPlain(prefix);
    assert IsPlain(prefix + e);
    PlainStays(prefix + e);
    Base32.RoundTrip(id);
    assert (prefix + e)[..3] == prefix && (prefix + e)[3..] == e;
  }

  /** An ID is read exactly from its prefix and 32 bytes in Base32, in either case. */
  lemma IdsAreChecked(prefix: string, s: string, id: Raw)
    ensures ParseId(prefix, s) == Ok(id) <==>
            && HasPrefix(Trim(Lower(s)), prefix)
            && var decoded := Base32.Decode(Upper(Trim(Lower(s))[|prefix|..]));
               decoded.Ok? && decoded.value == id
  {
    var t := Trim(Lower(s));
    if HasPrefix(t, prefix) {
      var decoded := Base32.Decode(Upper(t[|prefix|..]));
      if decoded.Ok? && |decoded.value| == 32 {
        var raw: Raw := decoded.value;
        assert ParseId(prefix, s) == Ok(raw);
      }
    }
  }

  // ---------------------------------------------------------------- domains

  /** What a user may type for `host`: any letter case, white space around it, a dot behind it. */
  ghost predicate Typed(typed: string, host: string) {
    Trim(Lower(typed)) == host || Trim(Lower(typed)) == host + "."
  }

  lemma CleanTyped(typed: string, host: string)
    requires HasSuffix(host, SUFFIX) && Typed(typed, host)
    ensures CleanHost(typed) == host
  {
    assert host[|host| - 1] == SUFFIX[|SUFFIX| - 1] == 't';
  }

  lemma ServiceNameIsPlain(s: string)
    requires IsServiceName(s)
    ensures IsPlain(s) && ':' !in s
    ensures NormalizeService(s) == s
  {
    forall c | c in s ensures Plain(c) && c != ':' {
      var i :| 0 <= i < |s| && s[i] == c;
    }
    PlainStays(s);
  }

  /** A service may be named in any letter case with white space around it, or not at all. */
  lemma ServicesAreNormalized(a: string, typed: string, b: string, s: string)
    requires AllSpace(a) && AllSpace(b) && IsServiceName(s) && Lower(typed) == s
    ensures NormalizeService(a + typed + b) == s && NormalizeService(a) == "http"
  {
    ServiceNameIsPlain(s);
    assert s[0] in s && s[|s| - 1] in s;
    assert Lower(typed)[0] == s[0] && Lower(typed)[|s| - 1] == s[|s| - 1];
    TrimStrips(a, typed, b);
    assert Lower("") == "";
  }

  /** A host made of something and a last label resolves by its labels. */
  lemma HostOfParts(sum: Checksum, front: string, last: string, typed: string, aliases: seq<Alias>)
    requires last != "" && '.' !in last && ':' !in last && ':' !in front
    requires Typed(typed, front + "." + (last + SUFFIX))
    ensures var host := front + "." + (last + SUFFIX);
            ResolveHost(sum, typed, aliases) == ResolveLabels(sum, Split(front, '.') + [last], host, aliases)
  {
    var host := front + "." + (last + SUFFIX);
    var body := front + "." + last;
    assert host == body + SUFFIX;
    CleanTyped(typed, host);
    assert ':' !in host;
    assert TrimSuffix(host, SUFFIX) == body;
    SplitOne(last, '.');
    SplitAppend(front, last, '.');
  }

  lemma HostOfLabel(sum: Checksum, text: string, typed: string, aliases: seq<Alias>)
    requires text != "" && '.' !in text && ':' !in text && Typed(typed, text + SUFFIX)
    ensures ResolveHost(sum, typed, aliases) == ResolveLabels(sum, [text], text + SUFFIX, aliases)
  {
    var host := text + SUFFIX;
    CleanTyped(typed, host);
    assert ':' !in host;
    assert TrimSuffix(host, SUFFIX) == text;
    SplitOne(text, '.');
  }

  /** Whatever aliases are configured, the domain printed for a service of a node resolves to that
      service of that node, however it is typed. Service names may contain dots. */
  lemma ServiceDomainRoundTrip(sum: Checksum, service: string, id: Raw, typed: string, aliases: seq<Alias>)
    requires ServiceDomain(sum, service, id).Ok? && Typed(typed, ServiceDomain(sum, service, id).value)
    ensures ResolveHost(sum, typed, aliases)
         == Ok(NodeService(id, NormalizeService(service), "", ServiceDomain(sum, service, id).value))
  {
    var s := NormalizeService(service);
    var l := Label(sum, NODE, id);
    LabelRoundTrip(sum, NODE, id);
    ServiceNameIsPlain(s);
    HostOfParts(sum, s, l, typed, aliases);
    var labels := Split(s, '.') + [l];
    assert labels[..|labels| - 1] == Split(s, '.');
    JoinSplit(s, '.');
  }

  /** The bare domain of a node stands for its default service. */
  lemma DomainRoundTrip(sum: Checksum, id: Raw, typed: string, aliases: seq<Alias>)
    requires Typed(typed, Domain(sum, id))
    ensures ResolveHost(sum, typed, aliases) == Ok(NodeService(id, DEFAULT_SERVICE, "", Domain(sum, id)))
  {
    LabelRoundTrip(sum, NODE, id);
    HostOfLabel(sum, Label(sum, NODE, id), typed, aliases);
  }

  /** The domain of a service identity resolves to that identity, and takes no prefix. */
  lemma IdentityDomainRoundTrip(sum: Checksum, id: Raw, typed: string, aliases: seq<Alias>)
    requires Typed(typed, IdentityDomain(sum, id))
    ensures ResolveHost(sum, typed, aliases) == Ok(ServiceIdentity(id, "", IdentityDomain(sum, id)))
  {
    LabelRoundTrip(sum, SERVICE, id);
    HostOfLabel(sum, Label(sum, SERVICE, id), typed, aliases);
  }

  lemma IdentityDomainTakesNoPrefix(sum: Checksum, id: Raw, front: string, typed: string, aliases: seq<Alias>)
    requires ':' !in front && Typed(typed, front + "." + IdentityDomain(sum, id))
    ensures ResolveHost(sum, typed, aliases) == Err
  {
    LabelRoundTrip(sum, SERVICE, id);
    HostOfParts(sum, front, Label(sum, SERVICE, id), typed, aliases);
  }

  /** Two printed service domains are equal only if node and service are. */
  lemma ServiceDomainIsInjective(sum: Checksum, s1: string, id1: Raw, s2: string, id2: Raw)
    requires ServiceDomain(sum, s1, id1).Ok? && ServiceDomain(sum, s1, id1) == ServiceDomain(sum, s2, id2)
    ensures id1 == id2 && NormalizeService(s1) == NormalizeService(s2)
  {
    var host := ServiceDomain(sum, s1, id1).value;
    DomainIsPlain(sum, s1, id1);
    PlainStays(host);
    ServiceDomainRoundTrip(sum, s1, id1, host, []);
    ServiceDomainRoundTrip(sum, s2, id2, host, []);
  }

  lemma DomainIsPlain(sum: Checksum, service: string, id: Raw)
    requires ServiceDomain(sum, service, id).Ok?
    ensures IsPlain(ServiceDomain(sum, service, id).value)
  {
    LabelRoundTrip(sum, NODE, id);
    ServiceNameIsPlain(NormalizeService(service));
  }

  // ---------------------------------------------------------------- aliases

  /** A reference may be the printed ID or the printed domain; both give the identity back. */
  lemma ReferenceRoundTrip(sum: Checksum, kind: Byte, id: Raw)
    requires kind == NODE || kind == SERVICE
    ensures ParseReference(sum, kind, Label(sum, kind, id) + SUFFIX) == Ok(id)
    ensures ParseReference(sum, kind, PrintId(if kind == NODE then NODE_PREFIX else SERVICE_PREFIX, id)) == Ok(id)
  {
    var l := Label(sum, kind, id);
    LabelRoundTrip(sum, kind, id);
    PlainStays(l + SUFFIX);
    SplitOne(l, '.');
    assert TrimSuffix(l + SUFFIX, SUFFIX) == l;
    var prefix := if kind == NODE then NODE_PREFIX else SERVICE_PREFIX;
    IdReferenceRoundTrip(sum, kind, prefix, id);
  }

  /** A reference to something of the other kind is refused, written either way. */
  lemma OtherKindIsRefused(sum: Checksum, kind: Byte, other: Byte, id: Raw)
    requires (kind == NODE && other == SERVICE) || (kind == SERVICE && other == NODE)
    ensures ParseReference(sum, kind, Label(sum, other, id) + SUFFIX) == Err
    ensures ParseReference(sum, kind, PrintId(if other == NODE then NODE_PREFIX else SERVICE_PREFIX, id)) == Err
  {
    var l := Label(sum, other, id);
    LabelRoundTrip(sum, other, id);
    PlainStays(l + SUFFIX);
    SplitOne(l, '.');
    assert TrimSuffix(l + SUFFIX, SUFFIX) == l;
    OtherPrefixIsRefused(sum, kind, if other == NODE then NODE_PREFIX else SERVICE_PREFIX, id);
  }

  lemma OtherPrefixIsRefused(sum: Checksum, kind: Byte, prefix: string, id: Raw)
    requires (kind == NODE && prefix == SERVICE_PREFIX) || (kind == SERVICE && prefix == NODE_PREFIX)
    ensures ParseReference(sum, kind, PrintId(prefix, id)) == Err
  {
    var v := PrintId(prefix, id);
    PrintedText(id);
    assert IsPlain(prefix);
    PlainStays(v);
    NoDotNoSuffix(v);
    assert v[1] == prefix[1];
    var own := if kind == NODE then NODE_PREFIX else SERVICE_PREFIX;
    assert v[..3][1] != own[1];
  }

  lemma NoDotNoSuffix(v: string)
    requires '.' !in v
    ensures !HasSuffix(v, SUFFIX)
  {
    if |v| >= 5 {
      assert v[|v| - 5] in v;
      assert v[|v| - 5..][0] == v[|v| - 5];
    }
  }

  lemma IdReferenceRoundTrip(sum: Checksum, kind: Byte, prefix: string, id: Raw)
    requires (kind == NODE && prefix == NODE_PREFIX) || (kind == SERVICE && prefix == SERVICE_PREFIX)
    ensures ParseReference(sum, kind, PrintId(prefix, id)) == Ok(id)
  {
    PrintedIdIsPlain(prefix, id);
    PlainStays(PrintId(prefix, id));
    ReferenceIsId(sum, kind, prefix, PrintId(prefix, id));
    IdRoundTrip(prefix, id);
  }

  lemma PrintedIdIsPlain(prefix: string, id: Raw)
    requires prefix == NODE_PREFIX || prefix == SERVICE_PREFIX
    ensures IsPlain(PrintId(prefix, id)) && '.' !in PrintId(prefix, id)
  {
    PrintedText(id);
    assert forall c :: c in prefix ==> Plain(c) && c != '.';
    assert forall c :: c in Lower(Base32.Encode(id)) ==> Plain(c) && c != '.';
  }

  lemma ReferenceIsId(sum: Checksum, kind: Byte, prefix: string, v: string)
    requires (kind == NODE && prefix == NODE_PREFIX) || (kind == SERVICE && prefix == SERVICE_PREFIX)
    requires Trim(Lower(v)) == v && '.' !in v
    ensures ParseReference(sum, kind, v) == ParseId(prefix, v)
  {
    NoDotNoSuffix(v);
  }

  /** The first alias of a name decides, whatever follows it and whatever other names precede it. */
  lemma {:induction false} FirstAliasDecides(sum: Checksum, labels: seq<string>, host: string, before: seq<Alias>, a: Alias, after: seq<Alias>)
    requires 1 <= |labels| <= 2 && Lower(a.name) == labels[|labels| - 1]
    requires forall b :: b in before ==> Lower(b.name) != Lower(a.name)
    ensures ResolveAlias(sum, labels, host, before + [a] + after) == ResolveAlias(sum, labels, host, [a])
    decreases |before|
  {
    var all := before + [a] + after;
    if before == [] {
      assert all[0] == a;
    } else {
      assert before[0] in before && all[0] == before[0];
      assert all[1..] == before[1..] + [a] + after;
      FirstAliasDecides(sum, labels, host, before[1..], a, after);
    }
  }

  lemma AliasHost(sum: Checksum, service: string, name: string, typed: string, aliases: seq<Alias>)
    requires IsAliasName(name) && ParseLabel(sum, name).Err?
    requires '.' !in service && ':' !in service && Typed(typed, service + "." + (name + SUFFIX))
    ensures ResolveHost(sum, typed, aliases) == ResolveAlias(sum, [service, name], service + "." + (name + SUFFIX), aliases)
  {
    HostOfParts(sum, service, name, typed, aliases);
    SplitOne(service, '.');
    assert Split(service, '.') + [name] == [service, name];
  }

  lemma BareAliasHost(sum: Checksum, name: string, typed: string, aliases: seq<Alias>)
    requires IsAliasName(name) && ParseLabel(sum, name).Err? && Typed(typed, name + SUFFIX)
    ensures ResolveHost(sum, typed, aliases) == ResolveAlias(sum, [name], name + SUFFIX, aliases)
  {
    HostOfLabel(sum, name, typed, aliases);
  }

  /** The first alias of the name is `a`, and the name is not itself a printed label. */
  predicate Names(sum: Checksum, name: string, before: seq<Alias>, a: Alias) {
    && IsAliasName(name) && ParseLabel(sum, name).Err? && Lower(a.name) == name
    && forall b :: b in before ==> Lower(b.name) != name
  }

  predicate StandsForNode(sum: Checksum, a: Alias, id: Raw) {
    a.serviceId == "" && (a.node == Domain(sum, id) || a.node == PrintId(NODE_PREFIX, id))
  }

  predicate StandsForService(sum: Checksum, a: Alias, id: Raw) {
    a.serviceId == IdentityDomain(sum, id) || a.serviceId == PrintId(SERVICE_PREFIX, id)
  }

  /** An alias of a node, given as its domain or as its ID, resolves to that node: with a service in
      front to that service, bare to the default one. The service name must not contain a dot. */
  lemma AliasRoundTrip(sum: Checksum, service: string, name: string, id: Raw, before: seq<Alias>, a: Alias, after: seq<Alias>, typed: string)
    requires Names(sum, name, before, a) && StandsForNode(sum, a, id) && '.' !in service && ':' !in service
    ensures Typed(typed, service + "." + (name + SUFFIX)) ==>
              ResolveHost(sum, typed, before + [a] + after)
              == Ok(NodeService(id, NormalizeService(service), name, service + "." + (name + SUFFIX)))
    ensures Typed(typed, name + SUFFIX) ==>
              ResolveHost(sum, typed, before + [a] + after) == Ok(NodeService(id, DEFAULT_SERVICE, name, name + SUFFIX))
  {
    if Typed(typed, service + "." + (name + SUFFIX)) {
      var host := service + "." + (name + SUFFIX);
      AliasHost(sum, service, name, typed, before + [a] + after);
      FirstAliasDecides(sum, [service, name], host, before, a, after);
      NodeAliasResolves(sum, [service, name], id, a, host);
    }
    if Typed(typed, name + SUFFIX) {
      BareAliasHost(sum, name, typed, before + [a] + after);
      FirstAliasDecides(sum, [name], name + SUFFIX, before, a, after);
      NodeAliasResolves(sum, [name], id, a, name + SUFFIX);
    }
  }

  lemma NodeAliasResolves(sum: Checksum, labels: seq<string>, id: Raw, a: Alias, host: string)
    requires 1 <= |labels| <= 2 && Lower(a.name) == labels[|labels| - 1] && StandsForNode(sum, a, id)
    ensures ResolveAlias(sum, labels, host, [a])
         == Ok(NodeService(id, if |labels| > 1 then NormalizeService(labels[0]) else DEFAULT_SERVICE, labels[|labels| - 1], host))
  {
    ReferenceRoundTrip(sum, NODE, id);
  }

  /** An alias of a service identity resolves to that identity when it stands alone, and to nothing
      with a service in front. */
  lemma ServiceAliasRoundTrip(sum: Checksum, service: string, name: string, id: Raw, before: seq<Alias>, a: Alias, after: seq<Alias>, typed: string)
    requires Names(sum, name, before, a) && StandsForService(sum, a, id) && '.' !in service && ':' !in service
    ensures Typed(typed, name + SUFFIX) ==>
              ResolveHost(sum, typed, before + [a] + after) == Ok(ServiceIdentity(id, name, name + SUFFIX))
    ensures Typed(typed, service + "." + (name + SUFFIX)) ==> ResolveHost(sum, typed, before + [a] + after) == Err
  {
    ReferenceRoundTrip(sum, SERVICE, id);
    if Typed(typed, name + SUFFIX) {
      BareAliasHost(sum, name, typed, before + [a] + after);
      FirstAliasDecides(sum, [name], name + SUFFIX, before, a, after);
    }
    if Typed(typed, service + "." + (name + SUFFIX)) {
      AliasHost(sum, service, name, typed, before + [a] + after);
      FirstAliasDecides(sum, [service, name], service + "." + (name + SUFFIX), before, a, after);
    }
  }

  /** Without an alias of that name, and not being a printed label, a name stands for nothing. */
  lemma {:induction false} UnknownNameFails(sum: Checksum, labels: seq<string>, host: string, aliases: seq<Alias>)
    requires 1 <= |labels| <= 2 && forall b :: b in aliases ==> Lower(b.name) != labels[|labels| - 1]
    ensures ResolveAlias(sum, labels, host, aliases) == Err
    decreases |aliases|
  {
    if aliases != [] {
      assert aliases[0] in aliases;
      UnknownNameFails(sum, labels, host, aliases[1..]);
    }
  }

  // ---------------------------------------------------------------- what resolves at all

  /** `x` is what the last label stands for, with the labels in front as the service. */
  ghost predicate CanonicalFor(sum: Checksum, labels: seq<string>, host: string, x: Resolved)
    requires |labels| >= 1
  {
    var last := labels[|labels| - 1];
    && x.alias == "" && x.host == host
    && match x
       case ServiceIdentity(id, _, _) => |labels| == 1 && ParseLabel(sum, last) == Ok(Service(id))
       case NodeService(id, service, _, _) =>
         && ParseLabel(sum, last) == Ok(Node(id)) && IsServiceName(service)
         && service == (if |labels| == 1 then "http" else NormalizeService(Join(labels[..|labels| - 1], '.')))
  }

  /** Some alias of the last label stands for `x`; the service in front is one label at most. */
  ghost predicate AliasFor(sum: Checksum, labels: seq<string>, host: string, aliases: seq<Alias>, x: Resolved)
    requires |labels| >= 1
  {
    var last := labels[|labels| - 1];
    && |labels| <= 2 && IsAliasName(last) && ParseLabel(sum, last).Err? && x.alias == last && x.host == host
    && exists a :: a in aliases && Lower(a.name) == last &&
         match x
         case ServiceIdentity(id, _, _) => |labels| == 1 && a.serviceId != "" && ParseReference(sum, SERVICE, a.serviceId) == Ok(id)
         case NodeService(id, service, _, _) =>
           && a.serviceId == "" && ParseReference(sum, NODE, a.node) == Ok(id)
           && service == if |labels| == 1 then "http" else NormalizeService(labels[0])
  }

  lemma {:induction false} AliasResolvesTo(sum: Checksum, labels: seq<string>, host: string, aliases: seq<Alias>, x: Resolved)
    requires 1 <= |labels| <= 2 && ResolveAlias(sum, labels, host, aliases) == Ok(x)
    requires IsAliasName(labels[|labels| - 1]) && ParseLabel(sum, labels[|labels| - 1]).Err?
    ensures AliasFor(sum, labels, host, aliases, x)
    decreases |aliases|
  {
    assert aliases[0] in aliases;
    if Lower(aliases[0].name) != labels[|labels| - 1] {
      AliasResolvesTo(sum, labels, host, aliases[1..], x);
      assert forall a :: a in aliases[1..] ==> a in aliases;
    }
  }

  lemma LabelsResolveTo(sum: Checksum, labels: seq<string>, host: string, aliases: seq<Alias>, x: Resolved)
    requires |labels| >= 1 && ResolveLabels(sum, labels, host, aliases) == Ok(x)
    ensures CanonicalFor(sum, labels, host, x) || AliasFor(sum, labels, host, aliases, x)
  {
    match ParseLabel(sum, labels[|labels| - 1])
    case Err => AliasResolvesTo(sum, labels, host, aliases, x);
    case Ok(Service(_)) =>
    case Ok(Node(_)) =>
  }

  lemma ResolvedHost(sum: Checksum, typed: string, host: string, aliases: seq<Alias>, x: Resolved)
    requires ResolveHost(sum, typed, aliases) == Ok(x) && host == TrimSuffix(Trim(Lower(typed)), ".")
    ensures ':' !in host && HasSuffix(host, ".knot")
    ensures var labels := Split(TrimSuffix(host, ".knot"), '.');
            labels[|labels| - 1] != "" && ResolveLabels(sum, labels, host, aliases) == Ok(x)
  {
  }

  /** Nothing resolves but a host under `.knot` without a port, and that only to what its last label
      or an alias of it stands for. */
  lemma ResolvesOnlyWhatItNames(sum: Checksum, typed: string, host: string, aliases: seq<Alias>, x: Resolved)
    requires ResolveHost(sum, typed, aliases) == Ok(x) && host == TrimSuffix(Trim(Lower(typed)), ".")
    ensures ':' !in host && HasSuffix(host, ".knot")
    ensures var labels := Split(TrimSuffix(host, ".knot"), '.');
            && labels[|labels| - 1] != ""
            && (CanonicalFor(sum, labels, host, x) || AliasFor(sum, labels, host, aliases, x))
  {
    ResolvedHost(sum, typed, host, aliases, x);
    LabelsResolveTo(sum, Split(TrimSuffix(host, ".knot"), '.'), host, aliases, x);
  }
}
