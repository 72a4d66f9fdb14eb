/** Endpoints, their text form, and the migration message built from it. */
module Endpoints {
  import opened Base
  import opened Text

  datatype Endpoint = Endpoint(ip: string, pod: string, port: U32)

  /** The identity of a custom route: a selector and the header value it is keyed on. */
  datatype Key = Key(selector: string, header: string)

  /** `EqualEndpoints`: nil equals only nil, and the pod is not compared. */
  predicate EqualEndpoints(a: Option<Endpoint>, b: Option<Endpoint>) {
    match (a, b)
    case (None, None) => true
    case (Some(x), Some(y)) => x.ip == y.ip && x.port == y.port
    case _ => false
  }

  /** `Endpoint.String`. */
  function ToText(e: Endpoint): string {
    e.ip + ['#'] + (e.pod + ['#'] + Itoa(e.port))
  }

  /** `EndpointFromString`: nil unless there are three fields and the last is an integer,
      which is then cut down to 32 bits. */
  function FromText(s: string): Option<Endpoint> {
    var parts := Split(s, '#');
    if |parts| != 3 then None
    else
      match Atoi(parts[2])
      case None => None
      case Some(port) => Some(Endpoint(parts[0], parts[1], ToU32(port)))
  }

  predicate Plain(e: Endpoint) {
    '#' !in e.ip && '#' !in e.pod
  }

  lemma ToTextIsJoin(e: Endpoint)
    ensures ToText(e) == Join([e.ip, e.pod, Itoa(e.port)], '#')
    ensures '#' !in Itoa(e.port) && ' ' !in Itoa(e.port)
  {
    var parts := [e.ip, e.pod, Itoa(e.port)];
    var tail := [e.pod, Itoa(e.port)];
    assert parts[1..] == tail && tail[1..] == [Itoa(e.port)];
    assert Join(tail, '#') == e.pod + ['#'] + Itoa(e.port);
    assert e.ip + ['#'] + (e.pod + ['#'] + Itoa(e.port)) == e.ip + ['#'] + Join(tail, '#');
    DigitsOfItoa(e.port);
  }

  /** The text form survives parsing exactly when neither the address nor the pod contains '#';
      otherwise the text does not parse at all. */
  lemma TextRoundTrip(e: Endpoint)
    ensures FromText(ToText(e)) == (if Plain(e) then Some(e) else None)
  {
    var parts := [e.ip, e.pod, Itoa(e.port)];
    ToTextIsJoin(e);
    SplitOfJoin(parts, '#');
    AtoiOfItoa(e.port);
    assert Plain(e) <==> forall p :: p in parts ==> '#' !in p by {
      assert e.ip in parts && e.pod in parts;
    }
  }

  /** Whatever parses is plain, so its text form is a stable canonical form. */
  lemma ParsedIsCanonical(s: string)
    requires FromText(s).Some?
    ensures Plain(FromText(s).value)
    ensures FromText(ToText(FromText(s).value)) == FromText(s)
  {
    JoinOfSplit(s, '#');
    var parts := Split(s, '#');
    assert parts[0] in parts && parts[1] in parts;
    TextRoundTrip(FromText(s).value);
  }

  lemma ToTextInjective(a: Endpoint, b: Endpoint)
    requires Plain(a) && Plain(b) && ToText(a) == ToText(b)
    ensures a == b
  {
    TextRoundTrip(a);
    TextRoundTrip(b);
  }

  /** The text is the address, the pod and the port in decimal, in this order, with `#` between them. */
  lemma ToTextIs(e: Endpoint)
    ensures ToText(e) == e.ip + "#" + e.pod + "#" + Itoa(e.port)
  {
  }

  /** Three fields with a number for the port are read in the same order; the port is taken modulo 2^32, and one
      that does not fit in 64 bits is refused. */
  lemma FromFields(ip: string, pod: string, n: nat)
    requires '#' !in ip && '#' !in pod
    ensures FromText(ip + "#" + pod + "#" + Itoa(n)) ==
            if n < 0x8000_0000_0000_0000 then Some(Endpoint(ip, pod, n % 0x1_0000_0000)) else None
    ensures FromText(ip + "#" + pod + "#" + "-" + Itoa(n)) ==
            if n <= 0x8000_0000_0000_0000 then Some(Endpoint(ip, pod, (0 - n) % 0x1_0000_0000)) else None
  {
    DigitsOfItoa(n);
    AtoiOfSigned(n);
    ThreeFields(ip, pod, Itoa(n));
    ThreeFields(ip, pod, "-" + Itoa(n));
    assert ip + "#" + pod + "#" + "-" + Itoa(n) == ip + "#" + pod + "#" + ("-" + Itoa(n));
  }

  lemma ThreeFields(a: string, b: string, c: string)
    requires '#' !in a && '#' !in b && '#' !in c
    ensures Split(a + "#" + b + "#" + c, '#') == [a, b, c]
  {
    SplitWithoutSeparator(c, '#');
    SplitAtSeparator(b, c, '#');
    SplitAtSeparator(a, b + ['#'] + c, '#');
    assert a + "#" + b + "#" + c == a + ['#'] + (b + ['#'] + c);
  }

  /** Two endpoints are taken for equal exactly when address and port are, whatever the pods. */
  lemma EqualIff(a: Endpoint, b: Endpoint)
    ensures EqualEndpoints(Some(a), Some(b)) <==> a.(pod := "") == b.(pod := "")
    ensures !EqualEndpoints(None, Some(a)) && !EqualEndpoints(Some(a), None) && EqualEndpoints(None, None)
  {
  }

  // ---------- the migration message ----------

  datatype Migration = Migration(key: Key, from: Option<Endpoint>, to: Option<Endpoint>)

  /** `NotifyMigration`: the four fields, separated by single spaces. */
  function MigrationText(key: Key, from: Endpoint, to: Endpoint): string {
    key.selector + [' '] + (key.header + [' '] + (ToText(from) + [' '] + ToText(to)))
  }

  /** `RegisterMigrationListener`: a message without exactly four fields is dropped. */
  function ParseMigration(payload: string): Option<Migration> {
    var parts := Split(payload, ' ');
    if |parts| != 4 then None
    else Some(Migration(Key(parts[0], parts[1]), FromText(parts[2]), FromText(parts[3])))
  }

  predicate SpaceFreeKey(key: Key) {
    ' ' !in key.selector && ' ' !in key.header
  }

  predicate SpaceFree(e: Endpoint) {
    ' ' !in e.ip && ' ' !in e.pod
  }

  lemma SpacesOfText(e: Endpoint)
    ensures ' ' !in ToText(e) <==> SpaceFree(e)
  {
    ToTextIsJoin(e);
    var t := ToText(e);
    assert forall i :: 0 <= i < |e.ip| ==> t[i] == e.ip[i];
    assert forall i :: 0 <= i < |e.pod| ==> t[|e.ip| + 1 + i] == e.pod[i];
  }

  /** A published migration is dropped exactly when one of its fields contains a space; otherwise
      the listener sees the same key, and the same endpoints as far as those parse. */
  lemma MigrationRoundTrip(key: Key, from: Endpoint, to: Endpoint)
    ensures ParseMigration(MigrationText(key, from, to)) ==
            if SpaceFreeKey(key) && SpaceFree(from) && SpaceFree(to)
            then Some(Migration(key, if Plain(from) then Some(from) else None, if Plain(to) then Some(to) else None))
            else None
  {
    var parts := [key.selector, key.header, ToText(from), ToText(to)];
    var three, two := [key.header, ToText(from), ToText(to)], [ToText(from), ToText(to)];
    assert parts[1..] == three && three[1..] == two && two[1..] == [ToText(to)];
    assert Join(two, ' ') == ToText(from) + [' '] + ToText(to);
    assert Join(three, ' ') == key.header + [' '] + Join(two, ' ');
    assert Join(parts, ' ') == MigrationText(key, from, to);
    SplitOfJoin(parts, ' ');
    SpacesOfText(from);
    SpacesOfText(to);
    TextRoundTrip(from);
    TextRoundTrip(to);
    assert (SpaceFreeKey(key) && SpaceFree(from) && SpaceFree(to)) <==> forall p :: p in parts ==> ' ' !in p by {
      assert parts[0] in parts && parts[1] in parts && parts[2] in parts && parts[3] in parts;
    }
  }

  /** The four fields are the selector, the header value, the old and the new endpoint, in this order. */
  lemma MigrationFields(selector: string, header: string, from: string, to: string)
    requires ' ' !in selector && ' ' !in header && ' ' !in from && ' ' !in to
    ensures ParseMigration(selector + " " + header + " " + from + " " + to) == Some(Migration(Key(selector, header), FromText(from), FromText(to)))
  {
    FourFields(selector, header, from, to);
  }

  lemma FourFields(a: string, b: string, c: string, d: string)
    requires ' ' !in a && ' ' !in b && ' ' !in c && ' ' !in d
    ensures Split(a + " " + b + " " + c + " " + d, ' ') == [a, b, c, d]
  {
    var cd := c + [' '] + d;
    var bcd := b + [' '] + cd;
    SplitWithoutSeparator(d, ' ');
    SplitAtSeparator(c, d, ' ');
    SplitAtSeparator(b, cd, ' ');
    SplitAtSeparator(a, bcd, ' ');
    assert a + " " + b + " " + c + " " + d == a + [' '] + bcd;
  }

  lemma MigrationTextIs(key: Key, from: Endpoint, to: Endpoint)
    ensures MigrationText(key, from, to) == key.selector + " " + key.header + " " + ToText(from) + " " + ToText(to)
  {
  }
}
