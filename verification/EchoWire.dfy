/**
 The length-prefixed message format of the TCP example: headers, payload and error text, each preceded by
 a little-endian 32-bit length. Reading past the end is not reported: a short read leaves zeros.
 */
module EchoWire {
  import opened Base

  type Byte = x: int | 0 <= x < 256
  type Bytes = seq<Byte>

  /** An error is the text that is written or read; the value made from a text that was read, which may print
      differently, is not part of this model. */
  datatype Data = Data(headers: map<Bytes, Bytes>, data: Bytes, err: Option<Bytes>)

  function EncodeInt32(v: int): Bytes {
    var u := ToU32(v);
    [u % 256, u / 256 % 256, u / 65536 % 256, u / 16777216]
  }

  function DecodeInt32(b: Bytes): int
    requires |b| == 4
  {
    var b0: int, b1: int, b2: int, b3: int := b[0], b[1], b[2], b[3];
    ToInt32(b0 + 256 * b1 + 65536 * b2 + 16777216 * b3)
  }

  function EncodeText(text: Bytes): Bytes {
    EncodeInt32(ToInt32(|text|)) + text
  }

  /** The headers in the order the map happens to be visited in. */
  function EncodeHeaders(headers: map<Bytes, Bytes>, order: seq<Bytes>): Bytes
    requires forall k :: k in order ==> k in headers
  {
    if order == [] then []
    else EncodeText(order[0]) + EncodeText(headers[order[0]]) + EncodeHeaders(headers, order[1..])
  }

  ghost predicate VisitOrder(headers: map<Bytes, Bytes>, order: seq<Bytes>) {
    Distinct(order) && forall k :: k in order <==> k in headers
  }

  function EncodeErr(err: Option<Bytes>): Bytes {
    match err
    case Some(text) => EncodeText(text)
    case None => EncodeInt32(0)
  }

  function Encode(d: Data, order: seq<Bytes>): Bytes
    requires forall k :: k in order ==> k in d.headers
  {
    EncodeInt32(ToInt32(|d.headers|)) + EncodeHeaders(d.headers, order) + EncodeText(d.data) + EncodeErr(d.err)
  }

  lemma OneMoreHeader(headers: map<Bytes, Bytes>, order: seq<Bytes>, i: nat, before: Bytes)
    requires i < |order| && forall k :: k in order ==> k in headers
    ensures before + EncodeHeaders(headers, order[i..])
         == before + EncodeText(order[i]) + EncodeText(headers[order[i]]) + EncodeHeaders(headers, order[i + 1..])
  {
    assert order[i..][0] == order[i] && order[i..][1..] == order[i + 1..];
    var key, value, rest := EncodeText(order[i]), EncodeText(headers[order[i]]), EncodeHeaders(headers, order[i + 1..]);
    assert before + (key + value + rest) == before + key + value + rest;
  }

  method WriteText(buf: Bytes, text: Bytes) returns (longer: Bytes)
    ensures longer == buf + EncodeText(text)
  {
    longer := buf + EncodeInt32(ToInt32(|text|));
    longer := longer + text;
  }

  method WriteHeaders(headers: map<Bytes, Bytes>, order: seq<Bytes>, start: Bytes) returns (buf: Bytes)
    requires VisitOrder(headers, order)
    ensures buf == start + EncodeHeaders(headers, order)
  {
    buf := start;
    for i := 0 to |order|
      invariant buf + EncodeHeaders(headers, order[i..]) == start + EncodeHeaders(headers, order)
    {
      OneMoreHeader(headers, order, i, buf);
      buf := WriteText(buf, order[i]);
      buf := WriteText(buf, headers[order[i]]);
    }
    assert order[|order|..] == [];
  }

  method Marshal(d: Data, order: seq<Bytes>) returns (buf: Bytes)
    requires VisitOrder(d.headers, order)
    ensures buf == Encode(d, order)
  {
    buf := WriteHeaders(d.headers, order, EncodeInt32(ToInt32(|d.headers|)));
    buf := WriteText(buf, d.data);
    if d.err.Some? {
      buf := WriteText(buf, d.err.value);
    } else {
      buf := buf + EncodeInt32(0);
    }
  }

  // ---------- reading ----------

  /** `binary.Read` of an `int32` that started as zero: its value, and what is left to read. */
  function ReadInt32(r: Bytes): (int, Bytes) {
    if |r| >= 4 then (DecodeInt32(r[..4]), r[4..]) else (0, [])
  }

  function Zeros(n: nat): Bytes {
    seq(n, _ => 0)
  }

  /** `Read` into a buffer of `n` zeros. */
  function ReadBytes(r: Bytes, n: nat): (Bytes, Bytes) {
    if n <= |r| then (r[..n], r[n..]) else (r + Zeros(n - |r|), [])
  }

  /** A length, then as many bytes; nothing when the length is negative and the buffer cannot be made. */
  function ReadText(r: Bytes): Option<(Bytes, Bytes)> {
    var (n, rest) := ReadInt32(r);
    if n < 0 then None else Some(ReadBytes(rest, n))
  }

  function ReadHeaders(r: Bytes, count: nat, headers: map<Bytes, Bytes>): Option<(map<Bytes, Bytes>, Bytes)>
    decreases count
  {
    if count == 0 then Some((headers, r))
    else
      match ReadText(r)
      case None => None
      case Some((key, r1)) =>
        match ReadText(r1)
        case None => None
        case Some((value, r2)) => ReadHeaders(r2, count - 1, headers[key := value])
  }

  /** The last part of decoding: the error's text, if its length is positive, and what is left unread. */
  function ReadErr(r: Bytes): (Option<Bytes>, Bytes) {
    var (errLen, rest) := ReadInt32(r);
    if errLen > 0 then
      var (text, rest) := ReadBytes(rest, errLen);
      (Some(text), rest)
    else (None, rest)
  }

  /** The decoded message and the bytes left unread; nothing when decoding panics. */
  function Decode(b: Bytes): Option<(Data, Bytes)> {
    var (count, r) := ReadInt32(b);
    match ReadHeaders(r, if count < 0 then 0 else count, map[])
    case None => None
    case Some((headers, r1)) =>
      match ReadText(r1)
      case None => None
      case Some((data, r2)) =>
        var (err, r3) := ReadErr(r2);
        Some((Data(headers, data, err), r3))
  }

  method UnmarshalData(b: Bytes) returns (d: Option<Data>)
    ensures d == match Decode(b) { case None => None case Some(result) => Some(result.0) }
  {
    var headers: map<Bytes, Bytes> := map[];
    var (count, r) := ReadInt32(b);
    var i := 0;
    ghost var all := ReadHeaders(r, if count < 0 then 0 else count, headers);
    while i < count
      invariant 0 <= i && (i <= count || i == 0)
      invariant ReadHeaders(r, if count < i then 0 else count - i, headers) == all
    {
      var (keyLen, r1) := ReadInt32(r);
      if keyLen < 0 {
        return None;
      }
      var (key, r2) := ReadBytes(r1, keyLen);
      var (valueLen, r3) := ReadInt32(r2);
      if valueLen < 0 {
        return None;
      }
      var (value, r4) := ReadBytes(r3, valueLen);
      headers, r, i := headers[key := value], r4, i + 1;
    }
    var (dataLen, r1) := ReadInt32(r);
    if dataLen < 0 {
      return None;
    }
    var (data, r2) := ReadBytes(r1, dataLen);
    var (errLen, r3) := ReadInt32(r2);
    if errLen > 0 {
      var (text, _) := ReadBytes(r3, errLen);
      return Some(Data(headers, data, Some(text)));
    }
    d := Some(Data(headers, data, None));
  }

  // ---------- the round trip ----------

  lemma BytesOfU32(u: U32)
    ensures u % 256 + 256 * (u / 256 % 256) + 65536 * (u / 65536 % 256) + 16777216 * (u / 16777216) == u
  {
    var high := u / 256;
    assert u == u % 256 + 256 * high;
    var higher := high / 256;
    assert high == high % 256 + 256 * higher && higher == u / 65536;
    assert higher == higher % 256 + 256 * (higher / 256) && higher / 256 == u / 16777216;
  }

  lemma Int32RoundTrip(v: int)
    requires -TWO_TO_THE_31 <= v < TWO_TO_THE_31
    ensures DecodeInt32(EncodeInt32(v)) == v
  {
    BytesOfU32(ToU32(v));
    SignRoundTrip(v);
  }

  lemma ReadWrittenInt32(v: int, rest: Bytes)
    requires -TWO_TO_THE_31 <= v < TWO_TO_THE_31
    ensures ReadInt32(EncodeInt32(v) + rest) == (v, rest)
  {
    Int32RoundTrip(v);
    var e := EncodeInt32(v);
    assert (e + rest)[..4] == e && (e + rest)[4..] == rest;
  }

  predicate Short(text: Bytes) {
    |text| < TWO_TO_THE_31
  }

  lemma ShortLength(text: Bytes)
    requires Short(text)
    ensures EncodeText(text) == EncodeInt32(|text|) + text
  {
    assert ToInt32(|text|) == |text|;
  }

  lemma TextFromParts(r: Bytes, text: Bytes, rest: Bytes)
    requires ReadInt32(r) == (|text|, text + rest)
    ensures ReadText(r) == Some((text, rest))
  {
    assert (text + rest)[..|text|] == text && (text + rest)[|text|..] == rest;
  }

  lemma Regroup(a: Bytes, b: Bytes, c: Bytes)
    ensures a + b + c == a + (b + c)
  {
  }

  lemma ReadWrittenText(text: Bytes, rest: Bytes)
    requires Short(text)
    ensures ReadText(EncodeText(text) + rest) == Some((text, rest))
  {
    ShortLength(text);
    Regroup(EncodeInt32(|text|), text, rest);
    ReadWrittenInt32(|text|, text + rest);
    TextFromParts(EncodeText(text) + rest, text, rest);
  }

  lemma ReadWrittenHeader(key: Bytes, value: Bytes, others: Bytes, rest: Bytes, count: nat, seen: map<Bytes, Bytes>)
    requires Short(key) && Short(value)
    ensures ReadHeaders(EncodeText(key) + EncodeText(value) + others + rest, count + 1, seen)
         == ReadHeaders(others + rest, count, seen[key := value])
  {
    var tail := others + rest;
    Regroup(EncodeText(key) + EncodeText(value), others, rest);
    Regroup(EncodeText(key), EncodeText(value), tail);
    ReadWrittenText(key, EncodeText(value) + tail);
    ReadWrittenText(value, tail);
  }

  /** The headers named in `order`. */
  function Restricted(headers: map<Bytes, Bytes>, order: seq<Bytes>): map<Bytes, Bytes>
    requires forall k :: k in order ==> k in headers
  {
    map k | k in order :: headers[k]
  }

  lemma OneMoreRestricted(headers: map<Bytes, Bytes>, order: seq<Bytes>, seen: map<Bytes, Bytes>)
    requires order != [] && forall k :: k in order ==> k in headers
    ensures seen[order[0] := headers[order[0]]] + Restricted(headers, order[1..]) == seen + Restricted(headers, order)
  {
  }

  ghost predicate ShortHeaders(headers: map<Bytes, Bytes>, order: seq<Bytes>) {
    forall k :: k in order ==> k in headers && Short(k) && Short(headers[k])
  }

  lemma {:induction false} ReadWrittenHeaders(headers: map<Bytes, Bytes>, order: seq<Bytes>, seen: map<Bytes, Bytes>, rest: Bytes)
    requires ShortHeaders(headers, order)
    ensures ReadHeaders(EncodeHeaders(headers, order) + rest, |order|, seen) == Some((seen + Restricted(headers, order), rest))
  {
    if order == [] {
      assert [] + rest == rest && seen + Restricted(headers, order) == seen;
    } else {
      var key, value := order[0], headers[order[0]];
      ReadWrittenHeader(key, value, EncodeHeaders(headers, order[1..]), rest, |order| - 1, seen);
      ReadWrittenHeaders(headers, order[1..], seen[key := value], rest);
      OneMoreRestricted(headers, order, seen);
    }
  }

  /** Every length and the header count fit in an `int32`. */
  predicate Fits(d: Data) {
    && |d.headers| < TWO_TO_THE_31
    && (forall k :: k in d.headers ==> Short(k) && Short(d.headers[k]))
    && Short(d.data)
    && (d.err.Some? ==> Short(d.err.value))
  }

  lemma OrderLength(headers: map<Bytes, Bytes>, order: seq<Bytes>)
    requires VisitOrder(headers, order)
    ensures |order| == |headers|
  {
    SizeOfDistinct(order);
    assert SetOf(order) == headers.Keys;
  }

  lemma ErrFromParts(r: Bytes, text: Bytes)
    requires ReadInt32(r) == (|text|, text)
    ensures ReadErr(r) == (if text == [] then None else Some(text), [])
  {
    assert text[..|text|] == text && text[|text|..] == [];
  }

  lemma ErrAsText(err: Option<Bytes>) returns (text: Bytes)
    requires err != Some([]) && (err.Some? ==> Short(err.value))
    ensures Short(text) && err == (if text == [] then None else Some(text))
    ensures EncodeErr(err) == EncodeInt32(|text|) + text
  {
    match err
    case None =>
      text := [];
      assert EncodeInt32(0) + [] == EncodeInt32(0);
    case Some(t) =>
      text := t;
      ShortLength(t);
  }

  lemma ReadWrittenErr(err: Option<Bytes>)
    requires err != Some([]) && (err.Some? ==> Short(err.value))
    ensures ReadErr(EncodeErr(err)) == (err, [])
  {
    var text := ErrAsText(err);
    ReadWrittenInt32(|text|, text);
    ErrFromParts(EncodeErr(err), text);
  }

  /** Decoding, given what each of its reads returns. */
  lemma DecodeFromParts(b: Bytes, r: Bytes, afterHeaders: Bytes, afterData: Bytes, d: Data)
    requires ReadInt32(b) == (|d.headers|, r)
    requires ReadHeaders(r, |d.headers|, map[]) == Some((d.headers, afterHeaders))
    requires ReadText(afterHeaders) == Some((d.data, afterData))
    requires ReadErr(afterData) == (d.err, [])
    ensures Decode(b) == Some((d, []))
  {
  }

  lemma EncodedParts(d: Data, order: seq<Bytes>)
    requires VisitOrder(d.headers, order) && |d.headers| < TWO_TO_THE_31
    ensures Encode(d, order) == EncodeInt32(|d.headers|) + (EncodeHeaders(d.headers, order) + (EncodeText(d.data) + EncodeErr(d.err)))
  {
    assert ToInt32(|d.headers|) == |d.headers|;
    var count, headers, data, err := EncodeInt32(|d.headers|), EncodeHeaders(d.headers, order), EncodeText(d.data), EncodeErr(d.err);
    assert count + headers + data + err == count + (headers + (data + err));
  }

  lemma FittingRoundTrip(d: Data, order: seq<Bytes>)
    requires VisitOrder(d.headers, order) && Fits(d) && d.err != Some([])
    ensures Decode(Encode(d, order)) == Some((d, []))
  {
    var tail := EncodeText(d.data) + EncodeErr(d.err);
    EncodedParts(d, order);
    OrderLength(d.headers, order);
    ReadWrittenInt32(|d.headers|, EncodeHeaders(d.headers, order) + tail);
    ReadWrittenHeaders(d.headers, order, map[], tail);
    assert map[] + Restricted(d.headers, order) == d.headers;
    ReadWrittenText(d.data, EncodeErr(d.err));
    ReadWrittenErr(d.err);
    DecodeFromParts(Encode(d, order), EncodeHeaders(d.headers, order) + tail, tail, EncodeErr(d.err), d);
  }

  lemma ReadTextIsShort(r: Bytes)
    requires ReadText(r).Some?
    ensures Short(ReadText(r).value.0)
  {
  }

  lemma {:induction false} ReadHeadersFit(r: Bytes, count: nat, seen: map<Bytes, Bytes>)
    requires ReadHeaders(r, count, seen).Some?
    requires forall k :: k in seen ==> Short(k) && Short(seen[k])
    ensures var headers := ReadHeaders(r, count, seen).value.0;
            |headers| <= |seen| + count && forall k :: k in headers ==> Short(k) && Short(headers[k])
    decreases count
  {
    if count > 0 {
      var (key, r1) := ReadText(r).value;
      var (value, r2) := ReadText(r1).value;
      ReadTextIsShort(r);
      ReadTextIsShort(r1);
      ReadHeadersFit(r2, count - 1, seen[key := value]);
    }
  }

  /** Whatever is decoded from any bytes would itself survive the round trip. */
  lemma DecodedFits(b: Bytes)
    requires Decode(b).Some?
    ensures Fits(Decode(b).value.0) && Decode(b).value.0.err != Some([])
  {
    var (count, r) := ReadInt32(b);
    var n := if count < 0 then 0 else count;
    ReadHeadersFit(r, n, map[]);
    ReadTextIsShort(ReadHeaders(r, n, map[]).value.1);
  }

  /** A message comes back unchanged, in whatever order its headers are written, exactly when all
      lengths and the header count fit in 32 bits and the error, if there is one, prints something. */
  lemma RoundTripIff(d: Data, order: seq<Bytes>)
    requires VisitOrder(d.headers, order)
    ensures (exists rest :: Decode(Encode(d, order)) == Some((d, rest))) <==> Fits(d) && d.err != Some([])
    ensures Fits(d) && d.err != Some([]) ==> Decode(Encode(d, order)) == Some((d, []))
  {
    if Fits(d) && d.err != Some([]) {
      FittingRoundTrip(d, order);
    } else if Decode(Encode(d, order)).Some? {
      DecodedFits(Encode(d, order));
    }
  }

  // ---------- the bytes themselves ----------

  /** A number is written with its low byte first. */
  lemma LittleEndian(v: int)
    ensures var e := EncodeInt32(v);
            && |e| == 4
            && (e[0] as int) + 256 * (e[1] as int) + 65536 * (e[2] as int) + 16777216 * (e[3] as int) == v % 0x1_0000_0000
  {
    BytesOfU32(ToU32(v));
  }

  /** A number is read likewise, with the highest bit for its sign; fewer than four bytes read as zero, and are
      all consumed. */
  lemma ReadInt32Is(r: Bytes)
    ensures |r| < 4 ==> ReadInt32(r) == (0, [])
    ensures |r| >= 4 ==>
              var u := (r[0] as int) + 256 * (r[1] as int) + 65536 * (r[2] as int) + 16777216 * (r[3] as int);
              ReadInt32(r) == (if u < 0x8000_0000 then u else u - 0x1_0000_0000, r[4..])
  {
    if |r| >= 4 {
      var u := (r[0] as int) + 256 * (r[1] as int) + 65536 * (r[2] as int) + 16777216 * (r[3] as int);
      SignOf(u);
    }
  }

  lemma SignOf(u: U32)
    ensures ToInt32(u) == if u < 0x8000_0000 then u else u - 0x1_0000_0000
  {
  }

  /** What is missing of a text reads as zeros. */
  lemma ReadBytesIs(r: Bytes, n: nat)
    ensures var (text, rest) := ReadBytes(r, n);
            && |text| == n && (forall i :: 0 <= i < n ==> text[i] == if i < |r| then r[i] else 0)
            && rest == if n <= |r| then r[n..] else []
  {
  }

  /** Reading a text panics exactly when its length is there and negative. */
  lemma ReadTextPanicsIff(r: Bytes)
    ensures ReadText(r).None? <==> |r| >= 4 && r[3] >= 128
  {
    ReadInt32Is(r);
  }

  /** Headers that are missing altogether are read as one header with an empty name. */
  lemma {:induction false} MissingHeaders(count: nat, seen: map<Bytes, Bytes>)
    ensures ReadHeaders([], count, seen) == Some((if count == 0 then seen else seen[[] := []], []))
    decreases count
  {
    if count > 0 {
      MissingHeaders(count - 1, seen[[] := []]);
      assert seen[[] := []][[] := []] == seen[[] := []];
    }
  }

  /** A message cut off after its header count still decodes. */
  lemma CutOffAfterCount(count: int)
    requires -TWO_TO_THE_31 <= count < TWO_TO_THE_31
    ensures Decode(EncodeInt32(count)) == Some((Data(if count > 0 then map[[] := []] else map[], [], None), []))
  {
    ReadWrittenInt32(count, []);
    assert EncodeInt32(count) + [] == EncodeInt32(count);
    CutOff(EncodeInt32(count), count);
  }

  lemma CutOff(b: Bytes, count: int)
    requires ReadInt32(b) == (count, [])
    ensures Decode(b) == Some((Data(if count > 0 then map[[] := []] else map[], [], None), []))
  {
    MissingHeaders(if count < 0 then 0 else count, map[]);
  }
}
