/** STUN messages with their type-length-value attributes (sections 5, 14 and 14.5 of
    RFC 8489), as the relay probe builds and reads them. */
module TurnCodec {
  import opened Prelude

  const MAGIC := 0x2112A442
  const ALLOCATE := 0x0003
  const MESSAGE_INTEGRITY := 0x0008

  // ----- Big-endian integers -----

  function Pack16(n: int): seq<Byte>
    requires 0 <= n < 0x10000
  {
    [n / 0x100, n % 0x100]
  }

  function Unpack16(s: seq<Byte>): int
    requires |s| == 2
  {
    (s[0] as int) * 0x100 + s[1] as int
  }

  function Pack32(n: int): seq<Byte>
    requires 0 <= n < 0x1_0000_0000
  {
    Pack16(n / 0x10000) + Pack16(n % 0x10000)
  }

  function Unpack32(s: seq<Byte>): int
    requires |s| == 4
  {
    Unpack16(s[..2]) * 0x10000 + Unpack16(s[2..])
  }

  lemma Unpack16Pack16(n: int)
    requires 0 <= n < 0x10000
    ensures Unpack16(Pack16(n)) == n
  {
  }

  lemma Unpack32Pack32(n: int)
    requires 0 <= n < 0x1_0000_0000
    ensures Unpack32(Pack32(n)) == n
  {
    Unpack16Pack16(n / 0x10000);
    Unpack16Pack16(n % 0x10000);
    assert Pack32(n)[..2] == Pack16(n / 0x10000) && Pack32(n)[2..] == Pack16(n % 0x10000);
  }

  // ----- Encoding -----

  datatype Attr = Attr(kind: int, data: seq<Byte>)

  function Padding(size: int): nat {
    (-size) % 4
  }

  function Zeros(n: nat): seq<Byte> {
    seq(n, _ => 0)
  }

  predicate Encodable(a: Attr) {
    0 <= a.kind < 0x10000 && |a.data| < 0x10000
  }

  /** `attribute`; kind or size outside 16 bits makes `struct.pack` raise. */
  function Attribute(a: Attr): Option<seq<Byte>> {
    if Encodable(a) then Some(Pack16(a.kind) + Pack16(|a.data|) + a.data + Zeros(Padding(|a.data|))) else None
  }

  function Attributes(attrs: seq<Attr>): Option<seq<Byte>> {
    if attrs == [] then Some([]) else
    var first :- Attribute(attrs[0]);
    var rest :- Attributes(attrs[1..]);
    Some(first + rest)
  }

  function Header(kind: int, length: int, transaction: seq<Byte>): Option<seq<Byte>> {
    if 0 <= kind < 0x10000 && 0 <= length < 0x10000 && |transaction| == 12
    then Some(Pack16(kind) + Pack16(length) + Pack32(MAGIC) + transaction) else None
  }

  /** `request`, given the transaction id and the keyed digest of the packet so far. */
  function Request(attributes: seq<Byte>, key: Option<seq<Byte>>, transaction: seq<Byte>,
                   digest: (seq<Byte>, seq<Byte>) -> seq<Byte>): Option<seq<Byte>>
  {
    var signed := key.Some? && key.value != [];
    var header :- Header(ALLOCATE, |attributes| + (if signed then 24 else 0), transaction);
    var packet := header + attributes;
    if !signed then Some(packet) else
    var integrity :- Attribute(Attr(MESSAGE_INTEGRITY, digest(key.value, packet)));
    Some(packet + integrity)
  }

  // ----- Decoding -----

  datatype Message = Message(kind: int, values: map<int, seq<Byte>>)

  /** `data[i:j]`, which Python clips at the end. */
  function Slice(data: seq<Byte>, i: nat, j: nat): seq<Byte>
    requires i <= j
  {
    data[if i < |data| then i else |data|..if j < |data| then j else |data|]
  }

  /** The attributes from `offset` on; None where fewer than four bytes of a header remain. */
  function ParseFrom(data: seq<Byte>, offset: nat, values: map<int, seq<Byte>>): Option<map<int, seq<Byte>>>
    decreases |data| - offset
  {
    if offset >= |data| then Some(values)
    else if offset + 4 > |data| then None
    else
      var field, size := Unpack16(data[offset..offset + 2]), Unpack16(data[offset + 2..offset + 4]);
      ParseFrom(data, offset + 4 + size + Padding(size), values[field := Slice(data, offset + 4, offset + 4 + size)])
  }

  function Parse(data: seq<Byte>, transaction: seq<Byte>): Option<Message> {
    if |data| < 20 || Unpack32(data[4..8]) != MAGIC || data[8..20] != transaction
       || |data| != Unpack16(data[2..4]) + 20 then None else
    var values :- ParseFrom(data, 20, map[]);
    Some(Message(Unpack16(data[..2]), values))
  }

  /** `response`: one pass over the packet. */
  method Response(data: seq<Byte>, transaction: seq<Byte>) returns (r: Option<Message>)
    ensures r == Parse(data, transaction)
  {
    if |data| < 20 {
      return None;
    }
    var kind, length := Unpack16(data[..2]), Unpack16(data[2..4]);
    if Unpack32(data[4..8]) != MAGIC || data[8..20] != transaction || |data| != length + 20 {
      return None;
    }
    var values: map<int, seq<Byte>> := map[];
    var offset := 20;
    while offset < |data|
      invariant 20 <= offset
      invariant ParseFrom(data, 20, map[]) == ParseFrom(data, offset, values)
      decreases |data| - offset
    {
      if offset + 4 > |data| {
        return None;
      }
      var field, size := Unpack16(data[offset..offset + 2]), Unpack16(data[offset + 2..offset + 4]);
      values := values[field := Slice(data, offset + 4, offset + 4 + size)];
      offset := offset + 4 + size + Padding(size);
    }
    return Some(Message(kind, values));
  }

  // ----- The bytes -----

  /** A header is the kind, the length and the magic cookie, most significant byte first, and
      the transaction. */
  lemma HeaderBytes(kind: int, length: int, transaction: seq<Byte>)
    ensures Header(kind, length, transaction).Some?
            <==> 0 <= kind < 65536 && 0 <= length < 65536 && |transaction| == 12
    ensures Header(kind, length, transaction).Some? ==>
              Header(kind, length, transaction).value
              == [kind / 256, kind % 256, length / 256, length % 256, 0x21, 0x12, 0xA4, 0x42] + transaction
  {
    if Header(kind, length, transaction).Some? {
      assert Pack32(MAGIC) == [0x21, 0x12, 0xA4, 0x42];
      var packed := Pack16(kind) + Pack16(length) + Pack32(MAGIC);
      assert packed == [kind / 256, kind % 256, length / 256, length % 256, 0x21, 0x12, 0xA4, 0x42];
    }
  }

  /** An attribute is its kind, its size and its data, and zeros up to the next multiple of four. */
  lemma AttributeBytes(a: Attr)
    ensures Attribute(a).Some? <==> 0 <= a.kind < 65536 && |a.data| < 65536
    ensures Attribute(a).Some? ==>
              Attribute(a).value
              == [a.kind / 256, a.kind % 256, |a.data| / 256, |a.data| % 256] + a.data
                 + match |a.data| % 4 { case 0 => [] case 1 => [0, 0, 0] case 2 => [0, 0] case _ => [0] }
  {
    if Encodable(a) {
      var n := |a.data|;
      assert Pack16(a.kind) + Pack16(n) == [a.kind / 256, a.kind % 256, n / 256, n % 256];
      assert Zeros(Padding(n)) == match n % 4 { case 0 => [] case 1 => [0, 0, 0] case 2 => [0, 0] case _ => [0] };
    }
  }

  /** A request asks for an allocation; a key, if it is not empty, signs everything before the
      integrity attribute, whose 24 bytes the declared length counts. */
  lemma RequestBytes(attributes: seq<Byte>, key: Option<seq<Byte>>, transaction: seq<Byte>,
                     digest: (seq<Byte>, seq<Byte>) -> seq<Byte>)
    requires |transaction| == 12 && forall k, p :: |digest(k, p)| == 20
    ensures var signed := key.Some? && key.value != [];
            var n := |attributes| + if signed then 24 else 0;
            && (Request(attributes, key, transaction, digest).Some? <==> n < 65536)
            && (n < 65536 ==>
                  var packet := [0, 3, n / 256, n % 256, 0x21, 0x12, 0xA4, 0x42] + transaction + attributes;
                  Request(attributes, key, transaction, digest).value
                  == if signed then packet + [0, 8, 0, 20] + digest(key.value, packet) else packet)
  {
    var signed := key.Some? && key.value != [];
    var n := |attributes| + if signed then 24 else 0;
    HeaderBytes(ALLOCATE, n, transaction);
    if n < 65536 && signed {
      var packet := [0, 3, n / 256, n % 256, 0x21, 0x12, 0xA4, 0x42] + transaction + attributes;
      var mac := digest(key.value, packet);
      AttributeBytes(Attr(MESSAGE_INTEGRITY, mac));
      assert [0, 8, 0, 20] + mac + [] == [0, 8, 0, 20] + mac;
      assert packet + ([0, 8, 0, 20] + mac) == packet + [0, 8, 0, 20] + mac;
    }
  }

  // ----- Round trip -----

  /** The decoded dictionary: a repeated kind keeps its last value. */
  function Collect(values: map<int, seq<Byte>>, attrs: seq<Attr>): map<int, seq<Byte>>
    decreases attrs
  {
    if attrs == [] then values else Collect(values[attrs[0].kind := attrs[0].data], attrs[1..])
  }

  lemma AttributeShape(a: Attr)
    requires Encodable(a)
    ensures var e := Attribute(a).value;
            && |e| == 4 + |a.data| + Padding(|a.data|) && |e| % 4 == 0
            && e[..2] == Pack16(a.kind) && e[2..4] == Pack16(|a.data|) && e[4..4 + |a.data|] == a.data
  {
  }

  lemma ParseOne(data: seq<Byte>, offset: nat, a: Attr, values: map<int, seq<Byte>>)
    requires Encodable(a) && offset <= |data| && Attribute(a).value <= data[offset..]
    ensures ParseFrom(data, offset, values)
            == ParseFrom(data, offset + |Attribute(a).value|, values[a.kind := a.data])
  {
    AttributeShape(a);
    var e, o := Attribute(a).value, offset;
    assert forall k | 0 <= k < |e| :: data[o..][k] == e[k];
    assert data[o..o + 2] == e[..2] && data[o + 2..o + 4] == e[2..4];
    assert data[o + 4..o + 4 + |a.data|] == e[4..4 + |a.data|];
    Unpack16Pack16(a.kind);
    Unpack16Pack16(|a.data|);
  }

  lemma {:induction false} ParseAll(data: seq<Byte>, offset: nat, attrs: seq<Attr>, values: map<int, seq<Byte>>)
    requires Attributes(attrs).Some? && offset <= |data| && data[offset..] == Attributes(attrs).value
    ensures ParseFrom(data, offset, values) == Some(Collect(values, attrs))
    decreases attrs
  {
    if attrs != [] {
      var e := Attribute(attrs[0]).value;
      ParseOne(data, offset, attrs[0], values);
      assert data[offset + |e|..] == data[offset..][|e|..];
      ParseAll(data, offset + |e|, attrs[1..], values[attrs[0].kind := attrs[0].data]);
    }
  }

  lemma HeaderFields(kind: int, length: int, transaction: seq<Byte>, body: seq<Byte>)
    requires Header(kind, length, transaction).Some?
    ensures var data := Header(kind, length, transaction).value + body;
            && |Header(kind, length, transaction).value| == 20
            && Unpack16(data[..2]) == kind && Unpack16(data[2..4]) == length
            && Unpack32(data[4..8]) == MAGIC && data[8..20] == transaction
  {
    var data := Header(kind, length, transaction).value + body;
    assert data[..2] == Pack16(kind) && data[2..4] == Pack16(length);
    assert data[4..8] == Pack32(MAGIC) && data[8..20] == transaction;
    Unpack16Pack16(kind);
    Unpack16Pack16(length);
    Unpack32Pack32(MAGIC);
  }

  /** Reading back any message whose attributes fit its 16-bit length gives exactly its kind
      and attributes, with the padding removed. */
  lemma RoundTrip(kind: int, attrs: seq<Attr>, transaction: seq<Byte>)
    requires Attributes(attrs).Some? && Header(kind, |Attributes(attrs).value|, transaction).Some?
    ensures var body := Attributes(attrs).value;
            Parse(Header(kind, |body|, transaction).value + body, transaction)
            == Some(Message(kind, Collect(map[], attrs)))
  {
    var body := Attributes(attrs).value;
    var header := Header(kind, |body|, transaction).value;
    HeaderFields(kind, |body|, transaction, body);
    assert (header + body)[20..] == body;
    ParseAll(header + body, 20, attrs, map[]);
  }

  lemma Pack16Unpack16(s: seq<Byte>)
    requires |s| == 2
    ensures 0 <= Unpack16(s) < 0x10000 && Pack16(Unpack16(s)) == s
  {
  }

  lemma Pack32Unpack32(s: seq<Byte>)
    requires |s| == 4
    ensures 0 <= Unpack32(s) < 0x1_0000_0000 && Pack32(Unpack32(s)) == s
  {
    Pack16Unpack16(s[..2]);
    Pack16Unpack16(s[2..]);
    assert s == s[..2] + s[2..];
  }

  // ----- What is accepted -----

  /** The size an attribute header declares. */
  function Declared(data: seq<Byte>, offset: nat): nat
    requires offset + 4 <= |data|
  {
    Unpack16(data[offset + 2..offset + 4])
  }

  /** Whether the attribute at that offset has all the bytes it declares. */
  predicate Whole(data: seq<Byte>, offset: nat)
    requires offset + 4 <= |data|
  {
    offset + 4 + Declared(data, offset) <= |data|
  }

  function NextOffset(data: seq<Byte>, offset: nat): nat
    requires offset + 4 <= |data|
  {
    offset + 4 + Declared(data, offset) + Padding(Declared(data, offset))
  }

  /** Attribute headers at these offsets, each where the size before it points, the last
      offset at or past the end. */
  predicate Chain(data: seq<Byte>, offsets: seq<nat>)
    decreases |offsets|
  {
    offsets != []
    && if |offsets| == 1 then offsets[0] >= |data|
       else offsets[0] + 4 <= |data| && offsets[1] == NextOffset(data, offsets[0]) && Chain(data, offsets[1..])
  }

  /** The attribute at an offset, its value clipped at the end of the packet. */
  function AttrAt(data: seq<Byte>, offset: nat): Attr
    requires offset + 4 <= |data|
  {
    Attr(Unpack16(data[offset..offset + 2]), Slice(data, offset + 4, offset + 4 + Declared(data, offset)))
  }

  function ChainAttrs(data: seq<Byte>, offsets: seq<nat>): seq<Attr>
    requires Chain(data, offsets)
    decreases |offsets|
  {
    if |offsets| == 1 then [] else [AttrAt(data, offsets[0])] + ChainAttrs(data, offsets[1..])
  }

  /** A chain is what the parser walks. */
  lemma {:induction false} ChainParses(data: seq<Byte>, offsets: seq<nat>, values: map<int, seq<Byte>>)
    requires Chain(data, offsets)
    ensures ParseFrom(data, offsets[0], values) == Some(Collect(values, ChainAttrs(data, offsets)))
    decreases |offsets|
  {
    if |offsets| > 1 {
      var first, rest := AttrAt(data, offsets[0]), ChainAttrs(data, offsets[1..]);
      ChainParses(data, offsets[1..], values[first.kind := first.data]);
      assert ([first] + rest)[1..] == rest;
    }
  }

  lemma {:induction false} ParsesChain(data: seq<Byte>, start: nat, values: map<int, seq<Byte>>)
    returns (offsets: seq<nat>)
    requires ParseFrom(data, start, values).Some?
    ensures Chain(data, offsets) && offsets[0] == start
    decreases |data| - start
  {
    if start >= |data| {
      offsets := [start];
    } else {
      var first := AttrAt(data, start);
      var rest := ParsesChain(data, NextOffset(data, start), values[first.kind := first.data]);
      offsets := [start] + rest;
      assert offsets[1..] == rest;
    }
  }

  /** The header is that of a message with the packet's own length and the expected transaction. */
  predicate OwnHeader(data: seq<Byte>, transaction: seq<Byte>) {
    |data| >= 20 && Header(Unpack16(data[..2]), |data| - 20, transaction) == Some(data[..20])
  }

  lemma AcceptedHeaders(data: seq<Byte>, transaction: seq<Byte>)
    requires |transaction| == 12
    ensures Parse(data, transaction).Some? <==> OwnHeader(data, transaction) && ParseFrom(data, 20, map[]).Some?
  {
    if |data| >= 20 {
      var kind := Unpack16(data[..2]);
      Pack16Unpack16(data[..2]);
      Pack16Unpack16(data[2..4]);
      Pack32Unpack32(data[4..8]);
      if Parse(data, transaction).Some? {
        assert data[..20] == data[..2] + data[2..4] + data[4..8] + data[8..20];
      }
      if OwnHeader(data, transaction) {
        HeaderFields(kind, |data| - 20, transaction, data[20..]);
        assert data == data[..20] + data[20..];
      }
    }
  }

  /** A packet is accepted if and only if it has its own header and its declared sizes chain
      from there to the end; its values are then those at the offsets of the chain. */
  lemma AcceptedPackets(data: seq<Byte>, transaction: seq<Byte>)
    requires |transaction| == 12
    ensures Parse(data, transaction).Some?
            <==> OwnHeader(data, transaction) && exists offsets :: Chain(data, offsets) && offsets[0] == 20
    ensures forall offsets | OwnHeader(data, transaction) && Chain(data, offsets) && offsets[0] == 20 ::
              Parse(data, transaction)
              == Some(Message(Unpack16(data[..2]), Collect(map[], ChainAttrs(data, offsets))))
  {
    AcceptedHeaders(data, transaction);
    if Parse(data, transaction).Some? {
      var offsets := ParsesChain(data, 20, map[]);
    }
    forall offsets | Chain(data, offsets) && offsets[0] == 20
      ensures ParseFrom(data, 20, map[]) == Some(Collect(map[], ChainAttrs(data, offsets)))
    {
      ChainParses(data, offsets, map[]);
    }
  }

  /** Every value has its declared length. */
  predicate Unclipped(data: seq<Byte>, offsets: seq<nat>)
    requires Chain(data, offsets)
    decreases |offsets|
  {
    |offsets| == 1
    || (|AttrAt(data, offsets[0]).data| == Declared(data, offsets[0]) && Unclipped(data, offsets[1..]))
  }

  /** Only the last value can be shorter than declared, and it is if and only if it runs past
      the end of the packet. */
  lemma {:induction false} ClippedIsLast(data: seq<Byte>, offsets: seq<nat>)
    requires Chain(data, offsets) && |offsets| > 1
    ensures var last := offsets[|offsets| - 2];
            last + 4 <= |data| && (Unclipped(data, offsets) <==> Whole(data, last))
    decreases |offsets|
  {
    assert Unclipped(data, offsets)
      <==> |AttrAt(data, offsets[0]).data| == Declared(data, offsets[0]) && Unclipped(data, offsets[1..]);
    if |offsets| > 2 {
      ClippedIsLast(data, offsets[1..]);
      assert offsets[1..][|offsets| - 3] == offsets[|offsets| - 2];
      assert offsets[1] + 4 <= |data|;
    }
  }

  /** Four bytes behind a header that declares a hundred: accepted as four. */
  lemma ClippedIsAccepted(kind: int, field: int, value: seq<Byte>, transaction: seq<Byte>)
    requires Header(kind, 8, transaction).Some? && 0 <= field < 0x10000 && |value| == 4
    ensures Parse(Header(kind, 8, transaction).value + Pack16(field) + Pack16(100) + value, transaction)
            == Some(Message(kind, map[field := value]))
  {
    var body := Pack16(field) + Pack16(100) + value;
    var data := Header(kind, 8, transaction).value + body;
    assert Header(kind, 8, transaction).value + Pack16(field) + Pack16(100) + value == data;
    HeaderFields(kind, 8, transaction, body);
    assert data[20..22] == Pack16(field) && data[22..24] == Pack16(100) && data[24..28] == value;
    Unpack16Pack16(field);
    Unpack16Pack16(100);
    assert Slice(data, 24, 124) == value;
    assert ParseFrom(data, 124, map[field := value]) == Some(map[field := value]);
  }

  lemma {:induction false} CollectLast(values: map<int, seq<Byte>>, attrs: seq<Attr>, kind: int)
    ensures kind in Collect(values, attrs) <==> kind in values || exists i | 0 <= i < |attrs| :: attrs[i].kind == kind
    ensures forall i | 0 <= i < |attrs| && attrs[i].kind == kind
                       && (forall j | i < j < |attrs| :: attrs[j].kind != kind) ::
              Collect(values, attrs)[kind] == attrs[i].data
    ensures kind in values && (forall i | 0 <= i < |attrs| :: attrs[i].kind != kind) ==>
              Collect(values, attrs)[kind] == values[kind]
    decreases attrs
  {
    if attrs != [] {
      var rest := attrs[1..];
      CollectLast(values[attrs[0].kind := attrs[0].data], rest, kind);
      assert forall i | 0 <= i < |rest| :: rest[i] == attrs[i + 1];
      if exists i | 0 <= i < |attrs| :: attrs[i].kind == kind {
        var i :| 0 <= i < |attrs| && attrs[i].kind == kind;
        assert i == 0 || rest[i - 1].kind == kind;
      }
      forall i | 0 <= i < |attrs| && attrs[i].kind == kind && (forall j | i < j < |attrs| :: attrs[j].kind != kind)
        ensures kind in Collect(values, attrs) && Collect(values, attrs)[kind] == attrs[i].data
      {
        if i > 0 {
          assert rest[i - 1].kind == kind;
        }
      }
    }
  }

  /** With distinct kinds the decoded dictionary holds every attribute and nothing else. */
  lemma DistinctKinds(attrs: seq<Attr>)
    requires forall i, j | 0 <= i < j < |attrs| :: attrs[i].kind != attrs[j].kind
    ensures var m := Collect(map[], attrs);
            && (forall i | 0 <= i < |attrs| :: attrs[i].kind in m && m[attrs[i].kind] == attrs[i].data)
            && (forall kind | kind in m :: exists i | 0 <= i < |attrs| :: attrs[i].kind == kind)
  {
    forall kind ensures kind in Collect(map[], attrs) ==> exists i | 0 <= i < |attrs| :: attrs[i].kind == kind {
      CollectLast(map[], attrs, kind);
    }
    forall i | 0 <= i < |attrs|
      ensures attrs[i].kind in Collect(map[], attrs) && Collect(map[], attrs)[attrs[i].kind] == attrs[i].data
    {
      CollectLast(map[], attrs, attrs[i].kind);
    }
  }

  lemma {:induction false} AttributesAligned(attrs: seq<Attr>)
    requires Attributes(attrs).Some?
    ensures |Attributes(attrs).value| % 4 == 0
  {
    if attrs != [] {
      AttributeShape(attrs[0]);
      AttributesAligned(attrs[1..]);
    }
  }

  /** The length a request declares is its size without the header, signed or not. */
  lemma RequestLength(attributes: seq<Byte>, key: Option<seq<Byte>>, transaction: seq<Byte>,
                      digest: (seq<Byte>, seq<Byte>) -> seq<Byte>)
    requires forall k, p :: |digest(k, p)| == 20
    requires Request(attributes, key, transaction, digest).Some?
    ensures var packet := Request(attributes, key, transaction, digest).value;
            |packet| >= 20 && Unpack16(packet[2..4]) == |packet| - 20
  {
    var signed := key.Some? && key.value != [];
    var length := |attributes| + (if signed then 24 else 0);
    var packet := Request(attributes, key, transaction, digest).value;
    var header := Header(ALLOCATE, length, transaction).value;
    assert packet == header + packet[20..];
    HeaderFields(ALLOCATE, length, transaction, packet[20..]);
  }

  lemma SignedParts(body: seq<Byte>, key: seq<Byte>, transaction: seq<Byte>,
                    digest: (seq<Byte>, seq<Byte>) -> seq<Byte>)
    requires key != [] && Request(body, Some(key), transaction, digest).Some?
    ensures var header := Header(ALLOCATE, |body| + 24, transaction);
            && header.Some? && |header.value| == 20
            && var mac := Attr(MESSAGE_INTEGRITY, digest(key, header.value + body));
               Encodable(mac)
               && Request(body, Some(key), transaction, digest).value == header.value + body + Attribute(mac).value
  {
  }

  /** A signed request is its header and its attributes with the integrity attribute last. */
  lemma SignedShape(attrs: seq<Attr>, key: seq<Byte>, transaction: seq<Byte>,
                    digest: (seq<Byte>, seq<Byte>) -> seq<Byte>)
    requires key != [] && Attributes(attrs).Some?
    requires Request(Attributes(attrs).value, Some(key), transaction, digest).Some?
    ensures var body := Attributes(attrs).value;
            var header := Header(ALLOCATE, |body| + 24, transaction);
            var packet := Request(body, Some(key), transaction, digest).value;
            && header.Some? && |header.value| == 20 && |packet| >= 20 + |body|
            && packet[..20 + |body|] == header.value + body
            && var all := Attributes(attrs + [Attr(MESSAGE_INTEGRITY, digest(key, header.value + body))]);
               all.Some? && packet == header.value + all.value
  {
    var body := Attributes(attrs).value;
    var header := Header(ALLOCATE, |body| + 24, transaction).value;
    var integrity := Attr(MESSAGE_INTEGRITY, digest(key, header + body));
    SignedParts(body, key, transaction, digest);
    AttributesSnoc(attrs, integrity);
    var mac := Attribute(integrity).value;
    assert header + body + mac == header + (body + mac);
    assert (header + body + mac)[..20 + |body|] == header + body;
  }

  /** A signed request is read back as its attributes followed by the integrity attribute. */
  lemma SignedRequestReadBack(attrs: seq<Attr>, key: seq<Byte>, transaction: seq<Byte>,
                              digest: (seq<Byte>, seq<Byte>) -> seq<Byte>)
    requires forall k, p :: |digest(k, p)| == 20
    requires key != [] && Attributes(attrs).Some?
    requires Request(Attributes(attrs).value, Some(key), transaction, digest).Some?
    ensures var body := Attributes(attrs).value;
            var packet := Request(body, Some(key), transaction, digest).value;
            |packet| >= 20 + |body|
            && var mac := digest(key, packet[..20 + |body|]);
               Parse(packet, transaction)
               == Some(Message(ALLOCATE, Collect(map[], attrs)[MESSAGE_INTEGRITY := mac]))
  {
    SignedShape(attrs, key, transaction, digest);
    var body := Attributes(attrs).value;
    var header := Header(ALLOCATE, |body| + 24, transaction).value;
    var integrity := Attr(MESSAGE_INTEGRITY, digest(key, header + body));
    SignedLength(attrs, integrity);
    RoundTrip(ALLOCATE, attrs + [integrity], transaction);
    CollectSnoc(map[], attrs, integrity);
  }

  lemma SignedLength(attrs: seq<Attr>, integrity: Attr)
    requires Attributes(attrs).Some? && Encodable(integrity) && |integrity.data| == 20
    ensures Attributes(attrs + [integrity]).Some?
    ensures |Attributes(attrs + [integrity]).value| == |Attributes(attrs).value| + 24
  {
    AttributesSnoc(attrs, integrity);
    AttributeShape(integrity);
  }

  lemma {:induction false} AttributesSnoc(attrs: seq<Attr>, a: Attr)
    requires Attributes(attrs).Some? && Encodable(a)
    ensures Attributes(attrs + [a]) == Some(Attributes(attrs).value + Attribute(a).value)
  {
    if attrs == [] {
      assert [a][1..] == [];
      assert attrs + [a] == [a];
      assert Attribute(a).value + [] == [] + Attribute(a).value;
    } else {
      AttributesSnoc(attrs[1..], a);
      assert (attrs + [a])[1..] == attrs[1..] + [a];
      var first, rest, last := Attribute(attrs[0]).value, Attributes(attrs[1..]).value, Attribute(a).value;
      assert first + (rest + last) == (first + rest) + last;
    }
  }

  lemma {:induction false} CollectSnoc(values: map<int, seq<Byte>>, attrs: seq<Attr>, a: Attr)
    ensures Collect(values, attrs + [a]) == Collect(values, attrs)[a.kind := a.data]
    decreases attrs
  {
    if attrs == [] {
      assert attrs + [a] == [a] && [a][1..] == [];
    } else {
      CollectSnoc(values[attrs[0].kind := attrs[0].data], attrs[1..], a);
      assert (attrs + [a])[1..] == attrs[1..] + [a];
    }
  }
}
