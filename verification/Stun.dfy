/** STUN messages for ICE-lite (RFC 8489): the parser, the Binding response and its integrity check.
    The keyed hash and the checksum are parameters. */
module Stun {
  import opened Words

  const MAGIC_COOKIE: u32 := 0x2112_A442
  const HEADER_SIZE := 20
  const BINDING_RESPONSE: u16 := 0x0101
  const ATTR_MESSAGE_INTEGRITY: u16 := 0x0008
  const ATTR_XOR_MAPPED_ADDRESS: u16 := 0x0020
  const ATTR_SOFTWARE: u16 := 0x8022
  const ATTR_FINGERPRINT: u16 := 0x8028
  const FINGERPRINT_XOR: u32 := 0x5354_554E

  type Ip4 = s: seq<u8> | |s| == 4 witness [0, 0, 0, 0]
  type Ip6 = s: seq<u8> | |s| == 16 witness [0, 0, 0, 0, 0, 0, 0, 0, 0, 0, 0, 0, 0, 0, 0, 0]
  type TransactionId = s: seq<u8> | |s| == 12 witness [0, 0, 0, 0, 0, 0, 0, 0, 0, 0, 0, 0]
  type Digest = s: seq<u8> | |s| == 20 witness [0, 0, 0, 0, 0, 0, 0, 0, 0, 0, 0, 0, 0, 0, 0, 0, 0, 0, 0, 0]

  datatype SockAddr = V4(port: u16, ip4: Ip4) | V6(port: u16, ip6: Ip6)

  datatype Attr = Attr(attrType: u16, value: seq<u8>)

  datatype Message = Message(msgType: u16, length: u16, tid: TransactionId, attributes: seq<Attr>, raw: seq<u8>)

  // ---------------------------------------------------------------- parsing

  /** The attributes from offset `o` on; a value that would run past the end stops the parse. */
  function ParseAttrs(raw: seq<u8>, o: nat): seq<Attr>
    decreases SatSub(|raw|, o)
  {
    if o + 4 > |raw| then []
    else
      var n := U16At(raw, o + 2);
      if o + 4 + n > |raw| then []
      else [Attr(U16At(raw, o), raw[o + 4..o + 4 + n])] + ParseAttrs(raw, o + 4 + Ceil4(n))
  }

  function Parse(buf: seq<u8>): Option<Message> {
    if |buf| < HEADER_SIZE || buf[0] >= 0x40 || U32At(buf, 4) != MAGIC_COOKIE || U16At(buf, 2) % 4 != 0
       || |buf| < HEADER_SIZE + U16At(buf, 2) then None
    else
      var raw := buf[..HEADER_SIZE + U16At(buf, 2)];
      Some(Message(U16At(buf, 0), U16At(buf, 2), buf[8..20], ParseAttrs(raw, HEADER_SIZE), raw))
  }

  method ParseAttributes(raw: seq<u8>) returns (attrs: seq<Attr>)
    ensures attrs == ParseAttrs(raw, HEADER_SIZE)
  {
    attrs := [];
    var offset: nat := HEADER_SIZE;
    while offset + 4 <= |raw|
      invariant attrs + ParseAttrs(raw, offset) == ParseAttrs(raw, HEADER_SIZE)
      decreases SatSub(|raw|, offset)
    {
      var attrLen := U16At(raw, offset + 2);
      if offset + 4 + attrLen > |raw| {
        break;
      }
      var attr := Attr(U16At(raw, offset), raw[offset + 4..offset + 4 + attrLen]);
      var next := offset + 4 + Ceil4(attrLen);
      ParseAttrsStep(raw, offset, attrs, attr, next);
      attrs := attrs + [attr];
      offset := next;
    }
    ParseAttrsEnd(raw, offset, attrs);
  }

  lemma ParseAttrsEnd(raw: seq<u8>, o: nat, before: seq<Attr>)
    requires o + 4 > |raw| || o + 4 + U16At(raw, o + 2) > |raw|
    ensures before + ParseAttrs(raw, o) == before
  {
    assert ParseAttrs(raw, o) == [];
  }

  lemma ParseAttrsStep(raw: seq<u8>, o: nat, before: seq<Attr>, attr: Attr, next: nat)
    requires o + 4 <= |raw| && o + 4 + U16At(raw, o + 2) <= |raw| && next == o + 4 + Ceil4(U16At(raw, o + 2))
    requires attr == Attr(U16At(raw, o), raw[o + 4..o + 4 + U16At(raw, o + 2)])
    ensures before + ParseAttrs(raw, o) == (before + [attr]) + ParseAttrs(raw, next)
  {
    var rest := ParseAttrs(raw, next);
    assert ParseAttrs(raw, o) == [attr] + rest;
    AppendAssociative(before, [attr], rest);
  }

  method ParseMessage(buf: seq<u8>) returns (m: Option<Message>)
    ensures m == Parse(buf)
  {
    if |buf| < HEADER_SIZE || buf[0] / 0x40 != 0 {
      return None;
    }
    var length := U16At(buf, 2);
    if U32At(buf, 4) != MAGIC_COOKIE || length % 4 != 0 {
      return None;
    }
    var totalLen := HEADER_SIZE + length;
    if |buf| < totalLen {
      return None;
    }
    var attrs := ParseAttributes(buf[..totalLen]);
    return Some(Message(U16At(buf, 0), length, buf[8..20], attrs, buf[..totalLen]));
  }

  function GetAttr(attrs: seq<Attr>, t: u16): Option<seq<u8>> {
    if attrs == [] then None else if attrs[0].attrType == t then Some(attrs[0].value) else GetAttr(attrs[1..], t)
  }

  function FindAttrOffset(raw: seq<u8>, o: nat, t: u16): Option<nat>
    decreases SatSub(|raw|, o)
  {
    if o + 4 > |raw| then None
    else if U16At(raw, o) == t then Some(o)
    else FindAttrOffset(raw, o + 4 + Ceil4(U16At(raw, o + 2)), t)
  }

  method FindOffset(raw: seq<u8>, t: u16) returns (r: Option<nat>)
    ensures r == FindAttrOffset(raw, HEADER_SIZE, t)
  {
    var offset: nat := HEADER_SIZE;
    while offset + 4 <= |raw|
      invariant FindAttrOffset(raw, offset, t) == FindAttrOffset(raw, HEADER_SIZE, t)
      decreases SatSub(|raw|, offset)
    {
      if U16At(raw, offset) == t {
        return Some(offset);
      }
      offset := offset + 4 + Ceil4(U16At(raw, offset + 2));
    }
    return None;
  }

  /** An attribute of type `t` and value `v` starts at `at`. */
  ghost predicate AttrAt(raw: seq<u8>, at: nat, t: u16, v: seq<u8>) {
    && at + 4 + |v| <= |raw| && U16At(raw, at) == t && U16At(raw, at + 2) == |v|
    && raw[at + 4..at + 4 + |v|] == v
  }

  /** The raw scan, which skips the bounds check, and the parsed list agree on where an attribute is. */
  lemma {:induction false} OffsetFindsParsedAttr(raw: seq<u8>, o: nat, t: u16)
    requires GetAttr(ParseAttrs(raw, o), t).Some?
    ensures var v, at := GetAttr(ParseAttrs(raw, o), t).value, FindAttrOffset(raw, o, t);
            at.Some? && o <= at.value && AttrAt(raw, at.value, t, v)
    decreases SatSub(|raw|, o)
  {
    ParsedFits(raw, o, t);
    if U16At(raw, o) == t {
      FirstParsed(raw, o, t);
    } else {
      SkipParsed(raw, o, t);
      OffsetFindsParsedAttr(raw, o + 4 + Ceil4(U16At(raw, o + 2)), t);
    }
  }

  lemma ParsedFits(raw: seq<u8>, o: nat, t: u16)
    requires GetAttr(ParseAttrs(raw, o), t).Some?
    ensures o + 4 <= |raw| && o + 4 + U16At(raw, o + 2) <= |raw|
  {
  }

  lemma FirstParsed(raw: seq<u8>, o: nat, t: u16)
    requires o + 4 <= |raw| && o + 4 + U16At(raw, o + 2) <= |raw| && U16At(raw, o) == t
    ensures FindAttrOffset(raw, o, t) == Some(o)
    ensures GetAttr(ParseAttrs(raw, o), t) == Some(raw[o + 4..o + 4 + U16At(raw, o + 2)])
  {
  }

  lemma SkipParsed(raw: seq<u8>, o: nat, t: u16)
    requires o + 4 <= |raw| && o + 4 + U16At(raw, o + 2) <= |raw| && U16At(raw, o) != t
    ensures GetAttr(ParseAttrs(raw, o), t) == GetAttr(ParseAttrs(raw, o + 4 + Ceil4(U16At(raw, o + 2))), t)
    ensures FindAttrOffset(raw, o, t) == FindAttrOffset(raw, o + 4 + Ceil4(U16At(raw, o + 2)), t)
  {
    assert ParseAttrs(raw, o)[1..] == ParseAttrs(raw, o + 4 + Ceil4(U16At(raw, o + 2)));
  }

  // ---------------------------------------------------------------- writing attributes

  function WriteAttr(a: Attr): (s: seq<u8>)
    ensures |s| == 4 + Ceil4(|a.value|)
  {
    Be16(a.attrType) + Be16(Wrap16(|a.value|)) + a.value + Zeros(Ceil4(|a.value|) - |a.value|)
  }

  type Writer = Attr -> seq<u8>

  function Written(w: Writer, attrs: seq<Attr>): seq<u8> {
    if attrs == [] then [] else w(attrs[0]) + Written(w, attrs[1..])
  }

  function WriteAttrs(attrs: seq<Attr>): seq<u8> {
    Written(WriteAttr, attrs)
  }

  /** `raw` has the attribute `a` written at offset `o`. */
  ghost predicate WrittenAt(raw: seq<u8>, o: nat, a: Attr) {
    && |a.value| < 0x1_0000 && o + 4 + Ceil4(|a.value|) <= |raw|
    && raw[o..o + 4 + Ceil4(|a.value|)] == WriteAttr(a)
  }

  lemma FieldSlices(a: seq<u8>, b: seq<u8>, c: seq<u8>, d: seq<u8>)
    requires |a| == 2 && |b| == 2
    ensures var w := a + b + c + d; w[0..2] == a && w[2..4] == b && w[4..4 + |c|] == c
  {
    var w := a + b + c + d;
    assert w[0..2] == a;
    assert w[2..4] == b;
    assert w[4..4 + |c|] == c;
  }

  lemma WrittenFields(raw: seq<u8>, o: nat, a: Attr)
    requires WrittenAt(raw, o, a)
    ensures U16At(raw, o) == a.attrType && U16At(raw, o + 2) == |a.value|
    ensures raw[o + 4..o + 4 + |a.value|] == a.value
  {
    var end := o + 4 + Ceil4(|a.value|);
    assert raw[o..o + 2] == Be16(a.attrType) && raw[o + 2..o + 4] == Be16(|a.value|)
           && raw[o + 4..o + 4 + |a.value|] == a.value by {
      SubSlice(raw, o, end, 0, 2);
      SubSlice(raw, o, end, 2, 4);
      SubSlice(raw, o, end, 4, 4 + |a.value|);
      FieldSlices(Be16(a.attrType), Be16(|a.value|), a.value, Zeros(Ceil4(|a.value|) - |a.value|));
    }
    Be16At(raw, o, a.attrType);
    Be16At(raw, o + 2, |a.value|);
  }

  lemma {:induction false} WrittenAligned(w: Writer, attrs: seq<Attr>)
    requires forall a: Attr :: |w(a)| % 4 == 0
    ensures |Written(w, attrs)| % 4 == 0
  {
    if attrs != [] {
      WrittenAligned(w, attrs[1..]);
      assert |w(attrs[0])| % 4 == 0;
    }
  }

  /** Every value fits a 16-bit length. */
  ghost predicate Short(attrs: seq<Attr>) {
    forall i :: 0 <= i < |attrs| ==> |attrs[i].value| < 0x1_0000
  }

  /** The attribute stands written at `o`. */
  predicate StandsAt(w: Writer, raw: seq<u8>, o: nat, a: Attr) {
    |a.value| < 0x1_0000 && o + |w(a)| <= |raw| && raw[o..o + |w(a)|] == w(a)
  }

  predicate AllStand(w: Writer, raw: seq<u8>, o: nat, attrs: seq<Attr>)
    decreases attrs
  {
    attrs != [] ==> StandsAt(w, raw, o, attrs[0]) && AllStand(w, raw, o + |w(attrs[0])|, attrs[1..])
  }

  lemma Middle<T>(pre: seq<T>, x: seq<T>, rest: seq<T>)
    ensures (pre + (x + rest))[|pre|..|pre| + |x|] == x
  {
  }

  lemma {:induction false} WrittenStand(w: Writer, pre: seq<u8>, attrs: seq<Attr>, rest: seq<u8>)
    requires Short(attrs)
    ensures AllStand(w, pre + (Written(w, attrs) + rest), |pre|, attrs)
    decreases |attrs|
  {
    if attrs != [] {
      var a, others := w(attrs[0]), Written(w, attrs[1..]);
      AppendAssociative(a, others, rest);
      AppendAssociative(pre, a, others + rest);
      Middle(pre, a, others + rest);
      WrittenStand(w, pre + a, attrs[1..], rest);
    }
  }

  /** The parser reads what the writer writes, one attribute at a time. */
  ghost predicate Reads(w: Writer, parse: (seq<u8>, nat) -> seq<Attr>) {
    && (forall raw: seq<u8> :: parse(raw, |raw|) == [])
    && (forall raw: seq<u8>, o: nat, a: Attr {:trigger StandsAt(w, raw, o, a)} ::
          StandsAt(w, raw, o, a) ==> parse(raw, o) == [a] + parse(raw, o + |w(a)|))
  }

  lemma {:induction false} ReadStanding(w: Writer, parse: (seq<u8>, nat) -> seq<Attr>, raw: seq<u8>, o: nat,
                                        attrs: seq<Attr>)
    requires Reads(w, parse) && AllStand(w, raw, o, attrs) && o + |Written(w, attrs)| == |raw|
    ensures parse(raw, o) == attrs
    decreases |attrs|
  {
    if attrs != [] {
      ReadStanding(w, parse, raw, o + |w(attrs[0])|, attrs[1..]);
    }
  }

  lemma ParseOne(raw: seq<u8>, o: nat, a: Attr)
    requires StandsAt(WriteAttr, raw, o, a)
    ensures ParseAttrs(raw, o) == [a] + ParseAttrs(raw, o + |WriteAttr(a)|)
  {
    WrittenFields(raw, o, a);
  }

  function Parser(): (seq<u8>, nat) -> seq<Attr> {
    (raw: seq<u8>, o: nat) => ParseAttrs(raw, o)
  }

  lemma ParserReads()
    ensures Reads(WriteAttr, Parser())
  {
    forall raw: seq<u8>, o: nat, a: Attr | StandsAt(WriteAttr, raw, o, a)
      ensures ParseAttrs(raw, o) == [a] + ParseAttrs(raw, o + |WriteAttr(a)|)
    {
      ParseOne(raw, o, a);
    }
  }

  /** Any list of attributes survives writing and parsing. */
  lemma AttrsRoundTrip(pre: seq<u8>, attrs: seq<Attr>)
    requires Short(attrs)
    ensures ParseAttrs(pre + WriteAttrs(attrs), |pre|) == attrs
  {
    ParserReads();
    WrittenStand(WriteAttr, pre, attrs, []);
    assert WriteAttrs(attrs) + [] == WriteAttrs(attrs);
    ReadStanding(WriteAttr, Parser(), pre + WriteAttrs(attrs), |pre|, attrs);
  }

  lemma TwoWritten(w: Writer, a: Attr, b: Attr)
    ensures Written(w, [a]) == w(a) && Written(w, [a, b]) == w(a) + w(b)
  {
    assert [a, b][1..] == [b];
    assert [a][1..] == [] && [b][1..] == [];
    assert w(a) + [] == w(a) && w(b) + [] == w(b);
    assert Written(w, [b]) == w(b);
  }

  lemma FourWritten(w: Writer, a: Attr, b: Attr, c: Attr, d: Attr)
    ensures Written(w, [a, b, c, d]) == w(a) + w(b) + w(c) + w(d)
  {
    TwoWritten(w, c, d);
    TwoWritten(w, a, b);
    assert [a, b, c, d] == [a, b] + [c, d];
    WriteAppend(w, [a, b], [c, d]);
    AppendAssociative(w(a) + w(b), w(c), w(d));
  }

  // ---------------------------------------------------------------- whole messages

  function HeaderOf(msgType: u16, length: u16, tid: TransactionId): (s: seq<u8>)
    ensures |s| == HEADER_SIZE
  {
    Be16(msgType) + Be16(length) + Be32(MAGIC_COOKIE) + tid
  }

  lemma HeaderFields(msgType: u16, length: u16, tid: TransactionId, rest: seq<u8>)
    ensures var buf := HeaderOf(msgType, length, tid) + rest;
            && U16At(buf, 0) == msgType && U16At(buf, 2) == length && U32At(buf, 4) == MAGIC_COOKIE
            && buf[8..20] == tid && buf[0] == msgType / 0x100
  {
    var buf := HeaderOf(msgType, length, tid) + rest;
    assert buf[0..2] == Be16(msgType) && buf[2..4] == Be16(length);
    assert buf[4..8] == Be32(MAGIC_COOKIE) && buf[8..20] == tid;
    Be16At(buf, 0, msgType);
    Be16At(buf, 2, length);
    Be32At(buf, 4, MAGIC_COOKIE);
    assert buf[0] == buf[0..2][0];
  }

  /** The buffer starts with a header of some message, and has at least the bytes that header announces. */
  ghost predicate Headed(buf: seq<u8>, msgType: u16, length: u16, tid: TransactionId) {
    && msgType < 0x4000 && length % 4 == 0 && |buf| >= HEADER_SIZE + length
    && buf[..HEADER_SIZE] == HeaderOf(msgType, length, tid)
  }

  lemma HeaderWritten(buf: seq<u8>)
    requires |buf| >= HEADER_SIZE && U32At(buf, 4) == MAGIC_COOKIE
    ensures buf[..HEADER_SIZE] == HeaderOf(U16At(buf, 0), U16At(buf, 2), buf[8..20])
  {
    Be16Of(buf, 0);
    Be16Of(buf, 2);
    Be16Of(buf, 4);
    Be16Of(buf, 6);
    assert buf[4..8] == buf[4..6] + buf[6..8];
    assert buf[..HEADER_SIZE] == buf[0..2] + buf[2..4] + buf[4..8] + buf[8..20];
  }

  lemma Be16Of(s: seq<u8>, o: nat)
    requires o + 2 <= |s|
    ensures Be16(U16At(s, o)) == s[o..o + 2]
  {
  }

  /** For any bytes: they are taken for a message exactly when they start with the header of one and hold all it
      announces; type, length, transaction id and extent are then those of that header. */
  lemma ParseIff(buf: seq<u8>, msgType: u16, length: u16, tid: TransactionId)
    ensures Headed(buf, msgType, length, tid) <==>
            && Parse(buf).Some?
            && Parse(buf).value.msgType == msgType && Parse(buf).value.length == length && Parse(buf).value.tid == tid
    ensures Headed(buf, msgType, length, tid) ==> Parse(buf).value.raw == buf[..HEADER_SIZE + length]
  {
    if Headed(buf, msgType, length, tid) {
      assert buf == HeaderOf(msgType, length, tid) + buf[HEADER_SIZE..];
      HeaderFields(msgType, length, tid, buf[HEADER_SIZE..]);
    } else if Parse(buf).Some? {
      HeaderWritten(buf);
    }
  }

  ghost predicate Writable(attrs: seq<Attr>) {
    Short(attrs) && |WriteAttrs(attrs)| < 0x1_0000
  }

  lemma PaddedFields(raw: seq<u8>, rest: seq<u8>)
    requires |raw| >= HEADER_SIZE
    ensures var buf := raw + rest;
            && buf[0] == raw[0] && U16At(buf, 0) == U16At(raw, 0) && U16At(buf, 2) == U16At(raw, 2)
            && U32At(buf, 4) == U32At(raw, 4) && buf[8..20] == raw[8..20] && buf[..|raw|] == raw
  {
  }

  /** What follows a message in the buffer is not looked at. */
  lemma ParsePadded(raw: seq<u8>, rest: seq<u8>)
    requires |raw| >= HEADER_SIZE && U32At(raw, 4) == MAGIC_COOKIE
    requires U16At(raw, 2) % 4 == 0 && |raw| == HEADER_SIZE + U16At(raw, 2)
    ensures Parse(raw + rest) ==
            if raw[0] < 0x40 then
              Some(Message(U16At(raw, 0), U16At(raw, 2), raw[8..20], ParseAttrs(raw, HEADER_SIZE), raw))
            else None
  {
    PaddedFields(raw, rest);
  }

  /** Any message of any type is parsed, whatever follows it in the buffer; one bit in the top two of its type is enough
      to have it refused. */
  lemma MessageRoundTrip(msgType: u16, tid: TransactionId, attrs: seq<Attr>, rest: seq<u8>)
    requires Writable(attrs)
    ensures var body := WriteAttrs(attrs);
            var raw := HeaderOf(msgType, |body|, tid) + body;
            Parse(raw + rest) == if msgType < 0x4000 then Some(Message(msgType, |body|, tid, attrs, raw)) else None
  {
    var body := WriteAttrs(attrs);
    var raw := HeaderOf(msgType, |body|, tid) + body;
    HeaderFields(msgType, |body|, tid, body);
    WrittenAligned(WriteAttr, attrs);
    ParsePadded(raw, rest);
    AttrsRoundTrip(HeaderOf(msgType, |body|, tid), attrs);
  }

  // ---------------------------------------------------------------- the mapped address

  function XorBytes(a: seq<u8>, key: seq<u8>): (r: seq<u8>)
    requires |a| == |key|
    ensures |r| == |a|
  {
    if a == [] then []
    else
      XorByte(a[0], key[0]);
      [Xor(a[0], key[0])] + XorBytes(a[1..], key[1..])
  }

  lemma XorByte(a: u8, b: u8)
    ensures 0 <= Xor(a, b) < 0x100 && Xor(Xor(a, b), b) == a
  {
    Pow2Widths();
    XorBound(a, b, 8);
    XorInverse(a, b);
  }

  lemma {:induction false} XorBytesInverse(a: seq<u8>, key: seq<u8>)
    requires |a| == |key|
    ensures XorBytes(XorBytes(a, key), key) == a
  {
    if a != [] {
      XorByte(a[0], key[0]);
      XorBytesInverse(a[1..], key[1..]);
      assert XorBytes(a, key)[1..] == XorBytes(a[1..], key[1..]);
      assert a == [a[0]] + a[1..];
    }
  }

  function XorPort(port: u16): (r: u16)
    ensures Xor(r, MAGIC_COOKIE / 0x1_0000) == port
  {
    Pow2Widths();
    XorBound(port, MAGIC_COOKIE / 0x1_0000, 16);
    XorInverse(port, MAGIC_COOKIE / 0x1_0000);
    Xor(port, MAGIC_COOKIE / 0x1_0000)
  }

  function EncodeXorMappedAddress(addr: SockAddr, tid: TransactionId): (v: seq<u8>)
    ensures |v| == if addr.V4? then 8 else 20
  {
    match addr
    case V4(port, ip) => [0x00, 0x01] + Be16(XorPort(port)) + XorBytes(ip, Be32(MAGIC_COOKIE))
    case V6(port, ip) => [0x00, 0x02] + Be16(XorPort(port)) + XorBytes(ip, Be32(MAGIC_COOKIE) + tid)
  }

  /** A client's reading of XOR-MAPPED-ADDRESS (section 14.2 of RFC 8489). */
  function DecodeXorMappedAddress(v: seq<u8>, tid: TransactionId): Option<SockAddr> {
    if |v| < 4 then None
    else
      Pow2Widths();
      XorBound(U16At(v, 2), MAGIC_COOKIE / 0x1_0000, 16);
      var port := Xor(U16At(v, 2), MAGIC_COOKIE / 0x1_0000);
      if v[1] == 1 && |v| == 8 then Some(V4(port, XorBytes(v[4..], Be32(MAGIC_COOKIE))))
      else if v[1] == 2 && |v| == 20 then Some(V6(port, XorBytes(v[4..], Be32(MAGIC_COOKIE) + tid)))
      else None
  }

  /** Every client address, IPv4 or IPv6, survives the exclusive-or encoding. */
  lemma MappedAddressRoundTrip(addr: SockAddr, tid: TransactionId)
    ensures DecodeXorMappedAddress(EncodeXorMappedAddress(addr, tid), tid) == Some(addr)
  {
    var v := EncodeXorMappedAddress(addr, tid);
    assert v[2..4] == Be16(XorPort(addr.port));
    Be16At(v, 2, XorPort(addr.port));
    match addr
    case V4(_, ip) =>
      assert v[4..] == XorBytes(ip, Be32(MAGIC_COOKIE));
      XorBytesInverse(ip, Be32(MAGIC_COOKIE));
    case V6(_, ip) =>
      assert v[4..] == XorBytes(ip, Be32(MAGIC_COOKIE) + tid);
      XorBytesInverse(ip, Be32(MAGIC_COOKIE) + tid);
  }

  // ---------------------------------------------------------------- the Binding response

  /** "light-livechat" */
  const SOFTWARE: seq<u8> := [108, 105, 103, 104, 116, 45, 108, 105, 118, 101, 99, 104, 97, 116]

  type Hmac = (seq<u8>, seq<u8>) -> Digest
  type Crc = seq<u8> -> u32

  function Header(length: u16, tid: TransactionId): (s: seq<u8>)
    ensures |s| == HEADER_SIZE
  {
    HeaderOf(BINDING_RESPONSE, length, tid)
  }

  /** An encoded address, of either family. */
  type Mapped = v: seq<u8> | |v| == 8 || |v| == 20 witness [0, 0, 0, 0, 0, 0, 0, 0]

  function MappedAddress(mapped: Mapped): Attr {
    Attr(ATTR_XOR_MAPPED_ADDRESS, mapped)
  }

  /** The part of the body covered by the integrity check. */
  function Covered(mapped: Mapped): (s: seq<u8>)
    ensures |s| == 24 + |mapped|
  {
    WriteAttr(MappedAddress(mapped)) + WriteAttr(Attr(ATTR_SOFTWARE, SOFTWARE))
  }

  function Integrity(hmac: Hmac, tid: TransactionId, mapped: Mapped, key: seq<u8>): (a: Attr)
    ensures |WriteAttr(a)| == 24
  {
    var body := Covered(mapped);
    Attr(ATTR_MESSAGE_INTEGRITY, hmac(Header(Wrap16(|body| + 24), tid) + body, key))
  }

  function Fingerprint(crc: Crc, hmac: Hmac, tid: TransactionId, mapped: Mapped, key: seq<u8>): (a: Attr)
    ensures |WriteAttr(a)| == 8
  {
    var body := Covered(mapped) + WriteAttr(Integrity(hmac, tid, mapped, key));
    Attr(ATTR_FINGERPRINT, Be32(MaskedCrc(crc(Header(Wrap16(|body| + 8), tid) + body))))
  }

  function MaskedCrc(sum: u32): u32 {
    Pow2Widths();
    XorBound(sum, FINGERPRINT_XOR, 32);
    Xor(sum, FINGERPRINT_XOR)
  }

  function ResponseAttrs(crc: Crc, hmac: Hmac, tid: TransactionId, mapped: Mapped, key: seq<u8>): seq<Attr> {
    [MappedAddress(mapped), Attr(ATTR_SOFTWARE, SOFTWARE),
     Integrity(hmac, tid, mapped, key), Fingerprint(crc, hmac, tid, mapped, key)]
  }

  function ResponseBody(crc: Crc, hmac: Hmac, tid: TransactionId, mapped: Mapped, key: seq<u8>): (s: seq<u8>)
    ensures |s| == 56 + |mapped|
  {
    Covered(mapped) + WriteAttr(Integrity(hmac, tid, mapped, key)) + WriteAttr(Fingerprint(crc, hmac, tid, mapped, key))
  }

  function Response(crc: Crc, hmac: Hmac, tid: TransactionId, mapped: Mapped, key: seq<u8>): seq<u8> {
    var body := ResponseBody(crc, hmac, tid, mapped, key);
    Header(|body|, tid) + body
  }

  function SetLength(buf: seq<u8>, length: u16): seq<u8>
    requires |buf| >= 4
  {
    buf[..2] + Be16(length) + buf[4..]
  }

  lemma SetHeaderLength(length: u16, tid: TransactionId, body: seq<u8>, newLength: u16)
    ensures SetLength(Header(length, tid) + body, newLength) == Header(newLength, tid) + body
  {
    assert (Header(length, tid) + body)[..2] == Be16(BINDING_RESPONSE);
    assert (Header(length, tid) + body)[4..] == Be32(MAGIC_COOKIE) + tid + body;
  }

  method BuildBindingResponse(crc: Crc, hmac: Hmac, tid: TransactionId, addr: SockAddr, key: seq<u8>)
    returns (buf: seq<u8>)
    ensures buf == Response(crc, hmac, tid, EncodeXorMappedAddress(addr, tid), key)
  {
    buf := BuildResponse(crc, hmac, tid, EncodeXorMappedAddress(addr, tid), key);
  }

  method BuildResponse(crc: Crc, hmac: Hmac, tid: TransactionId, mapped: Mapped, key: seq<u8>) returns (buf: seq<u8>)
    ensures buf == Response(crc, hmac, tid, mapped, key)
  {
    ghost var body := Covered(mapped);
    buf := Be16(BINDING_RESPONSE) + Be16(0) + Be32(MAGIC_COOKIE) + tid;
    buf := buf + WriteAttr(MappedAddress(mapped));
    buf := buf + WriteAttr(Attr(ATTR_SOFTWARE, SOFTWARE));
    assert buf == Header(0, tid) + body;
    SetHeaderLength(0, tid, body, Wrap16(|body| + 24));
    buf := SetLength(buf, Wrap16(|buf| - HEADER_SIZE + 24));
    buf := AppendIntegrity(hmac, tid, body, key, buf);
    body := body + WriteAttr(Integrity(hmac, tid, mapped, key));
    buf := AppendFingerprint(crc, tid, body, buf);
  }

  method AppendIntegrity(hmac: Hmac, ghost tid: TransactionId, ghost body: seq<u8>, key: seq<u8>, start: seq<u8>)
    returns (buf: seq<u8>)
    requires start == Header(Wrap16(|body| + 24), tid) + body
    ensures buf == Header(Wrap16(|body| + 32), tid) + (body + WriteAttr(Attr(ATTR_MESSAGE_INTEGRITY, hmac(start, key))))
  {
    var digest := hmac(start, key);
    var attr := WriteAttr(Attr(ATTR_MESSAGE_INTEGRITY, digest));
    buf := start + attr;
    AppendAssociative(Header(Wrap16(|body| + 24), tid), body, attr);
    SetHeaderLength(Wrap16(|body| + 24), tid, body + attr, Wrap16(|body| + 32));
    buf := SetLength(buf, Wrap16(|buf| - HEADER_SIZE + 8));
  }

  method AppendFingerprint(crc: Crc, ghost tid: TransactionId, ghost body: seq<u8>, start: seq<u8>)
    returns (buf: seq<u8>)
    requires start == Header(Wrap16(|body| + 8), tid) + body
    ensures buf ==
            Header(Wrap16(|body| + 8), tid) + (body + WriteAttr(Attr(ATTR_FINGERPRINT, Be32(MaskedCrc(crc(start))))))
  {
    var sum := MaskedCrc(crc(start));
    var attr := WriteAttr(Attr(ATTR_FINGERPRINT, Be32(sum)));
    buf := start + attr;
    AppendAssociative(Header(Wrap16(|body| + 8), tid), body, attr);
    SetHeaderLength(Wrap16(|body| + 8), tid, body + attr, Wrap16(|body| + 8));
    buf := SetLength(buf, Wrap16(|buf| - HEADER_SIZE));
  }

  // ---------------------------------------------------------------- integrity

  /** Recomputes the hash over everything before MESSAGE-INTEGRITY, with the length field adjusted. */
  predicate VerifyMessageIntegrity(hmac: Hmac, m: Message, key: seq<u8>)
    requires |m.raw| >= HEADER_SIZE
  {
    var received := GetAttr(m.attributes, ATTR_MESSAGE_INTEGRITY);
    var at := FindAttrOffset(m.raw, HEADER_SIZE, ATTR_MESSAGE_INTEGRITY);
    && received.Some? && at.Some? && HEADER_SIZE <= at.value <= |m.raw|
    && hmac(IntegrityInput(m.raw, at.value), key) == received.value
  }

  function IntegrityInput(raw: seq<u8>, at: nat): seq<u8>
    requires HEADER_SIZE <= at <= |raw|
  {
    SetLength(raw[..at], Wrap16(at - HEADER_SIZE + 24))
  }

  lemma BuiltParses(crc: Crc, hmac: Hmac, tid: TransactionId, mapped: Mapped, key: seq<u8>)
    ensures var buf, attrs := Response(crc, hmac, tid, mapped, key), ResponseAttrs(crc, hmac, tid, mapped, key);
            Parse(buf) == Some(Message(BINDING_RESPONSE, |buf| - HEADER_SIZE, tid, attrs, buf))
  {
    var attrs, body := ResponseAttrs(crc, hmac, tid, mapped, key), ResponseBody(crc, hmac, tid, mapped, key);
    BodyIsAttrs(crc, hmac, tid, mapped, key);
    ShortAttrs(crc, hmac, tid, mapped, key);
    MessageRoundTrip(BINDING_RESPONSE, tid, attrs, []);
    assert Header(|body|, tid) + body + [] == Header(|body|, tid) + body;
  }

  lemma ShortAttrs(crc: Crc, hmac: Hmac, tid: TransactionId, mapped: Mapped, key: seq<u8>)
    ensures var attrs := ResponseAttrs(crc, hmac, tid, mapped, key);
            && Short(attrs)
            && |attrs| == 4 && attrs[0] == MappedAddress(mapped) && attrs[1] == Attr(ATTR_SOFTWARE, SOFTWARE)
            && attrs[2].attrType == ATTR_MESSAGE_INTEGRITY && attrs[3].attrType == ATTR_FINGERPRINT
  {
  }

  lemma BodyIsAttrs(crc: Crc, hmac: Hmac, tid: TransactionId, mapped: Mapped, key: seq<u8>)
    ensures ResponseBody(crc, hmac, tid, mapped, key) == WriteAttrs(ResponseAttrs(crc, hmac, tid, mapped, key))
  {
    var attrs := ResponseAttrs(crc, hmac, tid, mapped, key);
    FourWritten(WriteAttr, attrs[0], attrs[1], attrs[2], attrs[3]);
  }

  /** Parsing a built response gives back its four attributes in order, under the client's transaction id,
      and the client reads its own address from it. */
  lemma ResponseParses(crc: Crc, hmac: Hmac, tid: TransactionId, addr: SockAddr, key: seq<u8>)
    ensures var mapped := EncodeXorMappedAddress(addr, tid);
            var buf, attrs := Response(crc, hmac, tid, mapped, key), ResponseAttrs(crc, hmac, tid, mapped, key);
            && Parse(buf) == Some(Message(BINDING_RESPONSE, |buf| - HEADER_SIZE, tid, attrs, buf))
            && |attrs| == 4 && attrs[0].attrType == ATTR_XOR_MAPPED_ADDRESS && attrs[1] == Attr(ATTR_SOFTWARE, SOFTWARE)
            && attrs[2].attrType == ATTR_MESSAGE_INTEGRITY && attrs[3].attrType == ATTR_FINGERPRINT
            && DecodeXorMappedAddress(attrs[0].value, tid) == Some(addr)
  {
    BuiltParses(crc, hmac, tid, EncodeXorMappedAddress(addr, tid), key);
    ShortAttrs(crc, hmac, tid, EncodeXorMappedAddress(addr, tid), key);
    MappedAddressRoundTrip(addr, tid);
  }

  ghost predicate Lacks(attrs: seq<Attr>, t: u16) {
    forall i :: 0 <= i < |attrs| ==> attrs[i].attrType != t
  }

  lemma {:induction false} WriteAppend(w: Writer, a: seq<Attr>, b: seq<Attr>)
    ensures Written(w, a + b) == Written(w, a) + Written(w, b)
  {
    if a == [] {
      assert a + b == b;
    } else {
      WriteAppend(w, a[1..], b);
      assert (a + b)[1..] == a[1..] + b;
      AppendAssociative(w(a[0]), Written(w, a[1..]), Written(w, b));
    }
  }

  /** The parsed list is searched to its first attribute of the type. */
  lemma {:induction false} GetPast(attrs: seq<Attr>, a: Attr, rest: seq<Attr>)
    requires Lacks(attrs, a.attrType)
    ensures GetAttr(attrs, a.attrType) == None
    ensures GetAttr(attrs + [a] + rest, a.attrType) == Some(a.value)
  {
    if attrs != [] {
      GetPast(attrs[1..], a, rest);
      assert (attrs + [a] + rest)[1..] == attrs[1..] + [a] + rest;
    }
  }

  /** The scan stops at an attribute of type `t` and steps over any other. */
  ghost predicate Scans(w: Writer, find: (seq<u8>, nat, u16) -> Option<nat>, t: u16) {
    forall raw: seq<u8>, o: nat, a: Attr {:trigger StandsAt(w, raw, o, a)} ::
      StandsAt(w, raw, o, a) ==> find(raw, o, t) == if a.attrType == t then Some(o) else find(raw, o + |w(a)|, t)
  }

  lemma {:induction false} ScanPast(w: Writer, find: (seq<u8>, nat, u16) -> Option<nat>, raw: seq<u8>, o: nat,
                                    attrs: seq<Attr>, t: u16)
    requires Scans(w, find, t) && AllStand(w, raw, o, attrs) && Lacks(attrs, t)
    ensures find(raw, o, t) == find(raw, o + |Written(w, attrs)|, t)
    decreases |attrs|
  {
    if attrs != [] {
      ScanPast(w, find, raw, o + |w(attrs[0])|, attrs[1..], t);
    }
  }

  lemma ScanFinds(w: Writer, find: (seq<u8>, nat, u16) -> Option<nat>, head: seq<u8>, before: seq<Attr>, a: Attr,
                  rest: seq<u8>)
    requires Lacks(before, a.attrType) && |a.value| < 0x1_0000 && Short(before)
    ensures Scans(w, find, a.attrType) ==>
              find(head + Written(w, before) + (w(a) + rest), |head|, a.attrType) == Some(|head| + |Written(w, before)|)
  {
    var body := Written(w, before);
    var raw := head + body + (w(a) + rest);
    AppendAssociative(head, body, w(a) + rest);
    WrittenStand(w, head, before, w(a) + rest);
    if Scans(w, find, a.attrType) {
      ScanPast(w, find, raw, |head|, before, a.attrType);
    }
    Middle(head + body, w(a), rest);
    assert StandsAt(w, raw, |head| + |body|, a);
  }

  lemma ScanOne(raw: seq<u8>, o: nat, a: Attr, t: u16)
    requires StandsAt(WriteAttr, raw, o, a)
    ensures FindAttrOffset(raw, o, t) ==
            if a.attrType == t then Some(o) else FindAttrOffset(raw, o + |WriteAttr(a)|, t)
  {
    WrittenFields(raw, o, a);
  }

  function Scanner(): (seq<u8>, nat, u16) -> Option<nat> {
    (raw: seq<u8>, o: nat, t: u16) => FindAttrOffset(raw, o, t)
  }

  lemma OffsetScans(t: u16)
    ensures Scans(WriteAttr, Scanner(), t)
  {
    forall raw: seq<u8>, o: nat, a: Attr | StandsAt(WriteAttr, raw, o, a)
      ensures FindAttrOffset(raw, o, t) ==
              if a.attrType == t then Some(o) else FindAttrOffset(raw, o + |WriteAttr(a)|, t)
    {
      ScanOne(raw, o, a, t);
    }
  }

  /** Where the first attribute of a type is found in a written message. */
  lemma OffsetPast(head: seq<u8>, before: seq<Attr>, a: Attr, rest: seq<u8>)
    requires Lacks(before, a.attrType) && |a.value| < 0x1_0000 && Short(before)
    ensures Scanner()(head + WriteAttrs(before) + (WriteAttr(a) + rest), |head|, a.attrType) ==
            Some(|head| + |WriteAttrs(before)|)
  {
    OffsetScans(a.attrType);
    ScanFinds(WriteAttr, Scanner(), head, before, a, rest);
  }

  /** What the integrity check hashes in a message whose MESSAGE-INTEGRITY stands behind `before`. */
  function Signed(msgType: u16, tid: TransactionId, before: seq<Attr>): seq<u8> {
    HeaderOf(msgType, Wrap16(|WriteAttrs(before)| + 24), tid) + WriteAttrs(before)
  }

  lemma InputIsSigned(msgType: u16, length: u16, tid: TransactionId, before: seq<Attr>, rest: seq<u8>)
    ensures var raw := HeaderOf(msgType, length, tid) + WriteAttrs(before) + rest;
            IntegrityInput(raw, HEADER_SIZE + |WriteAttrs(before)|) == Signed(msgType, tid, before)
  {
    var body := WriteAttrs(before);
    var head := HeaderOf(msgType, length, tid);
    assert (head + body + rest)[..HEADER_SIZE + |body|] == head + body;
    assert (head + body)[..2] == Be16(msgType);
    assert (head + body)[4..] == Be32(MAGIC_COOKIE) + tid + body;
  }

  lemma WrittenWith(before: seq<Attr>, a: Attr, after: seq<Attr>)
    ensures WriteAttrs(before + [a] + after) == WriteAttrs(before) + WriteAttr(a) + WriteAttrs(after)
  {
    WriteAppend(WriteAttr, before + [a], after);
    WriteAppend(WriteAttr, before, [a]);
    TwoWritten(WriteAttr, a, a);
  }

  lemma Regroup<T>(h: seq<T>, x: seq<T>, y: seq<T>, z: seq<T>)
    ensures h + (x + y + z) == h + x + y + z && h + x + y + z == h + x + (y + z)
  {
  }

  lemma SignedMessage(hmac: Hmac, key: seq<u8>, m: Message, length: u16, before: seq<Attr>, a: Attr, after: seq<Attr>,
                      rest: seq<u8>)
    requires a.attrType == ATTR_MESSAGE_INTEGRITY && Lacks(before, a.attrType) && |a.value| < 0x1_0000 && Short(before)
    requires m.attributes == before + [a] + after
    requires m.raw == HeaderOf(m.msgType, length, m.tid) + WriteAttrs(before) + (WriteAttr(a) + rest)
    ensures VerifyMessageIntegrity(hmac, m, key) <==> a.value == hmac(Signed(m.msgType, m.tid, before), key)
  {
    GetPast(before, a, after);
    OffsetPast(HeaderOf(m.msgType, length, m.tid), before, a, rest);
    InputIsSigned(m.msgType, length, m.tid, before, WriteAttr(a) + rest);
    VerifiesWith(hmac, m, key, HEADER_SIZE + |WriteAttrs(before)|, a.value);
  }

  lemma WrittenSigned(head: seq<u8>, before: seq<Attr>, a: Attr, after: seq<Attr>)
    ensures head + WriteAttrs(before + [a] + after) == head + WriteAttrs(before) + (WriteAttr(a) + WriteAttrs(after))
  {
    WrittenWith(before, a, after);
    Regroup(head, WriteAttrs(before), WriteAttr(a), WriteAttrs(after));
  }

  lemma PartsWritable(before: seq<Attr>, a: Attr, after: seq<Attr>)
    requires Writable(before + [a] + after)
    ensures |a.value| < 0x1_0000 && Short(before)
  {
    var attrs := before + [a] + after;
    assert a == attrs[|before|] && forall i :: 0 <= i < |before| ==> before[i] == attrs[i];
  }

  /** A message of any type and any attributes passes the integrity check exactly when its first MESSAGE-INTEGRITY is
      the keyed hash of what precedes it, taken with the length field ending there; what follows is not covered. */
  lemma IntegrityIff(hmac: Hmac, key: seq<u8>, msgType: u16, tid: TransactionId, before: seq<Attr>, mac: seq<u8>,
                     after: seq<Attr>)
    requires msgType < 0x4000 && Lacks(before, ATTR_MESSAGE_INTEGRITY)
    requires Writable(before + [Attr(ATTR_MESSAGE_INTEGRITY, mac)] + after)
    ensures var body := WriteAttrs(before + [Attr(ATTR_MESSAGE_INTEGRITY, mac)] + after);
            var m := Parse(HeaderOf(msgType, |body|, tid) + body);
            && m.Some? && |m.value.raw| >= HEADER_SIZE
            && (VerifyMessageIntegrity(hmac, m.value, key) <==> mac == hmac(Signed(msgType, tid, before), key))
  {
    var a := Attr(ATTR_MESSAGE_INTEGRITY, mac);
    var attrs := before + [a] + after;
    var length := |WriteAttrs(attrs)|;
    var raw := HeaderOf(msgType, length, tid) + WriteAttrs(attrs);
    PartsWritable(before, a, after);
    MessageRoundTrip(msgType, tid, attrs, []);
    assert raw + [] == raw;
    WrittenSigned(HeaderOf(msgType, length, tid), before, a, after);
    SignedMessage(hmac, key, Message(msgType, length, tid, attrs, raw), length, before, a, after, WriteAttrs(after));
  }

  /** A message without MESSAGE-INTEGRITY is refused, whatever the key. */
  lemma UnsignedRefused(hmac: Hmac, key: seq<u8>, m: Message)
    requires |m.raw| >= HEADER_SIZE && Lacks(m.attributes, ATTR_MESSAGE_INTEGRITY)
    ensures !VerifyMessageIntegrity(hmac, m, key)
  {
    GetPast(m.attributes, Attr(ATTR_MESSAGE_INTEGRITY, []), []);
  }

  lemma VerifiesWith(hmac: Hmac, m: Message, key: seq<u8>, at: nat, v: seq<u8>)
    requires GetAttr(m.attributes, ATTR_MESSAGE_INTEGRITY) == Some(v)
    requires Scanner()(m.raw, HEADER_SIZE, ATTR_MESSAGE_INTEGRITY) == Some(at) && HEADER_SIZE <= at <= |m.raw|
    ensures VerifyMessageIntegrity(hmac, m, key) <==> hmac(IntegrityInput(m.raw, at), key) == v
  {
  }

  lemma CoveredIsAttrs(tid: TransactionId, mapped: Mapped)
    ensures var before := [MappedAddress(mapped), Attr(ATTR_SOFTWARE, SOFTWARE)];
            && Covered(mapped) == WriteAttrs(before) && Lacks(before, ATTR_MESSAGE_INTEGRITY)
            && Signed(BINDING_RESPONSE, tid, before) == Header(|Covered(mapped)| + 24, tid) + Covered(mapped)
  {
    var a, b := MappedAddress(mapped), Attr(ATTR_SOFTWARE, SOFTWARE);
    TwoWritten(WriteAttr, a, b);
  }

  /** The client's check of a built response with any key succeeds exactly when that key gives the same hash; so it does
      with the key the response was built with. */
  lemma ResponseVerifies(crc: Crc, hmac: Hmac, tid: TransactionId, mapped: Mapped, key: seq<u8>, other: seq<u8>)
    ensures var m := Parse(Response(crc, hmac, tid, mapped, key));
            var covered := [MappedAddress(mapped), Attr(ATTR_SOFTWARE, SOFTWARE)];
            && m.Some? && |m.value.raw| >= HEADER_SIZE
            && (VerifyMessageIntegrity(hmac, m.value, other) <==>
                  hmac(Signed(BINDING_RESPONSE, tid, covered), other) ==
                  hmac(Signed(BINDING_RESPONSE, tid, covered), key))
  {
    var attrs := ResponseAttrs(crc, hmac, tid, mapped, key);
    var before := [MappedAddress(mapped), Attr(ATTR_SOFTWARE, SOFTWARE)];
    BodyIsAttrs(crc, hmac, tid, mapped, key);
    ShortAttrs(crc, hmac, tid, mapped, key);
    CoveredIsAttrs(tid, mapped);
    assert attrs == before + [attrs[2]] + [attrs[3]];
    IntegrityIff(hmac, other, BINDING_RESPONSE, tid, before, attrs[2].value, [attrs[3]]);
  }

  lemma BeforeLast(head: seq<u8>, body: seq<u8>, last: seq<u8>)
    ensures var buf := head + (body + last); buf[..|buf| - |last|] == head + body
  {
  }

  lemma Unmasked(sum: u32)
    ensures Xor(U32At(Be32(MaskedCrc(sum)), 0), FINGERPRINT_XOR) == sum
  {
    Be32At(Be32(MaskedCrc(sum)), 0, MaskedCrc(sum));
    XorInverse(sum, FINGERPRINT_XOR);
  }

  lemma FingerprintCovers(crc: Crc, hmac: Hmac, tid: TransactionId, mapped: Mapped, key: seq<u8>)
    ensures var buf := Response(crc, hmac, tid, mapped, key);
            |buf| >= 8 && Fingerprint(crc, hmac, tid, mapped, key).value == Be32(MaskedCrc(crc(buf[..|buf| - 8])))
  {
    var body := Covered(mapped) + WriteAttr(Integrity(hmac, tid, mapped, key));
    BeforeLast(Header(|body| + 8, tid), body, WriteAttr(Fingerprint(crc, hmac, tid, mapped, key)));
  }

  /** FINGERPRINT, taken off its mask, is the checksum of everything before it. */
  lemma ResponseFingerprint(crc: Crc, hmac: Hmac, tid: TransactionId, mapped: Mapped, key: seq<u8>)
    ensures var buf := Response(crc, hmac, tid, mapped, key);
            var m := Parse(buf);
            && |buf| >= 8 && m.Some? && |m.value.attributes| == 4
            && m.value.attributes[3].attrType == ATTR_FINGERPRINT && |m.value.attributes[3].value| == 4
            && Xor(U32At(m.value.attributes[3].value, 0), FINGERPRINT_XOR) == crc(buf[..|buf| - 8])
  {
    var buf := Response(crc, hmac, tid, mapped, key);
    BuiltParses(crc, hmac, tid, mapped, key);
    ShortAttrs(crc, hmac, tid, mapped, key);
    FingerprintCovers(crc, hmac, tid, mapped, key);
    Unmasked(crc(buf[..|buf| - 8]));
  }
}
