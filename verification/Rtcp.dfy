/** Compound RTCP: splitting and classifying blocks, and the floor-control messages carried in
    APP packets (section 6.7 of RFC 3550). UTF-8 validity is a parameter. */
module Rtcp {
  import opened Words

  const PT_SR: u8 := 200
  const PT_RR: u8 := 201
  const PT_APP: u8 := 204
  const PT_NACK: u8 := 205
  const PT_PSFB: u8 := 206
  const FMT_NACK: u8 := 1
  const FMT_PLI: u8 := 1
  const FMT_REMB: u8 := 15
  /** "MBCP" */
  const APP_NAME: seq<u8> := [77, 66, 67, 80]

  type Utf8 = seq<u8> -> bool

  datatype BlockRef = BlockRef(offset: nat, length: nat, mediaSsrc: u32)
  datatype Mbcp = Mbcp(subtype: u8, ssrc: u32, data: Option<seq<u8>>)

  /** One thing found in a compound. */
  datatype Item =
    | NackBlock(bytes: seq<u8>)
    | Relay(ref: BlockRef)
    | FloorMessage(message: Mbcp)
    | SenderReport(ref: BlockRef)
    | ReceiverReport(ref: BlockRef)

  /** `CompoundRtcpParsed`: the findings, one list per kind. */
  datatype Parsed = Parsed(
    nacks: seq<seq<u8>>, relays: seq<BlockRef>, mbcps: seq<Mbcp>, srs: seq<BlockRef>, rrs: seq<BlockRef>)

  function Add(p: Parsed, item: Item): Parsed {
    match item
    case NackBlock(bytes) => p.(nacks := p.nacks + [bytes])
    case Relay(ref) => p.(relays := p.relays + [ref])
    case FloorMessage(m) => p.(mbcps := p.mbcps + [m])
    case SenderReport(ref) => p.(srs := p.srs + [ref])
    case ReceiverReport(ref) => p.(rrs := p.rrs + [ref])
  }

  /** The items by kind, each kind in order. */
  function Collected(items: seq<Item>): Parsed {
    if items == [] then Parsed([], [], [], [], [])
    else Add(Collected(items[..|items| - 1]), items[|items| - 1])
  }

  // ---------------------------------------------------------------- MBCP messages

  function UpToZero(s: seq<u8>): (r: seq<u8>)
    ensures |r| <= |s| && r == s[..|r|]
    ensures forall i :: 0 <= i < |r| ==> r[i] != 0
    ensures |r| < |s| ==> s[|r|] == 0
  {
    if s == [] || s[0] == 0 then [] else [s[0]] + UpToZero(s[1..])
  }

  function ParseMbcp(utf8: Utf8, b: seq<u8>): Option<Mbcp> {
    if |b| < 12 || b[1] != PT_APP || b[8..12] != APP_NAME then None
    else
      var text := UpToZero(b[12..]);
      Some(Mbcp(b[0] % 0x20, U32At(b, 4), if text == [] || !utf8(text) then None else Some(text)))
  }

  function AppHead(subtype: u8, lengthField: u16, ssrc: u32): (head: seq<u8>)
    ensures |head| == 12
  {
    [0x80 + subtype % 0x20, PT_APP] + Be16(lengthField) + Be32(ssrc) + APP_NAME
  }

  function BuildMbcp(subtype: u8, ssrc: u32, data: Option<seq<u8>>): (b: seq<u8>)
    ensures |b| == 12 + Ceil4(if data.Some? then |data.value| else 0)
  {
    var text := if data.Some? then data.value else [];
    AppHead(subtype, Wrap16((12 + Ceil4(|text|)) / 4 - 1), ssrc) + text + Zeros(Ceil4(|text|) - |text|)
  }

  method BuildMbcpApp(subtype: u8, ssrc: u32, data: Option<seq<u8>>) returns (packet: seq<u8>)
    ensures packet == BuildMbcp(subtype, ssrc, data)
  {
    var text := if data.Some? then data.value else [];
    var totalLen := 12 + Ceil4(|text|);
    var lengthField := totalLen / 4 - 1;
    var buf := new u8[totalLen](_ => 0);
    WriteAppHead(buf, subtype, Wrap16(lengthField), ssrc);
    WriteField(buf, 12, text);
    packet := buf[..];
    assert buf[12 + |text|..] == Zeros(Ceil4(|text|) - |text|);
    assert packet == buf[..12 + |text|] + buf[12 + |text|..];
  }

  method WriteAppHead(buf: array<u8>, subtype: u8, lengthField: u16, ssrc: u32)
    requires buf.Length >= 12
    modifies buf
    ensures buf[..12] == AppHead(subtype, lengthField, ssrc)
    ensures forall i :: 12 <= i < buf.Length ==> buf[i] == old(buf[i])
  {
    buf[0] := 0x80 + subtype % 0x20;
    buf[1] := PT_APP;
    WriteField(buf, 2, Be16(lengthField));
    WriteField(buf, 4, Be32(ssrc));
    WriteField(buf, 8, APP_NAME);
  }

  lemma MbcpFields(subtype: u8, ssrc: u32, data: Option<seq<u8>>)
    ensures var b := BuildMbcp(subtype, ssrc, data);
            var text := if data.Some? then data.value else [];
            && b[0] == 0x80 + subtype % 0x20 && b[1] == PT_APP && U16At(b, 2) == Wrap16(|b| / 4 - 1)
            && U32At(b, 4) == ssrc && b[8..12] == APP_NAME && b[12..] == text + Zeros(Ceil4(|text|) - |text|)
  {
    var b := BuildMbcp(subtype, ssrc, data);
    var text := if data.Some? then data.value else [];
    assert b[2..4] == Be16(Wrap16(|b| / 4 - 1));
    assert b[4..8] == Be32(ssrc);
    assert b[8..12] == APP_NAME;
    assert b[12..] == text + Zeros(Ceil4(|text|) - |text|);
    Be16At(b, 2, Wrap16(|b| / 4 - 1));
    Be32At(b, 4, ssrc);
  }

  lemma {:induction false} UpToZeroOfPadded(text: seq<u8>, n: nat)
    ensures UpToZero(text + Zeros(n)) == UpToZero(text)
  {
    var s := text + Zeros(n);
    if text == [] {
      assert n > 0 ==> s[0] == 0;
    } else {
      assert s[1..] == text[1..] + Zeros(n);
      UpToZeroOfPadded(text[1..], n);
    }
  }

  /** A message reads back with its subtype, sender and text cut at the first zero byte; the text itself
      comes back exactly when it is valid, non-empty and free of zero bytes. */
  lemma MbcpRoundTrip(utf8: Utf8, subtype: u8, ssrc: u32, text: seq<u8>)
    ensures var m := ParseMbcp(utf8, BuildMbcp(subtype, ssrc, Some(text)));
            && m.Some? && m.value.subtype == subtype % 0x20 && m.value.ssrc == ssrc
            && (m.value.data == Some(text) <==> text != [] && 0 !in text && utf8(text))
    ensures ParseMbcp(utf8, BuildMbcp(subtype, ssrc, None)) == Some(Mbcp(subtype % 0x20, ssrc, None))
  {
    MbcpTextRoundTrip(utf8, subtype, ssrc, text);
    MbcpFields(subtype, ssrc, None);
    UpToZeroOfPadded([], 0);
  }

  lemma MbcpTextRoundTrip(utf8: Utf8, subtype: u8, ssrc: u32, text: seq<u8>)
    ensures var m := ParseMbcp(utf8, BuildMbcp(subtype, ssrc, Some(text)));
            && m.Some? && m.value.subtype == subtype % 0x20 && m.value.ssrc == ssrc
            && (m.value.data == Some(text) <==> text != [] && 0 !in text && utf8(text))
  {
    MbcpFields(subtype, ssrc, Some(text));
    UpToZeroOfPadded(text, Ceil4(|text|) - |text|);
    WholeIffNoZero(text);
  }

  lemma WholeIffNoZero(text: seq<u8>)
    ensures UpToZero(text) == text <==> 0 !in text
  {
    var r := UpToZero(text);
    if |r| == |text| {
      assert r == text;
    } else {
      assert text[|r|] in text;
    }
  }

  /** `t` is the text of `s`: everything up to its first zero byte, or all of it. */
  ghost predicate IsText(t: seq<u8>, s: seq<u8>) {
    t <= s && (forall i :: 0 <= i < |t| ==> t[i] != 0) && (|t| < |s| ==> s[|t|] == 0)
  }

  lemma OneText(t: seq<u8>, u: seq<u8>, s: seq<u8>)
    requires IsText(t, s) && IsText(u, s)
    ensures t == u
  {
  }

  /** Exactly the APP blocks that bear the name are messages, and their text is what stands before the first zero byte,
      if that is anything and valid. */
  lemma MbcpIff(utf8: Utf8, b: seq<u8>)
    ensures ParseMbcp(utf8, b).Some? <==> |b| >= 12 && b[1] == PT_APP && b[8..12] == APP_NAME
    ensures ParseMbcp(utf8, b).Some? ==>
              var m := ParseMbcp(utf8, b).value;
              && m.subtype == b[0] % 0x20 && m.ssrc == U32At(b, 4)
              && (forall t: seq<u8> :: m.data == Some(t) <==> IsText(t, b[12..]) && t != [] && utf8(t))
  {
    if ParseMbcp(utf8, b).Some? {
      var text := UpToZero(b[12..]);
      assert IsText(text, b[12..]);
      forall t: seq<u8> | IsText(t, b[12..]) ensures t == text {
        OneText(t, text, b[12..]);
      }
    }
  }

  // ---------------------------------------------------------------- splitting

  /** What a block contributes, given the bytes from its start to the end of the compound, its offset and its
      length. */
  type Classifier = (seq<u8>, nat, nat) -> Option<Item>

  /** The server's classifier. */
  function Classifying(utf8: Utf8): Classifier {
    (tail: seq<u8>, offset: nat, n: nat) => if 4 <= n <= |tail| then Classify(utf8, tail, offset, n) else None
  }

  /** The media SSRC is taken from bytes 8 to 11 even if those belong to the next block. */
  function Classify(utf8: Utf8, tail: seq<u8>, offset: nat, n: nat): Option<Item>
    requires 4 <= n <= |tail|
  {
    var fmt, pt := tail[0] % 0x20, tail[1];
    var at := BlockRef(offset, n, if |tail| >= 12 then U32At(tail, 8) else 0);
    if pt == PT_NACK && fmt == FMT_NACK then Some(NackBlock(tail[..n]))
    else if pt == PT_APP then
      var m := ParseMbcp(utf8, tail[..n]);
      if m.Some? then Some(FloorMessage(m.value)) else None
    else if pt == PT_SR then Some(SenderReport(at))
    else if pt == PT_RR then Some(ReceiverReport(at))
    else if pt == PT_PSFB && (fmt == FMT_PLI || fmt == FMT_REMB) then Some(Relay(at))
    else None
  }

  /** The length a block header at `o` claims. */
  function BlockLength(buf: seq<u8>, o: nat): (n: nat)
    requires o + 4 <= |buf|
    ensures n >= 4
  {
    4 * (U16At(buf, o + 2) + 1)
  }

  /** A block that fits starts at `o`. */
  predicate BlockAt(buf: seq<u8>, o: nat) {
    o + 4 <= |buf| && o + BlockLength(buf, o) <= |buf|
  }

  function Listed(found: Option<Item>): seq<Item> {
    if found.Some? then [found.value] else []
  }

  function AddFound(p: Parsed, found: Option<Item>): Parsed {
    if found.Some? then Add(p, found.value) else p
  }

  function Split(c: Classifier, buf: seq<u8>, o: nat): seq<Item>
    requires o <= |buf|
    decreases |buf| - o
  {
    if !BlockAt(buf, o) then []
    else
      var n := BlockLength(buf, o);
      Listed(c(buf[o..], o, n)) + Split(c, buf, o + n)
  }

  /** The same, collecting by kind into `p`. */
  function SplitInto(c: Classifier, buf: seq<u8>, o: nat, p: Parsed): Parsed
    requires o <= |buf|
    decreases |buf| - o
  {
    if !BlockAt(buf, o) then p
    else
      var n := BlockLength(buf, o);
      var item := c(buf[o..], o, n);
      SplitInto(c, buf, o + n, AddFound(p, item))
  }

  /** The items added to `p` one after the other. */
  function AddAll(p: Parsed, items: seq<Item>): Parsed
    decreases items
  {
    if items == [] then p else AddAll(Add(p, items[0]), items[1..])
  }

  lemma AddListed(p: Parsed, item: Option<Item>, rest: seq<Item>)
    ensures AddAll(p, Listed(item) + rest) == AddAll(AddFound(p, item), rest)
  {
    if item.None? {
      assert Listed(item) + rest == rest;
    } else {
      assert (Listed(item) + rest)[1..] == rest;
    }
  }

  lemma {:induction false} SplitAdds(c: Classifier, buf: seq<u8>, o: nat, p: Parsed)
    requires o <= |buf|
    ensures SplitInto(c, buf, o, p) == AddAll(p, Split(c, buf, o))
    decreases |buf| - o
  {
    if BlockAt(buf, o) {
      var n := BlockLength(buf, o);
      var item := c(buf[o..], o, n);
      SplitAdds(c, buf, o + n, AddFound(p, item));
      AddListed(p, item, Split(c, buf, o + n));
    }
  }

  lemma {:induction false} AddAllCollects(found: seq<Item>, items: seq<Item>)
    ensures AddAll(Collected(found), items) == Collected(found + items)
    decreases items
  {
    if items == [] {
      assert found + items == found;
    } else {
      CollectedGrows(found, items[0]);
      AddAllCollects(found + [items[0]], items[1..]);
      assert found + [items[0]] + items[1..] == found + items;
    }
  }

  method SplitCompound(c: Classifier, buf: seq<u8>) returns (result: Parsed)
    ensures result == Collected(Split(c, buf, 0))
  {
    result := Parsed([], [], [], [], []);
    var offset := 0;
    while offset + 4 <= |buf|
      invariant offset <= |buf| && SplitInto(c, buf, offset, result) == SplitInto(c, buf, 0, Collected([]))
      decreases |buf| - offset
    {
      var n := BlockLength(buf, offset);
      if offset + n > |buf| {
        break;
      }
      var item := c(buf[offset..], offset, n);
      if item.Some? {
        result := Add(result, item.value);
      }
      offset := offset + n;
    }
    SplitWhole(c, buf);
  }

  lemma SplitWhole(c: Classifier, buf: seq<u8>)
    ensures SplitInto(c, buf, 0, Collected([])) == Collected(Split(c, buf, 0))
  {
    SplitAdds(c, buf, 0, Collected([]));
    AddAllCollects([], Split(c, buf, 0));
    assert [] + Split(c, buf, 0) == Split(c, buf, 0);
  }

  lemma CollectedGrows(found: seq<Item>, item: Item)
    ensures Collected(found + [item]) == Add(Collected(found), item)
  {
    assert (found + [item])[..|found|] == found;
  }

  // ---------------------------------------------------------------- compounds of whole blocks

  predicate WellFormed(b: seq<u8>) {
    |b| >= 4 && |b| == BlockLength(b, 0)
  }

  /** Every block is well-formed and has at least `least` bytes. */
  predicate AllWellFormed(blocks: seq<seq<u8>>, least: nat) {
    blocks == [] || (WellFormed(blocks[0]) && |blocks[0]| >= least && AllWellFormed(blocks[1..], least))
  }

  /** `assemble_compound`: the blocks one after the other. */
  function Assemble(blocks: seq<seq<u8>>): seq<u8> {
    if blocks == [] then [] else blocks[0] + Assemble(blocks[1..])
  }

  /** Each block classified on its own, placed at its offset. */
  function ClassifyEach(c: Classifier, blocks: seq<seq<u8>>, offset: nat): seq<Item> {
    if blocks == [] then []
    else Listed(c(blocks[0], offset, |blocks[0]|)) + ClassifyEach(c, blocks[1..], offset + |blocks[0]|)
  }

  /** The same reference without a media SSRC its block is too short to hold. */
  function OwnRef(r: BlockRef): BlockRef {
    if r.length < 12 then r.(mediaSsrc := 0) else r
  }

  function Own(item: Item): Item {
    match item
    case NackBlock(_) => item
    case FloorMessage(_) => item
    case Relay(ref) => Relay(OwnRef(ref))
    case SenderReport(ref) => SenderReport(OwnRef(ref))
    case ReceiverReport(ref) => ReceiverReport(OwnRef(ref))
  }

  function OwnPart(found: Option<Item>): Option<Item> {
    if found.Some? then Some(Own(found.value)) else None
  }

  /** The classifier that only looks at the block itself: no media SSRC from beyond a short block's end. */
  function OwnClassifying(utf8: Utf8): Classifier {
    (tail: seq<u8>, offset: nat, n: nat) => OwnPart(Classifying(utf8)(tail, offset, n))
  }

  /** Whether a classifier gives each block of at least `least` bytes the same meaning in a compound as alone. */
  ghost predicate Local(c: Classifier, least: nat) {
    forall b: seq<u8>, tail: seq<u8>, o: nat {:trigger c(tail, o, |b|)} ::
      WellFormed(b) && |b| >= least && b <= tail ==> c(tail, o, |b|) == c(b, o, |b|)
  }

  /** A block reads the same inside a compound as alone, a short block's media SSRC aside. */
  lemma ClassifyAlone(utf8: Utf8, b: seq<u8>, tail: seq<u8>, offset: nat)
    requires WellFormed(b) && b <= tail
    ensures OwnPart(Classify(utf8, tail, offset, |b|)) == Classify(utf8, b, offset, |b|)
    ensures |b| >= 12 ==> Classify(utf8, tail, offset, |b|) == Classify(utf8, b, offset, |b|)
  {
    assert tail[..|b|] == b[..|b|];
  }

  lemma ClassifiersLocal(utf8: Utf8)
    ensures Local(OwnClassifying(utf8), 4) && Local(Classifying(utf8), 12)
  {
    forall b: seq<u8>, tail: seq<u8>, o: nat | WellFormed(b) && b <= tail
      ensures OwnClassifying(utf8)(tail, o, |b|) == OwnClassifying(utf8)(b, o, |b|)
      ensures |b| >= 12 ==> Classifying(utf8)(tail, o, |b|) == Classifying(utf8)(b, o, |b|)
    {
      ClassifyAlone(utf8, b, tail, o);
      ClassifyAlone(utf8, b, b, o);
      assert Classifying(utf8)(tail, o, |b|) == Classify(utf8, tail, o, |b|);
      assert Classifying(utf8)(b, o, |b|) == Classify(utf8, b, o, |b|);
    }
  }

  /** The blocks fill the buffer from `o` to its end. */
  predicate Laid(buf: seq<u8>, o: nat, blocks: seq<seq<u8>>)
    decreases blocks
  {
    if blocks == [] then o == |buf|
    else o + |blocks[0]| <= |buf| && blocks[0] <= buf[o..] && Laid(buf, o + |blocks[0]|, blocks[1..])
  }

  lemma {:induction false} AssembleLaid(pre: seq<u8>, blocks: seq<seq<u8>>)
    ensures Laid(pre + Assemble(blocks), |pre|, blocks)
    decreases |blocks|
  {
    if blocks != [] {
      var b, rest := blocks[0], Assemble(blocks[1..]);
      var buf := pre + (b + rest);
      AppendAssociative(pre, b, rest);
      assert buf[|pre|..] == b + rest;
      AssembleLaid(pre + b, blocks[1..]);
    }
  }

  lemma LaidFirst(c: Classifier, buf: seq<u8>, o: nat, b: seq<u8>)
    requires WellFormed(b) && o + |b| <= |buf| && b <= buf[o..]
    ensures Split(c, buf, o) == Listed(c(buf[o..], o, |b|)) + Split(c, buf, o + |b|)
  {
    var tail := buf[o..];
    assert buf[o + 2] == tail[2] == b[2] && buf[o + 3] == tail[3] == b[3];
    assert BlockLength(buf, o) == |b|;
  }

  lemma {:induction false} OwnEach(utf8: Utf8, blocks: seq<seq<u8>>, offset: nat)
    requires AllWellFormed(blocks, 4)
    ensures ClassifyEach(OwnClassifying(utf8), blocks, offset) == ClassifyEach(Classifying(utf8), blocks, offset)
  {
    if blocks != [] {
      ClassifyAlone(utf8, blocks[0], blocks[0], offset);
      OwnEach(utf8, blocks[1..], offset + |blocks[0]|);
    }
  }

  /** `OwnClassifying` differs from the server's classifier only in media SSRCs: item by item, the one's split is
      the own part of the other's. */
  lemma {:induction false} OwnSplit(utf8: Utf8, buf: seq<u8>, o: nat)
    requires o <= |buf|
    ensures var own, all := Split(OwnClassifying(utf8), buf, o), Split(Classifying(utf8), buf, o);
            |own| == |all| && forall i :: 0 <= i < |all| ==> own[i] == Own(all[i])
    decreases |buf| - o
  {
    if BlockAt(buf, o) {
      OwnSplit(utf8, buf, o + BlockLength(buf, o));
    }
  }

  /** The blocks the server refers to by offset, length and media SSRC: reports, PLI and REMB. */
  predicate Referred(b: seq<u8>)
    requires |b| >= 4
  {
    b[1] == PT_SR || b[1] == PT_RR || (b[1] == PT_PSFB && (b[0] % 0x20 == FMT_PLI || b[0] % 0x20 == FMT_REMB))
  }

  /** Block `b` at the front of `tail` takes nothing from behind its end: it is long enough, or not referred to, or too
      little follows, or what would be taken reads 0. */
  predicate KeepsOwn(b: seq<u8>, tail: seq<u8>)
    requires |b| >= 4
  {
    |b| >= 12 || !Referred(b) || |tail| < 12 || U32At(tail, 8) == 0
  }

  predicate NothingBorrowed(blocks: seq<seq<u8>>)
    requires AllWellFormed(blocks, 4)
  {
    blocks == [] || (KeepsOwn(blocks[0], Assemble(blocks)) && NothingBorrowed(blocks[1..]))
  }

  lemma AloneIffKeepsOwn(utf8: Utf8, b: seq<u8>, tail: seq<u8>, offset: nat)
    requires WellFormed(b) && b <= tail
    ensures Classify(utf8, tail, offset, |b|) == Classify(utf8, b, offset, |b|) <==> KeepsOwn(b, tail)
    ensures Classify(utf8, tail, offset, |b|).Some? <==> Classify(utf8, b, offset, |b|).Some?
  {
    ClassifyAlone(utf8, b, tail, offset);
  }

  lemma {:induction false} LaidTail(buf: seq<u8>, o: nat, blocks: seq<seq<u8>>)
    requires o <= |buf| && Laid(buf, o, blocks)
    ensures buf[o..] == Assemble(blocks)
    decreases blocks
  {
    if blocks != [] {
      var b := blocks[0];
      LaidTail(buf, o + |b|, blocks[1..]);
      assert buf[o..] == buf[o..][..|b|] + buf[o + |b|..];
    }
  }

  lemma SameHeads<T>(a: seq<T>, b: seq<T>, x: seq<T>, y: seq<T>)
    requires |a| == |b|
    ensures a + x == b + y <==> a == b && x == y
  {
    if a + x == b + y {
      assert a == (a + x)[..|a|] && b == (b + y)[..|b|];
      assert x == (a + x)[|a|..] && y == (b + y)[|b|..];
    }
  }

  /** The classifier finds something in each block of the compound exactly when it does in the block alone. */
  ghost predicate FindsAlike(c: Classifier, buf: seq<u8>, o: nat, blocks: seq<seq<u8>>)
    requires o <= |buf| && Laid(buf, o, blocks)
    decreases blocks
  {
    blocks != [] ==>
      && (c(buf[o..], o, |blocks[0]|).Some? <==> c(blocks[0], o, |blocks[0]|).Some?)
      && FindsAlike(c, buf, o + |blocks[0]|, blocks[1..])
  }

  ghost predicate AllAlone(c: Classifier, buf: seq<u8>, o: nat, blocks: seq<seq<u8>>)
    requires o <= |buf| && Laid(buf, o, blocks)
    decreases blocks
  {
    blocks != [] ==>
      && c(buf[o..], o, |blocks[0]|) == c(blocks[0], o, |blocks[0]|)
      && AllAlone(c, buf, o + |blocks[0]|, blocks[1..])
  }

  lemma SplitEnd(c: Classifier, buf: seq<u8>)
    ensures Split(c, buf, |buf|) == []
  {
  }

  lemma SplitStepIff(c: Classifier, buf: seq<u8>, o: nat, b: seq<u8>, y: seq<Item>)
    requires WellFormed(b) && o + |b| <= |buf| && b <= buf[o..]
    requires c(buf[o..], o, |b|).Some? <==> c(b, o, |b|).Some?
    ensures Split(c, buf, o) == Listed(c(b, o, |b|)) + y <==>
            c(buf[o..], o, |b|) == c(b, o, |b|) && Split(c, buf, o + |b|) == y
  {
    LaidFirst(c, buf, o, b);
    SameHeads(Listed(c(buf[o..], o, |b|)), Listed(c(b, o, |b|)), Split(c, buf, o + |b|), y);
  }

  lemma {:induction false} SplitIsEachIff(c: Classifier, buf: seq<u8>, o: nat, blocks: seq<seq<u8>>)
    requires AllWellFormed(blocks, 4) && o <= |buf| && Laid(buf, o, blocks) && FindsAlike(c, buf, o, blocks)
    ensures Split(c, buf, o) == ClassifyEach(c, blocks, o) <==> AllAlone(c, buf, o, blocks)
    decreases |blocks|
  {
    if blocks == [] {
      SplitEnd(c, buf);
    } else {
      var b := blocks[0];
      SplitStepIff(c, buf, o, b, ClassifyEach(c, blocks[1..], o + |b|));
      SplitIsEachIff(c, buf, o + |b|, blocks[1..]);
    }
  }

  lemma {:induction false} LocalAlone(c: Classifier, buf: seq<u8>, o: nat, blocks: seq<seq<u8>>, least: nat)
    requires AllWellFormed(blocks, least) && Local(c, least) && o <= |buf| && Laid(buf, o, blocks)
    ensures AllWellFormed(blocks, 4) && FindsAlike(c, buf, o, blocks) && AllAlone(c, buf, o, blocks)
    decreases |blocks|
  {
    if blocks != [] {
      var b := blocks[0];
      assert c(buf[o..], o, |b|) == c(b, o, |b|);
      LocalAlone(c, buf, o + |b|, blocks[1..], least);
    }
  }

  /** Splitting a buffer of well-formed blocks finds every block, in order and at its place. */
  lemma SplitLaid(c: Classifier, buf: seq<u8>, o: nat, blocks: seq<seq<u8>>, least: nat)
    requires AllWellFormed(blocks, least) && Local(c, least) && o <= |buf| && Laid(buf, o, blocks)
    ensures Split(c, buf, o) == ClassifyEach(c, blocks, o)
  {
    LocalAlone(c, buf, o, blocks, least);
    SplitIsEachIff(c, buf, o, blocks);
  }

  lemma {:induction false} AloneIffNothingBorrowed(utf8: Utf8, buf: seq<u8>, o: nat, blocks: seq<seq<u8>>)
    requires AllWellFormed(blocks, 4) && o <= |buf| && Laid(buf, o, blocks)
    ensures FindsAlike(Classifying(utf8), buf, o, blocks)
    ensures AllAlone(Classifying(utf8), buf, o, blocks) <==> NothingBorrowed(blocks)
    decreases |blocks|
  {
    if blocks != [] {
      var c, b, tail := Classifying(utf8), blocks[0], buf[o..];
      LaidTail(buf, o, blocks);
      AloneIffNothingBorrowed(utf8, buf, o + |b|, blocks[1..]);
      AloneIffKeepsOwn(utf8, b, tail, o);
      assert c(tail, o, |b|) == Classify(utf8, tail, o, |b|) && c(b, o, |b|) == Classify(utf8, b, o, |b|);
    }
  }

  /** On the concatenation of any well-formed blocks, each block is found and classified as if alone, in order, with
      the media SSRC it holds itself; and the server's result is exactly that if and only if no short block borrows a
      media SSRC from what follows it. */
  lemma SplitAssembled(utf8: Utf8, blocks: seq<seq<u8>>)
    requires AllWellFormed(blocks, 4)
    ensures var all, each := Split(Classifying(utf8), Assemble(blocks), 0), ClassifyEach(Classifying(utf8), blocks, 0);
            && |all| == |each| && (forall i :: 0 <= i < |all| ==> Own(all[i]) == each[i])
            && (all == each <==> NothingBorrowed(blocks))
  {
    var buf := Assemble(blocks);
    AssembleLaid([], blocks);
    assert [] + buf == buf;
    ClassifiersLocal(utf8);
    SplitLaid(OwnClassifying(utf8), buf, 0, blocks, 4);
    OwnEach(utf8, blocks, 0);
    OwnSplit(utf8, buf, 0);
    AloneIffNothingBorrowed(utf8, buf, 0, blocks);
    SplitIsEachIff(Classifying(utf8), buf, 0, blocks);
  }

  // ---------------------------------------------------------------- every block under its kind

  predicate IsNack(b: seq<u8>) {
    |b| >= 4 && b[1] == PT_NACK && b[0] % 0x20 == FMT_NACK
  }

  predicate IsSenderReport(b: seq<u8>) {
    |b| >= 4 && b[1] == PT_SR
  }

  predicate IsReceiverReport(b: seq<u8>) {
    |b| >= 4 && b[1] == PT_RR
  }

  predicate IsRelayed(b: seq<u8>) {
    |b| >= 4 && b[1] == PT_PSFB && (b[0] % 0x20 == FMT_PLI || b[0] % 0x20 == FMT_REMB)
  }

  /** What the blocks give under `g`, in their order. */
  function Gathered<T>(g: seq<u8> -> seq<T>, blocks: seq<seq<u8>>): seq<T> {
    if blocks == [] then [] else g(blocks[0]) + Gathered(g, blocks[1..])
  }

  /** The blocks of a kind. */
  function OfKind(kind: seq<u8> -> bool): seq<u8> -> seq<seq<u8>> {
    (b: seq<u8>) => if kind(b) then [b] else []
  }

  function MessagesIn(utf8: Utf8): seq<u8> -> seq<Mbcp> {
    (b: seq<u8>) => if ParseMbcp(utf8, b).Some? then [ParseMbcp(utf8, b).value] else []
  }

  /** The bytes referred to; nothing for a reference that leaves the buffer. */
  function Pointed(buf: seq<u8>, refs: seq<BlockRef>): seq<seq<u8>> {
    if refs == [] then []
    else
      var r := refs[|refs| - 1];
      Pointed(buf, refs[..|refs| - 1]) +
      [if r.offset + r.length <= |buf| then buf[r.offset..r.offset + r.length] else []]
  }

  predicate PlacedAt(buf: seq<u8>, o: nat, b: seq<u8>) {
    WellFormed(b) && o + |b| <= |buf| && b <= buf[o..]
  }

  /** From `p` to `q` the findings grow by one block, listed under its kind and no other. */
  ghost predicate GrowsBy(utf8: Utf8, buf: seq<u8>, p: Parsed, q: Parsed, b: seq<u8>) {
    && q.nacks == p.nacks + OfKind(IsNack)(b)
    && q.mbcps == p.mbcps + MessagesIn(utf8)(b)
    && Pointed(buf, q.srs) == Pointed(buf, p.srs) + OfKind(IsSenderReport)(b)
    && Pointed(buf, q.rrs) == Pointed(buf, p.rrs) + OfKind(IsReceiverReport)(b)
    && Pointed(buf, q.relays) == Pointed(buf, p.relays) + OfKind(IsRelayed)(b)
  }

  lemma IntoStep(c: Classifier, buf: seq<u8>, o: nat, b: seq<u8>, p: Parsed)
    requires PlacedAt(buf, o, b)
    ensures SplitInto(c, buf, o, p) == SplitInto(c, buf, o + |b|, AddFound(p, c(buf[o..], o, |b|)))
  {
    var tail := buf[o..];
    assert buf[o + 2] == tail[2] == b[2] && buf[o + 3] == tail[3] == b[3];
    assert BlockLength(buf, o) == |b|;
  }

  lemma PointedGrows(buf: seq<u8>, refs: seq<BlockRef>, o: nat, b: seq<u8>, r: BlockRef)
    requires PlacedAt(buf, o, b) && r.offset == o && r.length == |b|
    ensures Pointed(buf, refs + [r]) == Pointed(buf, refs) + [b]
  {
    assert (refs + [r])[..|refs|] == refs;
    assert buf[o..o + |b|] == buf[o..][..|b|] == b;
  }

  /** What a block is found to be, it is, and nothing else. */
  ghost predicate FoundAs(utf8: Utf8, found: Option<Item>, b: seq<u8>, o: nat) {
    && (IsNack(b) <==> found == Some(NackBlock(b)))
    && (found.Some? && found.value.NackBlock? ==> IsNack(b))
    && (ParseMbcp(utf8, b).Some? <==> found.Some? && found.value.FloorMessage?)
    && (found.Some? && found.value.FloorMessage? ==> ParseMbcp(utf8, b) == Some(found.value.message))
    && (IsSenderReport(b) <==> found.Some? && found.value.SenderReport?)
    && (IsReceiverReport(b) <==> found.Some? && found.value.ReceiverReport?)
    && (IsRelayed(b) <==> found.Some? && found.value.Relay?)
    && (found.Some? && (found.value.SenderReport? || found.value.ReceiverReport? || found.value.Relay?) ==>
          found.value.ref.offset == o && found.value.ref.length == |b|)
  }

  lemma ClassifyFinds(utf8: Utf8, tail: seq<u8>, o: nat, b: seq<u8>)
    requires WellFormed(b) && b <= tail
    ensures FoundAs(utf8, Classify(utf8, tail, o, |b|), b, o)
  {
    assert tail[..|b|] == b;
  }

  lemma FoundGrows(utf8: Utf8, buf: seq<u8>, o: nat, b: seq<u8>, p: Parsed, found: Option<Item>)
    requires PlacedAt(buf, o, b) && FoundAs(utf8, found, b, o)
    ensures GrowsBy(utf8, buf, p, AddFound(p, found), b)
  {
    assert p.nacks + [] == p.nacks && p.mbcps + [] == p.mbcps;
    assert Pointed(buf, p.srs) + [] == Pointed(buf, p.srs);
    assert Pointed(buf, p.rrs) + [] == Pointed(buf, p.rrs);
    assert Pointed(buf, p.relays) + [] == Pointed(buf, p.relays);
    match found
    case Some(SenderReport(r)) => PointedGrows(buf, p.srs, o, b, r);
    case Some(ReceiverReport(r)) => PointedGrows(buf, p.rrs, o, b, r);
    case Some(Relay(r)) => PointedGrows(buf, p.relays, o, b, r);
    case _ =>
  }

  lemma BlockGrows(utf8: Utf8, c: Classifier, buf: seq<u8>, o: nat, b: seq<u8>, p: Parsed)
    requires PlacedAt(buf, o, b) && c == Classifying(utf8)
    ensures GrowsBy(utf8, buf, p, AddFound(p, c(buf[o..], o, |b|)), b)
  {
    ClassifyFinds(utf8, buf[o..], o, b);
    FoundGrows(utf8, buf, o, b, p, Classify(utf8, buf[o..], o, |b|));
  }

  /** View `f` of the findings grows by exactly `g` of each block. */
  ghost predicate Gathers<T(!new)>(c: Classifier, buf: seq<u8>, f: Parsed -> seq<T>, g: seq<u8> -> seq<T>) {
    forall o: nat, b: seq<u8>, p: Parsed {:trigger f(AddFound(p, c(buf[o..], o, |b|)))} ::
      PlacedAt(buf, o, b) ==> f(AddFound(p, c(buf[o..], o, |b|))) == f(p) + g(b)
  }

  /** The findings of the blocks placed from `o` on. */
  function EachInto(c: Classifier, buf: seq<u8>, o: nat, blocks: seq<seq<u8>>, p: Parsed): Parsed
    requires o <= |buf| && Laid(buf, o, blocks)
    decreases blocks
  {
    if blocks == [] then p
    else EachInto(c, buf, o + |blocks[0]|, blocks[1..], AddFound(p, c(buf[o..], o, |blocks[0]|)))
  }

  lemma {:induction false} IntoLaid(c: Classifier, buf: seq<u8>, o: nat, blocks: seq<seq<u8>>, p: Parsed)
    requires AllWellFormed(blocks, 4) && o <= |buf| && Laid(buf, o, blocks)
    ensures SplitInto(c, buf, o, p) == EachInto(c, buf, o, blocks, p)
    decreases |blocks|
  {
    if blocks == [] {
      IntoEnd(c, buf, p);
    } else {
      var b := blocks[0];
      IntoStep(c, buf, o, b, p);
      IntoLaid(c, buf, o + |b|, blocks[1..], AddFound(p, c(buf[o..], o, |b|)));
    }
  }

  lemma {:induction false} GatherLaid<T(!new)>(c: Classifier, buf: seq<u8>, f: Parsed -> seq<T>, g: seq<u8> -> seq<T>,
                                               o: nat, blocks: seq<seq<u8>>, p: Parsed)
    requires Gathers(c, buf, f, g) && AllWellFormed(blocks, 4) && o <= |buf| && Laid(buf, o, blocks)
    ensures f(EachInto(c, buf, o, blocks, p)) == f(p) + Gathered(g, blocks)
    decreases |blocks|
  {
    if blocks == [] {
      assert f(p) + [] == f(p);
    } else {
      var b := blocks[0];
      assert PlacedAt(buf, o, b);
      var m := AddFound(p, c(buf[o..], o, |b|));
      assert f(m) == f(p) + g(b);
      GatherLaid(c, buf, f, g, o + |b|, blocks[1..], m);
      AppendAssociative(f(p), g(b), Gathered(g, blocks[1..]));
    }
  }

  lemma IntoEnd(c: Classifier, buf: seq<u8>, p: Parsed)
    ensures SplitInto(c, buf, |buf|, p) == p
  {
  }

  function Nacks(): Parsed -> seq<seq<u8>> {
    (p: Parsed) => p.nacks
  }

  function Mbcps(): Parsed -> seq<Mbcp> {
    (p: Parsed) => p.mbcps
  }

  function Srs(buf: seq<u8>): Parsed -> seq<seq<u8>> {
    (p: Parsed) => Pointed(buf, p.srs)
  }

  function Rrs(buf: seq<u8>): Parsed -> seq<seq<u8>> {
    (p: Parsed) => Pointed(buf, p.rrs)
  }

  function Relays(buf: seq<u8>): Parsed -> seq<seq<u8>> {
    (p: Parsed) => Pointed(buf, p.relays)
  }

  lemma AllGather(utf8: Utf8, c: Classifier, buf: seq<u8>)
    requires c == Classifying(utf8)
    ensures Gathers(c, buf, Nacks(), OfKind(IsNack)) && Gathers(c, buf, Mbcps(), MessagesIn(utf8))
    ensures Gathers(c, buf, Srs(buf), OfKind(IsSenderReport)) && Gathers(c, buf, Rrs(buf), OfKind(IsReceiverReport))
    ensures Gathers(c, buf, Relays(buf), OfKind(IsRelayed))
  {
    forall o: nat, b: seq<u8>, p: Parsed | PlacedAt(buf, o, b)
      ensures GrowsBy(utf8, buf, p, AddFound(p, c(buf[o..], o, |b|)), b)
    {
      BlockGrows(utf8, c, buf, o, b, p);
    }
  }

  lemma ViewsGather(utf8: Utf8, buf: seq<u8>, blocks: seq<seq<u8>>)
    requires AllWellFormed(blocks, 4) && Laid(buf, 0, blocks)
    ensures var p := EachInto(Classifying(utf8), buf, 0, blocks, Collected([]));
            && p.nacks == Gathered(OfKind(IsNack), blocks)
            && p.mbcps == Gathered(MessagesIn(utf8), blocks)
            && Pointed(buf, p.srs) == Gathered(OfKind(IsSenderReport), blocks)
            && Pointed(buf, p.rrs) == Gathered(OfKind(IsReceiverReport), blocks)
            && Pointed(buf, p.relays) == Gathered(OfKind(IsRelayed), blocks)
  {
    var c, start := Classifying(utf8), Collected([]);
    AllGather(utf8, c, buf);
    GatherLaid(c, buf, Nacks(), OfKind(IsNack), 0, blocks, start);
    GatherLaid(c, buf, Mbcps(), MessagesIn(utf8), 0, blocks, start);
    GatherLaid(c, buf, Srs(buf), OfKind(IsSenderReport), 0, blocks, start);
    GatherLaid(c, buf, Rrs(buf), OfKind(IsReceiverReport), 0, blocks, start);
    GatherLaid(c, buf, Relays(buf), OfKind(IsRelayed), 0, blocks, start);
  }

  /** On the concatenation of any well-formed blocks, the findings are exactly the blocks of each kind, whole and in
      order: NACKs by their bytes, reports, PLI and REMB by references to their bytes, MBCP messages read. */
  lemma CompoundSorted(utf8: Utf8, blocks: seq<seq<u8>>)
    requires AllWellFormed(blocks, 4)
    ensures var buf := Assemble(blocks);
            var p := Collected(Split(Classifying(utf8), buf, 0));
            && p.nacks == Gathered(OfKind(IsNack), blocks)
            && p.mbcps == Gathered(MessagesIn(utf8), blocks)
            && Pointed(buf, p.srs) == Gathered(OfKind(IsSenderReport), blocks)
            && Pointed(buf, p.rrs) == Gathered(OfKind(IsReceiverReport), blocks)
            && Pointed(buf, p.relays) == Gathered(OfKind(IsRelayed), blocks)
  {
    var c, buf := Classifying(utf8), Assemble(blocks);
    AssembleLaid([], blocks);
    assert [] + buf == buf;
    SplitWhole(c, buf);
    IntoLaid(c, buf, 0, blocks, Collected([]));
    ViewsGather(utf8, buf, blocks);
  }

  /** In every compound that starts with an 8-byte receiver report and goes on, that report is attributed to whatever
      the next block starts with; alone its media SSRC would be 0. */
  lemma ShortReportBorrows(utf8: Utf8, b: seq<u8>, rest: seq<seq<u8>>)
    requires WellFormed(b) && |b| == 8 && b[1] == PT_RR && rest != [] && AllWellFormed(rest, 4)
    ensures |Assemble(rest)| >= 4
    ensures var all := Split(Classifying(utf8), Assemble([b] + rest), 0);
            all != [] && all[0] == ReceiverReport(BlockRef(0, 8, U32At(Assemble(rest), 0)))
    ensures ClassifyEach(Classifying(utf8), [b], 0) == [ReceiverReport(BlockRef(0, 8, 0))]
  {
    var tail := Assemble(rest);
    assert ([b] + rest)[1..] == rest && |tail| >= |rest[0]|;
    var buf := Assemble([b] + rest);
    assert buf == b + tail && buf[0..] == buf;
    LaidFirst(Classifying(utf8), buf, 0, b);
    assert forall i :: 0 <= i < 4 ==> buf[8 + i] == tail[i];
    assert [b][1..] == [];
  }

  const FIRST_REPORT: seq<u8> := [0x80, 201, 0, 1, 0, 0, 0, 5]
  const SECOND_REPORT: seq<u8> := [0x80, 201, 0, 1, 0, 0, 0, 7]

  /** Two 8-byte receiver reports: the first takes the second's header bytes for its media SSRC. */
  lemma TwoShortReports(utf8: Utf8)
    ensures var blocks := [FIRST_REPORT] + [SECOND_REPORT];
            && AllWellFormed(blocks, 4) && !NothingBorrowed(blocks)
            && var all := Split(Classifying(utf8), Assemble(blocks), 0);
               all != [] && all[0] == ReceiverReport(BlockRef(0, 8, 0x80C9_0001))
  {
    var blocks, rest := [FIRST_REPORT] + [SECOND_REPORT], [SECOND_REPORT];
    assert blocks[1..] == rest && rest[1..] == [];
    assert AllWellFormed(rest, 4);
    assert Assemble(rest) == SECOND_REPORT && Assemble(blocks) == FIRST_REPORT + SECOND_REPORT;
    ShortReportBorrows(utf8, FIRST_REPORT, rest);
  }

  // ---------------------------------------------------------------- any buffer

  /** The blocks the splitter visits, as offset and length. */
  function Spans(buf: seq<u8>, o: nat): seq<(nat, nat)>
    requires o <= |buf|
    decreases |buf| - o
  {
    if !BlockAt(buf, o) then [] else [(o, BlockLength(buf, o))] + Spans(buf, o + BlockLength(buf, o))
  }

  /** What the visited blocks contribute, one after the other. */
  function Contributions(c: Classifier, buf: seq<u8>, spans: seq<(nat, nat)>): seq<Item>
    requires InBounds(buf, spans)
  {
    if spans == [] then []
    else
      var (offset, n) := spans[0];
      assert InBounds(buf, spans[1..]);
      Listed(c(buf[offset..], offset, n)) + Contributions(c, buf, spans[1..])
  }

  predicate InBounds(buf: seq<u8>, spans: seq<(nat, nat)>) {
    forall i :: 0 <= i < |spans| ==> spans[i].1 >= 4 && spans[i].0 + spans[i].1 <= |buf|
  }

  predicate Adjacent(spans: seq<(nat, nat)>, o: nat) {
    && (spans != [] ==> spans[0].0 == o)
    && forall i :: 0 < i < |spans| ==> spans[i].0 == spans[i - 1].0 + spans[i - 1].1
  }

  lemma SpansGrow(buf: seq<u8>, first: (nat, nat), rest: seq<(nat, nat)>)
    requires InBounds(buf, rest) && Adjacent(rest, first.0 + first.1)
    requires first.1 >= 4 && first.0 + first.1 <= |buf|
    ensures InBounds(buf, [first] + rest) && Adjacent([first] + rest, first.0)
  {
    var spans := [first] + rest;
    forall i | 0 < i < |spans| ensures spans[i].0 == spans[i - 1].0 + spans[i - 1].1 {
      assert spans[i] == rest[i - 1];
      if i > 1 {
        assert spans[i - 1] == rest[i - 2];
        assert rest[i - 1].0 == rest[i - 2].0 + rest[i - 2].1;
      }
    }
  }

  /** For every buffer whatsoever: the visited blocks lie inside the buffer, one directly after the other, and
      what is handed out is what those blocks contribute, in their order. */
  lemma {:induction false} BlocksInBounds(c: Classifier, buf: seq<u8>, o: nat)
    requires o <= |buf|
    ensures InBounds(buf, Spans(buf, o)) && Adjacent(Spans(buf, o), o)
    ensures Split(c, buf, o) == Contributions(c, buf, Spans(buf, o))
    decreases |buf| - o
  {
    if BlockAt(buf, o) {
      var n := BlockLength(buf, o);
      BlocksInBounds(c, buf, o + n);
      SpansGrow(buf, (o, n), Spans(buf, o + n));
      assert Spans(buf, o)[1..] == Spans(buf, o + n);
    }
  }
}
