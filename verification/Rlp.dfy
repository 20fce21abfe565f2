/**
 The RLP writers used to price a transaction's posting, against a strict decoder written
 from Appendix B of the Ethereum Yellow Paper.
 */
module Rlp {
  import opened Words
  import opened Bytes

  const USIZE_BYTES: nat := 8

  /** A byte string whose length fits a machine word. */
  type Item = s: seq<Byte> | |s| <= U64_MAX

  type Offset = o: Byte | o == 0x80 || o == 0xC0 witness 0x80

  // ---------- Encoding ----------

  function StripLeadingZeros(bytes: seq<Byte>): seq<Byte> {
    if bytes != [] && bytes[0] == 0 then StripLeadingZeros(bytes[1..]) else bytes
  }

  /** A length that takes the long form has between one and eight significant bytes. */
  lemma {:induction false} StripKeepsValue(bytes: seq<Byte>)
    ensures FromBytes(StripLeadingZeros(bytes)) == FromBytes(bytes)
    ensures |StripLeadingZeros(bytes)| <= |bytes|
    ensures FromBytes(bytes) != 0 ==> StripLeadingZeros(bytes) != [] && StripLeadingZeros(bytes)[0] != 0
    decreases |bytes|
  {
    if bytes != [] && bytes[0] == 0 {
      LeadingZero(bytes);
      StripKeepsValue(bytes[1..]);
    }
  }

  lemma {:induction false} LeadingZero(bytes: seq<Byte>)
    requires bytes != [] && bytes[0] == 0
    ensures FromBytes(bytes) == FromBytes(bytes[1..])
    decreases |bytes|
  {
    if |bytes| > 1 {
      LeadingZero(bytes[..|bytes| - 1]);
      assert bytes[..|bytes| - 1][1..] == bytes[1..][..|bytes| - 2];
    }
  }

  lemma LengthBytes(len: U64)
    ensures FromBytes(ToBytes(len, USIZE_BYTES)) == len
  {
    Pow256Eight();
    BytesRoundTrip(len, USIZE_BYTES);
  }

  function SizeBytes(len: U64): (s: seq<Byte>)
    ensures FromBytes(s) == len && |s| <= 8
    ensures len != 0 ==> s != [] && s[0] != 0
  {
    LengthBytes(len);
    StripKeepsValue(ToBytes(len, USIZE_BYTES));
    StripLeadingZeros(ToBytes(len, USIZE_BYTES))
  }

  /** A header; its first byte never leaves eight bits. */
  function Header(len: U64, offset: Offset): seq<Byte> {
    if len < 56 then [offset + len] else [offset + 55 + |SizeBytes(len)|] + SizeBytes(len)
  }

  function EncodeBytes(bytes: Item): seq<Byte>
  {
    if |bytes| == 1 && bytes[0] < 0x80 then bytes else Header(|bytes|, 0x80) + bytes
  }

  function Payload(items: seq<Item>): seq<Byte> {
    if items == [] then [] else EncodeBytes(items[0]) + Payload(items[1..])
  }

  function EncodeList(items: seq<Item>): seq<Byte>
    requires |Payload(items)| <= U64_MAX
  {
    Wrapped(Payload(items))
  }

  /** A payload with the list header in front. */
  function Wrapped(payload: seq<Byte>): seq<Byte>
    requires |payload| <= U64_MAX
  {
    Header(|payload|, 0xC0) + payload
  }

  method WriteLength(out: seq<Byte>, len: U64, offset: Offset) returns (written: seq<Byte>)
    ensures written == out + Header(len, offset)
  {
    if len < 56 {
      written := out + [offset + len];
    } else {
      var lenBytes := ToBytes(len, USIZE_BYTES);
      lenBytes := StripLeadingZeros(lenBytes);
      assert lenBytes == SizeBytes(len);
      written := out + [offset + 55 + |lenBytes|];
      written := written + lenBytes;
    }
  }

  method RlpEncodeBytes(bytes: Item) returns (out: seq<Byte>)
    ensures out == EncodeBytes(bytes)
  {
    if |bytes| == 1 && bytes[0] < 0x80 {
      return [bytes[0]];
    }
    if bytes == [] {
      return [0x80];
    }
    out := WriteLength([], |bytes|, 0x80);
    out := out + bytes;
  }

  /** Each item encoded, one after the other. */
  method EncodePayload(items: seq<Item>) returns (payload: seq<Byte>)
    ensures payload == Payload(items)
  {
    payload := [];
    for i := 0 to |items|
      invariant payload + Payload(items[i..]) == Payload(items)
    {
      var item := RlpEncodeBytes(items[i]);
      ghost var rest := Payload(items[i + 1..]);
      assert items[i..][1..] == items[i + 1..];
      assert payload + (item + rest) == (payload + item) + rest;
      payload := payload + item;
    }
  }

  method RlpEncodeList(out: seq<Byte>, items: seq<Item>) returns (written: seq<Byte>)
    requires |Payload(items)| <= U64_MAX
    ensures written == out + EncodeList(items)
  {
    var payload := EncodePayload(items);
    var headed := WriteLength(out, |payload|, 0xC0);
    written := headed + payload;
    Associates(out, Header(|payload|, 0xC0), payload);
  }

  lemma Associates(a: seq<Byte>, b: seq<Byte>, c: seq<Byte>)
    ensures (a + b) + c == a + (b + c)
  {
  }

  // ---------- Decoding ----------

  lemma WordBound(bytes: seq<Byte>)
    requires |bytes| <= USIZE_BYTES
    ensures FromBytes(bytes) <= U64_MAX
  {
    FromBytesBound(bytes);
    PowMonotone(|bytes|, USIZE_BYTES);
    Pow256Eight();
  }

  /** The length a header announces and its own size; a long form must be needed and have no leading zero. */
  function ReadHeader(s: seq<Byte>, offset: Offset): (r: Option<(nat, nat)>)
    requires s != [] && offset <= s[0] < offset + 64
    ensures r.Some? ==> 0 < r.value.1 <= |s| && r.value.0 <= U64_MAX
  {
    var d := s[0] - offset;
    if d < 56 then Some((d, 1))
    else
      var n := d - 55;
      if |s| < 1 + n || s[1] == 0 || FromBytes(s[1..1 + n]) < 56 then None
      else
        WordBound(s[1..1 + n]);
        Some((FromBytes(s[1..1 + n]), 1 + n))
  }

  /** The first byte string and what follows it. */
  function DecodeItem(s: seq<Byte>): (r: Option<(Item, seq<Byte>)>)
    requires s != []
    ensures r.Some? ==> |r.value.1| < |s|
  {
    if s[0] < 0x80 then Some(([s[0]], s[1..]))
    else if s[0] >= 0xC0 then None
    else
      match ReadHeader(s, 0x80)
      case None => None
      case Some((len, h)) =>
        if |s| < h + len || (len == 1 && s[h] < 0x80) then None else Some((s[h..h + len], s[h + len..]))
  }

  function DecodeItems(s: seq<Byte>): Option<seq<Item>> {
    if s == [] then Some([])
    else
      match DecodeItem(s)
      case None => None
      case Some((item, rest)) =>
        match DecodeItems(rest)
        case None => None
        case Some(items) => Some([item] + items)
  }

  /** A list of byte strings that takes up all of `s`. */
  function DecodeList(s: seq<Byte>): Option<seq<Item>>
    requires s != []
  {
    if s[0] < 0xC0 then None
    else
      match ReadHeader(s, 0xC0)
      case None => None
      case Some((len, h)) => if |s| != h + len then None else DecodeItems(s[h..])
  }

  // ---------- Round trip ----------

  lemma HeaderRoundTrip(len: U64, offset: Offset, tail: seq<Byte>)
    ensures offset <= (Header(len, offset) + tail)[0] < offset + 64
    ensures ReadHeader(Header(len, offset) + tail, offset) == Some((len, |Header(len, offset)|))
  {
    var s := Header(len, offset) + tail;
    if len >= 56 {
      assert s[1..1 + |SizeBytes(len)|] == SizeBytes(len);
    }
  }

  lemma ItemRoundTrip(bytes: Item, tail: seq<Byte>)
    ensures EncodeBytes(bytes) != []
    ensures DecodeItem(EncodeBytes(bytes) + tail) == Some((bytes, tail))
  {
    var s := EncodeBytes(bytes) + tail;
    if |bytes| == 1 && bytes[0] < 0x80 {
      assert bytes == [bytes[0]] && s[1..] == tail;
    } else {
      var header := Header(|bytes|, 0x80);
      assert s == header + (bytes + tail);
      HeaderRoundTrip(|bytes|, 0x80, bytes + tail);
      assert s[|header|..|header| + |bytes|] == bytes && s[|header| + |bytes|..] == tail;
    }
  }

  lemma ItemThenMore(item: Item, tail: seq<Byte>, more: seq<Item>)
    requires DecodeItems(tail) == Some(more)
    ensures DecodeItems(EncodeBytes(item) + tail) == Some([item] + more)
  {
    ItemRoundTrip(item, tail);
    var s := EncodeBytes(item) + tail;
    assert s != [] && DecodeItem(s) == Some((item, tail));
  }

  lemma {:induction false} ItemsRoundTrip(items: seq<Item>)
    ensures DecodeItems(Payload(items)) == Some(items)
    decreases |items|
  {
    if items != [] {
      var rest := items[1..];
      ItemsRoundTrip(rest);
      ItemThenMore(items[0], Payload(rest), rest);
      assert items == [items[0]] + rest;
    }
  }

  /** Decoding recovers exactly the items, with nothing left over. */
  lemma ListRoundTrip(items: seq<Item>)
    requires |Payload(items)| <= U64_MAX
    ensures DecodeList(EncodeList(items)) == Some(items)
  {
    var payload := Payload(items);
    var header := Header(|payload|, 0xC0);
    HeaderRoundTrip(|payload|, 0xC0, payload);
    assert (header + payload)[|header|..] == payload;
    ItemsRoundTrip(items);
  }

  // ---------- Nothing else decodes ----------

  lemma {:induction false} CanonicalBytes(bytes: seq<Byte>, width: nat)
    requires |bytes| <= width && bytes != [] && bytes[0] != 0
    ensures StripLeadingZeros(ToBytes(FromBytes(bytes), width)) == bytes
    decreases width
  {
    PaddedBytes(bytes, width);
    StripPadding(bytes, width - |bytes|);
  }

  function Zeros(n: nat): (z: seq<Byte>)
    ensures |z| == n
  {
    if n == 0 then [] else [0] + Zeros(n - 1)
  }

  lemma {:induction false} StripPadding(bytes: seq<Byte>, n: nat)
    requires bytes != [] && bytes[0] != 0
    ensures StripLeadingZeros(Zeros(n) + bytes) == bytes
  {
    if n == 0 {
      assert Zeros(n) + bytes == bytes;
    } else {
      assert (Zeros(n) + bytes)[1..] == Zeros(n - 1) + bytes;
      StripPadding(bytes, n - 1);
    }
  }

  lemma {:induction false} PaddedBytes(bytes: seq<Byte>, width: nat)
    requires |bytes| <= width
    ensures ToBytes(FromBytes(bytes), width) == Zeros(width - |bytes|) + bytes
    decreases width
  {
    if width != 0 {
      if bytes == [] {
        PaddedBytes([], width - 1);
        ZerosEnd(width);
      } else {
        PaddedBytes(bytes[..|bytes| - 1], width - 1);
        assert FromBytes(bytes) / 256 == FromBytes(bytes[..|bytes| - 1]);
        assert bytes == bytes[..|bytes| - 1] + [bytes[|bytes| - 1]];
      }
    }
  }

  lemma {:induction false} ZerosEnd(n: nat)
    requires n > 0
    ensures Zeros(n) == Zeros(n - 1) + [0]
  {
    if n > 1 {
      ZerosEnd(n - 1);
    }
  }

  lemma HeaderConverse(s: seq<Byte>, offset: Offset)
    requires s != [] && offset <= s[0] < offset + 64 && ReadHeader(s, offset).Some?
    ensures s[..ReadHeader(s, offset).value.1] == Header(ReadHeader(s, offset).value.0, offset)
  {
    if s[0] - offset < 56 {
      assert s[..1] == [s[0]];
    } else {
      var n := s[0] - offset - 55;
      var lb := s[1..1 + n];
      CanonicalBytes(lb, USIZE_BYTES);
      assert SizeBytes(FromBytes(lb)) == lb;
      assert s[..1 + n] == [s[0]] + lb;
    }
  }

  lemma {:induction false} PowMonotone(a: nat, b: nat)
    requires a <= b
    ensures Pow256(a) <= Pow256(b)
    decreases b
  {
    if a < b {
      PowMonotone(a, b - 1);
    }
  }

  lemma ItemConverse(s: seq<Byte>, item: Item, rest: seq<Byte>)
    requires s != [] && DecodeItem(s) == Some((item, rest))
    ensures s == EncodeBytes(item) + rest
  {
    if s[0] >= 0x80 {
      var (len, h) := ReadHeader(s, 0x80).value;
      HeaderConverse(s, 0x80);
      PrefixedItem(s, h, len, Header(len, 0x80));
      assert |item| == 1 ==> item[0] == s[h];
    } else {
      assert s == [s[0]] + s[1..];
    }
  }

  lemma PrefixedItem(s: seq<Byte>, h: nat, len: nat, header: seq<Byte>)
    requires h + len <= |s| && s[..h] == header
    ensures s == header + s[h..h + len] + s[h + len..]
  {
  }

  lemma {:induction false} ItemsConverse(s: seq<Byte>, items: seq<Item>)
    requires DecodeItems(s) == Some(items)
    ensures Payload(items) == s
    decreases |s|
  {
    if s != [] {
      var (item, rest) := DecodeItem(s).value;
      ItemConverse(s, item, rest);
      ItemsConverse(rest, items[1..]);
    }
  }

  /** The decoder accepts nothing but what the encoder writes. */
  lemma ListConverse(s: seq<Byte>, items: seq<Item>)
    requires s != [] && DecodeList(s) == Some(items)
    ensures |Payload(items)| <= U64_MAX && s == EncodeList(items)
  {
    var (len, h) := ReadHeader(s, 0xC0).value;
    var payload := s[h..];
    HeaderConverse(s, 0xC0);
    ItemsConverse(payload, items);
    WrappedIs(s, h, payload);
  }

  lemma WrappedIs(s: seq<Byte>, h: nat, payload: seq<Byte>)
    requires h <= |s| && payload == s[h..] && |payload| <= U64_MAX && s[..h] == Header(|payload|, 0xC0)
    ensures s == Wrapped(payload)
  {
    assert s == s[..h] + s[h..];
  }
}
