/**
 The serializer of fw_dtb.cpp: three byte vectors that the builder calls append to, and a table
 of the strings interned so far. `Build` is proved to produce a blob that the specification's
 parser reads back as exactly the nodes, properties and reservations the calls described.
 */
module FdtBuilder {
  import opened Bytes
  import opened Fdt

  /** The loop of `pad4`: zero bytes up to a multiple of four. */
  method Pad4(v: seq<byte>) returns (r: seq<byte>)
    ensures r == v + Zeros(PadLen(|v|))
  {
    r := v;
    ghost var n := 0;
    while |r| % 4 != 0
      invariant n <= PadLen(|v|) && r == v + Zeros(n)
      decreases PadLen(|v|) - n
    {
      PadMore(|v|, n);
      ZerosMore(v, n);
      r := r + [0];
      n := n + 1;
    }
    PadMore(|v|, n);
  }

  lemma PadMore(size: nat, n: nat)
    requires n <= PadLen(size)
    ensures (size + n) % 4 != 0 <==> n < PadLen(size)
  {
  }

  lemma ZerosMore(v: seq<byte>, n: nat)
    ensures (v + Zeros(n)) + [0] == v + Zeros(n + 1)
  {
  }

  /** Strings already in the table keep their offset, and read back through a longer block. */
  lemma InternedExtend(strings: seq<byte>, m: Offsets, name: Name)
    requires Interned(strings, m) && name !in m && |strings| < U32_RANGE
    ensures Interned(strings + name + [0], m[name := |strings|])
  {
    var more := name + [0];
    assert strings + name + [0] == strings + more;
    forall n | n in m ensures StringAt(strings + more, m[n]) == Some(n) {
      StringAtExtend(strings, m[n], more);
    }
    assert (strings + more)[|strings|..] == name + Zeros(1) + [];
    CStringOf(name, 1, []);
  }

  lemma InternedAt(strings: seq<byte>, m: Offsets, name: Name)
    requires Interned(strings, m) && name in m
    ensures StringAt(strings, m[name]) == Some(name)
  {
  }

  lemma PadLenShift(a: nat, n: nat)
    requires a % 4 == 0
    ensures PadLen(a + n) == PadLen(n) && (n % 4 == 0 ==> (a + n) % 4 == 0)
  {
  }

  lemma AppendEvent(es: seq<Event>, e: Event, m: Offsets)
    requires Encodable(es, m) && EventOk(e, m) && |EncodeEvents(es, m)| % 4 == 0
    ensures Encodable(es + [e], m)
    ensures EncodeEvents(es + [e], m) == EncodeEvents(es, m) + EncodeEvent(e, m)
    ensures |EncodeEvents(es + [e], m)| % 4 == 0
  {
    EncodeEventAligned(e, m);
    EncodeOne(e, m);
    hide EncodeEvent, EventOk, EncodeEvents;
    EncodeEventsAppend(es, [e], m);
    PadLenShift(|EncodeEvents(es, m)|, |EncodeEvent(e, m)|);
  }

  /** Padding the whole vector pads the property value, because the vector was aligned before. */
  lemma PropBytes(st: seq<byte>, name: Name, data: seq<byte>, m: Offsets)
    requires |st| % 4 == 0 && EventOk(AddProp(name, data), m)
    ensures var body := st + Be32(PROP) + Be32(|data|) + Be32(m[name]) + data;
            body + Zeros(PadLen(|body|)) == st + EncodeEvent(AddProp(name, data), m)
  {
    hide Be32;
    PadLenShift(|st| + 12, |data|);
    hide PadLen;
  }

  lemma NameBytes(st: seq<byte>, name: Name, m: Offsets)
    requires |st| % 4 == 0
    ensures var body := st + Be32(BEGIN_NODE) + name + [0];
            body + Zeros(PadLen(|body|)) == st + EncodeEvent(BeginNode(name), m)
  {
    hide Be32;
    PadLenShift(|st| + 4, |name| + 1);
    hide PadLen;
    var k := PadLen(|name| + 1);
    assert [0] + Zeros(k) == Zeros(1 + k);
  }

  /** The header fields, with the source's truncation of every size to 32 bits. */
  method EmitHeader(rsvLen: nat, stLen: nat, strLen: nat) returns (h: seq<byte>)
    ensures |h| == HEADER_SIZE
    ensures HEADER_SIZE + rsvLen + stLen + strLen < U32_RANGE ==> h == Header(rsvLen, stLen, strLen)
  {
    hide Be32;
    var offRsv := HEADER_SIZE;
    var offSt := (offRsv + rsvLen) % U32_RANGE;
    var offStr := (offSt + stLen) % U32_RANGE;
    var total := (offStr + strLen) % U32_RANGE;
    if HEADER_SIZE + rsvLen + stLen + strLen < U32_RANGE {
      assert offSt == HEADER_SIZE + rsvLen && offStr == offSt + stLen && total == offStr + strLen;
      assert strLen % U32_RANGE == strLen && stLen % U32_RANGE == stLen;
    }
    h := Be32(MAGIC) + Be32(total);
    h := h + Be32(offSt) + Be32(offStr);
    h := h + Be32(offRsv) + Be32(VERSION);
    h := h + Be32(COMP_VERSION) + Be32(0);
    h := h + Be32(strLen % U32_RANGE);
    h := h + Be32(stLen % U32_RANGE);
  }

  class Builder {
    var st: seq<byte>
    var str: seq<byte>
    var rsv: seq<byte>
    var strMap: map<Name, u32>

    /** The calls made so far. */
    ghost var events: seq<Event>
    ghost var reserved: seq<Reservation>

    /**
     The structure block encodes the calls made so far. The string table is right as long as the
     strings block fits 32-bit offsets; past that the source truncates them, and so does `StrOff`.
     */
    ghost predicate Valid()
      reads this
    {
      && Encodable(events, strMap)
      && st == EncodeEvents(events, strMap)
      && |st| % 4 == 0
      && rsv == EncodeReservations(reserved)
      && (|str| < U32_RANGE ==> Interned(str, strMap))
    }

    constructor ()
      ensures Valid() && events == [] && reserved == []
    {
      st, str, rsv, strMap := [], [], [], map[];
      events, reserved := [], [];
    }

    method BeginNode(name: Name)
      requires Valid()
      modifies this
      ensures Valid()
      ensures events == old(events) + [Event.BeginNode(name)] && reserved == old(reserved)
      ensures str == old(str) && strMap == old(strMap)
    {
      hide Be32, Interned, EncodeEvents, EncodeEvent;
      ghost var was := st;
      st := st + Be32(BEGIN_NODE);
      var p := 0;
      while p < |name|
        modifies `st
        invariant p <= |name| && st == was + Be32(BEGIN_NODE) + name[..p]
      {
        st := st + [name[p]];
        p := p + 1;
      }
      assert name[..p] == name;
      st := st + [0];
      NameBytes(was, name, strMap);
      st := Pad4(st);
      assert EventOk(Event.BeginNode(name), strMap);
      AppendEvent(events, Event.BeginNode(name), strMap);
      events := events + [Event.BeginNode(name)];
    }

    method EndNode()
      requires Valid()
      modifies this
      ensures Valid()
      ensures events == old(events) + [Event.EndNode] && reserved == old(reserved)
      ensures str == old(str) && strMap == old(strMap)
    {
      hide Be32, Interned, EncodeEvents;
      st := st + Be32(END_NODE);
      AppendEvent(events, Event.EndNode, strMap);
      events := events + [Event.EndNode];
    }

    /**
     Interning: the offset returned reads the name back, a name seen before gets the offset it
     was first given, and no offset handed out earlier changes.
     */
    method StrOff(name: Name) returns (off: u32)
      modifies this`str, this`strMap
      ensures name in strMap && off == strMap[name]
      ensures old(name in strMap) ==> off == old(strMap)[name] && str == old(str)
      ensures forall n :: n in old(strMap) ==> n in strMap && strMap[n] == old(strMap)[n]
      ensures |old(str)| <= |str| && str[..|old(str)|] == old(str)
      ensures |str| < U32_RANGE && old(Interned(str, strMap)) ==> Interned(str, strMap) && StringAt(str, off) == Some(name)
    {
      hide Interned, StringAt;
      if name in strMap {
        if Interned(str, strMap) {
          InternedAt(str, strMap, name);
        }
        return strMap[name];
      }
      off := |str| % U32_RANGE;
      var p := 0;
      while p < |name|
        modifies `str
        invariant p <= |name| && str == old(str) + name[..p]
      {
        str := str + [name[p]];
        p := p + 1;
      }
      assert name[..p] == name;
      str := str + [0];
      if |str| < U32_RANGE && old(Interned(str, strMap)) {
        InternedExtend(old(str), strMap, name);
      }
      strMap := strMap[name := off];
      if Interned(str, strMap) {
        InternedAt(str, strMap, name);
      }
    }

    method Prop(name: Name, data: seq<byte>)
      requires Valid() && |data| < U32_RANGE
      modifies this
      ensures Valid()
      ensures events == old(events) + [AddProp(name, data)] && reserved == old(reserved)
      ensures |old(str)| <= |str| && str[..|old(str)|] == old(str)
    {
      hide Be32, Interned, EncodeEvents;
      ghost var was := st;
      var len := |data|;
      st := st + Be32(PROP);
      st := st + Be32(len);
      var off := StrOff(name);
      st := st + Be32(off);
      if len != 0 {
        var i := 0;
        while i < len
          modifies `st
          invariant i <= len && st == was + Be32(PROP) + Be32(len) + Be32(off) + data[..i]
        {
          st := st + [data[i]];
          i := i + 1;
        }
      }
      assert st == was + Be32(PROP) + Be32(len) + Be32(off) + data;
      PropBytes(was, name, data, strMap);
      st := Pad4(st);
      EncodeEventsExtend(events, old(strMap), strMap);
      AppendEvent(events, AddProp(name, data), strMap);
      events := events + [AddProp(name, data)];
    }

    method Reserve(address: u64, size: u64)
      requires Valid()
      modifies this
      ensures Valid()
      ensures events == old(events) && reserved == old(reserved) + [Reservation(address, size)]
      ensures str == old(str) && strMap == old(strMap)
    {
      hide Be64, Interned, EncodeEvents, EncodeReservations, Encodable;
      EncodeReservationsAppend(reserved, Reservation(address, size));
      rsv := rsv + Be64(address);
      rsv := rsv + Be64(size);
      reserved := reserved + [Reservation(address, size)];
    }

    /**
     The blob parses back, by the specification, to exactly the tree whose calls were made and
     exactly the reservations asked for, provided it is small enough for its 32-bit offsets.
     */
    method Build(ghost tree: Items) returns (blob: seq<byte>)
      requires Valid() && events == Events(tree)
      modifies this`st, this`rsv
      ensures |blob| == HEADER_SIZE + 16 * (|old(reserved)| + 1) + |old(st)| + 4 + |str|
      ensures |blob| < U32_RANGE ==> HeaderWords(blob, 16 * (|old(reserved)| + 1), |old(st)| + 4, |str|)
      ensures blob[40..] == EncodeReservations(old(reserved) + [Reservation(0, 0)]) + (EncodeEvents(events, strMap) + Be32(END)) + str
      ensures |blob| < U32_RANGE && Reservation(0, 0) !in old(reserved)
          ==> ParseBlob(blob) == Some(Tree(old(reserved), tree))
    {
      hide Be32, Be64, Interned, EncodeEvents, EncodeReservations, Encodable, Header, ParseBlob;
      st := st + Be32(END);
      rsv := rsv + Be64(0);
      rsv := rsv + Be64(0);
      EncodeReservationsAppend(reserved, Reservation(0, 0));
      assert rsv == EncodeReservations(reserved + [Reservation(0, 0)]);

      blob := EmitHeader(|rsv|, |st|, |str|);
      blob := blob + rsv;
      blob := blob + st;
      blob := blob + str;
      if |blob| < U32_RANGE {
        assert blob[..HEADER_SIZE] == Header(|rsv|, |st|, |str|);
        HeaderFields(blob, |rsv|, |st|, |str|);
      }
      assert blob[40..] == rsv + st + str;
      if |blob| < U32_RANGE && Reservation(0, 0) !in reserved {
        ParseBlobInverse(tree, reserved, strMap, str);
      }
    }
  }
}
