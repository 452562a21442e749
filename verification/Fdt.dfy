/**
 The flattened device tree: the tree it stands for, its encoding, and a parser written from the
 Devicetree Specification v0.4, sections 5.2 to 5.6. The parser is the reference the builder
 of `FdtBuilder` is proved against; it shares no code with the encoder.
 */
module Fdt {
  import opened Bytes

  // ── Constants (fw_dtb.cpp) ────────────────────────────────────────────────

  const MAGIC: u32 := 0xd00d_feed
  const VERSION: u32 := 17
  const COMP_VERSION: u32 := 16
  const HEADER_SIZE := 40
  const BEGIN_NODE: u32 := 1
  const END_NODE: u32 := 2
  const PROP: u32 := 3
  const NOP: u32 := 4
  const END: u32 := 9

  // ── The tree ──────────────────────────────────────────────────────────────

  type Name = s: seq<byte> | 0 !in s

  /** The contents of a node, properties and subnodes in the order they were emitted. */
  datatype Items =
    | Nil
    | Prop(name: Name, value: seq<byte>, next: Items)
    | Node(name: Name, body: Items, next: Items)

  /** One builder call. */
  datatype Event = BeginNode(name: Name) | EndNode | AddProp(name: Name, value: seq<byte>)

  datatype Reservation = Reservation(address: u64, size: u64)

  datatype Tree = Tree(reservations: seq<Reservation>, items: Items)

  /** The builder calls that describe a tree, in order: a well-nested sequence. */
  function Events(t: Items): seq<Event>
  {
    match t
    case Nil => []
    case Prop(n, v, next) => [AddProp(n, v)] + Events(next)
    case Node(n, body, next) => [BeginNode(n)] + Events(body) + [EndNode] + Events(next)
  }

  // ── Encoding ──────────────────────────────────────────────────────────────

  function PadLen(n: nat): (p: nat)
    ensures p < 4 && (n + p) % 4 == 0
  {
    (4 - n % 4) % 4
  }

  type Offsets = map<Name, u32>

  ghost predicate EventOk(e: Event, m: Offsets)
  {
    e.AddProp? ==> e.name in m && |e.value| < 0x1_0000_0000
  }

  function EncodeEvent(e: Event, m: Offsets): (s: seq<byte>)
    requires EventOk(e, m)
  {
    match e
    case BeginNode(n) => Be32(BEGIN_NODE) + n + Zeros(1 + PadLen(|n| + 1))
    case EndNode => Be32(END_NODE)
    case AddProp(n, v) => Be32(PROP) + Be32(|v|) + Be32(m[n]) + v + Zeros(PadLen(|v|))
  }

  ghost predicate Encodable(es: seq<Event>, m: Offsets)
  {
    forall i :: 0 <= i < |es| ==> EventOk(es[i], m)
  }

  lemma EncodeEventAligned(e: Event, m: Offsets)
    requires EventOk(e, m)
    ensures |EncodeEvent(e, m)| % 4 == 0
  {
    hide Be32, Zeros;
  }

  ghost function EncodeEvents(es: seq<Event>, m: Offsets): seq<byte>
    requires Encodable(es, m)
  {
    if es == [] then [] else EncodeEvents(es[..|es| - 1], m) + EncodeEvent(es[|es| - 1], m)
  }

  lemma {:induction false} EncodeEventsAppend(xs: seq<Event>, ys: seq<Event>, m: Offsets)
    requires Encodable(xs + ys, m)
    ensures Encodable(xs, m) && Encodable(ys, m)
    ensures EncodeEvents(xs + ys, m) == EncodeEvents(xs, m) + EncodeEvents(ys, m)
  {
    hide EncodeEvent, EventOk;
    assert forall i :: 0 <= i < |xs| ==> xs[i] == (xs + ys)[i];
    assert forall i :: 0 <= i < |ys| ==> ys[i] == (xs + ys)[|xs| + i];
    if ys == [] {
      assert xs + ys == xs;
    } else {
      var init := ys[..|ys| - 1];
      assert (xs + ys)[..|xs + ys| - 1] == xs + init;
      EncodeEventsAppend(xs, init, m);
    }
  }

  /** Later additions to the offset table leave an encoding as it is. */
  lemma {:induction false} EncodeEventsExtend(es: seq<Event>, m: Offsets, m': Offsets)
    requires Encodable(es, m)
    requires forall n :: n in m ==> n in m' && m'[n] == m[n]
    ensures Encodable(es, m') && EncodeEvents(es, m') == EncodeEvents(es, m)
  {
    if es != [] {
      EncodeEventsExtend(es[..|es| - 1], m, m');
    }
  }

  function EncodeReservation(r: Reservation): (s: seq<byte>)
    ensures |s| == 16
  {
    Be64(r.address) + Be64(r.size)
  }

  function EncodeReservations(rs: seq<Reservation>): (s: seq<byte>)
    ensures |s| == 16 * |rs|
  {
    if rs == [] then [] else EncodeReservation(rs[0]) + EncodeReservations(rs[1..])
  }

  lemma {:induction false} EncodeReservationsAppend(rs: seq<Reservation>, r: Reservation)
    ensures EncodeReservations(rs + [r]) == EncodeReservations(rs) + EncodeReservation(r)
  {
    if rs == [] {
      assert rs + [r] == [r];
      assert [r][1..] == [];
    } else {
      assert (rs + [r])[1..] == rs[1..] + [r];
      EncodeReservationsAppend(rs[1..], r);
    }
  }

  // ── Parsing (Devicetree Specification v0.4) ───────────────────────────────

  /** The NUL-terminated string at the front of `s`, if there is one. */
  function CString(s: seq<byte>): (r: Option<Name>)
    ensures r.Some? ==> |r.value| < |s| && s[..|r.value|] == r.value && s[|r.value|] == 0
  {
    if s == [] then None
    else if s[0] == 0 then Some([])
    else
      match CString(s[1..])
      case None => None
      case Some(rest) => Some([s[0]] + rest)
  }

  /** Section 5.5: the string a property's `nameoff` points at. */
  function StringAt(strings: seq<byte>, off: nat): Option<Name>
  {
    if off <= |strings| then CString(strings[off..]) else None
  }

  datatype Parsed = Parsed(items: Items, rest: seq<byte>)

  /** Section 5.4: the tokens up to the FDT_END_NODE or FDT_END that closes the enclosing level. */
  function ParseItems(s: seq<byte>, strings: seq<byte>): (r: Option<Parsed>)
    ensures r.Some? ==> |r.value.rest| <= |s|
    decreases |s|
  {
    if |s| < 4 then None
    else
      var token := ReadBe32(s, 0);
      if token == END_NODE || token == END then Some(Parsed(Nil, s))
      else if token == NOP then ParseItems(s[4..], strings)
      else if token == PROP then ParseProp(s, strings)
      else if token == BEGIN_NODE then ParseNode(s, strings)
      else None
  }

  function ParseProp(s: seq<byte>, strings: seq<byte>): (r: Option<Parsed>)
    requires |s| >= 4
    ensures r.Some? ==> |r.value.rest| <= |s|
    decreases |s|, 0
  {
    if |s| < 12 then None
    else
      var len := ReadBe32(s, 4);
      var end := 12 + len + PadLen(len);
      if |s| < end then None
      else
        match StringAt(strings, ReadBe32(s, 8))
        case None => None
        case Some(name) =>
          match ParseItems(s[end..], strings)
          case None => None
          case Some(p) => Some(Parsed(Prop(name, s[12..12 + len], p.items), p.rest))
  }

  function ParseNode(s: seq<byte>, strings: seq<byte>): (r: Option<Parsed>)
    requires |s| >= 4
    ensures r.Some? ==> |r.value.rest| <= |s|
    decreases |s|, 0
  {
    match CString(s[4..])
    case None => None
    case Some(name) =>
      var end := 4 + |name| + 1 + PadLen(|name| + 1);
      if |s| < end then None
      else
        match ParseItems(s[end..], strings)
        case None => None
        case Some(body) =>
          if |body.rest| < 4 || ReadBe32(body.rest, 0) != END_NODE then None
          else
            match ParseItems(body.rest[4..], strings)
            case None => None
            case Some(p) => Some(Parsed(Node(name, body.items, p.items), p.rest))
  }

  /** Section 5.3: address/size pairs up to the pair of zeros that ends the list. */
  function ParseReservations(s: seq<byte>): Option<seq<Reservation>>
  {
    if |s| < 16 then None
    else
      var r := Reservation(ReadBe64(s, 0), ReadBe64(s, 8));
      if r == Reservation(0, 0) then Some([])
      else
        match ParseReservations(s[16..])
        case None => None
        case Some(rs) => Some([r] + rs)
  }

  /** Sections 5.2 and 5.6: header fields, block bounds and alignment, then the three blocks. */
  function ParseBlob(b: seq<byte>): Option<Tree>
  {
    if |b| < HEADER_SIZE || ReadBe32(b, 0) != MAGIC then None
    else
      var total := ReadBe32(b, 4);
      var offStruct, offStrings, offRsv := ReadBe32(b, 8), ReadBe32(b, 12), ReadBe32(b, 16);
      var version, compVersion := ReadBe32(b, 20), ReadBe32(b, 24);
      var sizeStrings, sizeStruct := ReadBe32(b, 32), ReadBe32(b, 36);
      if version < 17 || compVersion > 17 || total > |b| then None
      else if offStruct % 4 != 0 || offRsv % 8 != 0 || offRsv > total then None
      else if offStruct + sizeStruct > total || offStrings + sizeStrings > total then None
      else
        var strings := b[offStrings..offStrings + sizeStrings];
        match (ParseReservations(b[offRsv..total]),
               ParseItems(b[offStruct..offStruct + sizeStruct], strings))
        case (Some(rs), Some(p)) =>
          if p.rest == Be32(END) then Some(Tree(rs, p.items)) else None
        case (_, _) => None
  }

  // ── Parsing undoes encoding ───────────────────────────────────────────────

  /** Every offset in the table reads back its name from the strings block. */
  ghost predicate Interned(strings: seq<byte>, m: Offsets)
  {
    forall n :: n in m ==> StringAt(strings, m[n]) == Some(n)
  }

  lemma {:induction false} CStringOf(n: Name, k: nat, rest: seq<byte>)
    requires k > 0
    ensures CString(n + Zeros(k) + rest) == Some(n)
  {
    var s := n + Zeros(k) + rest;
    if n == [] {
      assert s[0] == Zeros(k)[0];
    } else {
      var tail: Name := n[1..];
      assert s[0] == n[0] != 0;
      assert s[1..] == tail + Zeros(k) + rest;
      CStringOf(tail, k, rest);
      assert [n[0]] + tail == n;
    }
  }

  /** Bytes appended to the strings block do not change what an offset reads. */
  lemma {:induction false} CStringExtend(s: seq<byte>, more: seq<byte>)
    requires CString(s).Some?
    ensures CString(s + more) == CString(s)
  {
    if s[0] != 0 {
      assert (s + more)[1..] == s[1..] + more;
      CStringExtend(s[1..], more);
    }
  }

  lemma StringAtExtend(strings: seq<byte>, off: nat, more: seq<byte>)
    requires StringAt(strings, off).Some?
    ensures StringAt(strings + more, off) == StringAt(strings, off)
  {
    assert (strings + more)[off..] == strings[off..] + more;
    CStringExtend(strings[off..], more);
  }

  ghost predicate Closes(rest: seq<byte>)
  {
    |rest| >= 4 && (ReadBe32(rest, 0) == END_NODE || ReadBe32(rest, 0) == END)
  }

  lemma TokenAt(token: u32, rest: seq<byte>)
    ensures ReadBe32(Be32(token) + rest, 0) == token && (Be32(token) + rest)[4..] == rest
  {
    assert (Be32(token) + rest)[0..4] == Be32(token);
    ReadBe32At(Be32(token) + rest, 0, token);
  }

  lemma PropSlices(a: seq<byte>, b: seq<byte>, c: seq<byte>, v: seq<byte>, z: seq<byte>, rest: seq<byte>)
    requires |a| == |b| == |c| == 4
    ensures var s := a + b + c + v + z + rest;
            && s[0..4] == a && s[4..8] == b && s[8..12] == c
            && s[12..12 + |v|] == v && s[12 + |v| + |z|..] == rest
  {
  }

  lemma ParsePropInverse(n: Name, v: seq<byte>, m: Offsets, strings: seq<byte>, rest: seq<byte>)
    requires EventOk(AddProp(n, v), m) && Interned(strings, m)
    requires ParseItems(rest, strings).Some?
    ensures var p := ParseItems(rest, strings).value;
            ParseItems(EncodeEvent(AddProp(n, v), m) + rest, strings) == Some(Parsed(Prop(n, v, p.items), p.rest))
  {
    hide Be32, ReadBe32, CString, Zeros, PadLen, StringAt;
    assert StringAt(strings, m[n]) == Some(n);
    var s := EncodeEvent(AddProp(n, v), m) + rest;
    assert s == Be32(PROP) + Be32(|v|) + Be32(m[n]) + v + Zeros(PadLen(|v|)) + rest;
    PropSlices(Be32(PROP), Be32(|v|), Be32(m[n]), v, Zeros(PadLen(|v|)), rest);
    hide EncodeEvent, Interned;
    ReadBe32At(s, 0, PROP);
    ReadBe32At(s, 4, |v|);
    ReadBe32At(s, 8, m[n]);
    assert ParseItems(s, strings) == ParseProp(s, strings);
    hide ParseItems;
  }

  lemma NodeSlices(a: seq<byte>, n: seq<byte>, z: seq<byte>, mid: seq<byte>)
    requires |a| == 4
    ensures var s := a + n + z + mid; s[0..4] == a && s[4..] == n + z + mid && s[4 + |n| + |z|..] == mid
  {
  }

  lemma ParseNodeInverse(n: Name, m: Offsets, body: Items, mid: seq<byte>, rest: seq<byte>, strings: seq<byte>)
    requires ParseItems(mid, strings) == Some(Parsed(body, Be32(END_NODE) + rest))
    requires ParseItems(rest, strings).Some?
    ensures var p := ParseItems(rest, strings).value;
            ParseItems(EncodeEvent(BeginNode(n), m) + mid, strings) == Some(Parsed(Node(n, body, p.items), p.rest))
  {
    hide Be32, ReadBe32, CString, Zeros;
    var k := 1 + PadLen(|n| + 1);
    var s := Be32(BEGIN_NODE) + n + Zeros(k) + mid;
    assert s == EncodeEvent(BeginNode(n), m) + mid;
    NodeSlices(Be32(BEGIN_NODE), n, Zeros(k), mid);
    hide EncodeEvent, PadLen;
    assert ParseItems(s, strings) == ParseNode(s, strings) by {
      ReadBe32At(s, 0, BEGIN_NODE);
    }
    hide ParseItems;
    CStringOf(n, k, mid);
    TokenAt(END_NODE, rest);
  }

  lemma EncodeOne(e: Event, m: Offsets)
    requires EventOk(e, m)
    ensures EncodeEvents([e], m) == EncodeEvent(e, m)
  {
    hide EncodeEvent, EventOk;
    assert [e][..0] == [];
  }

  lemma EncodePropItem(n: Name, v: seq<byte>, next: Items, m: Offsets, rest: seq<byte>)
    requires Encodable(Events(Prop(n, v, next)), m)
    ensures EventOk(AddProp(n, v), m) && Encodable(Events(next), m)
    ensures EncodeEvents(Events(Prop(n, v, next)), m) + rest
         == EncodeEvent(AddProp(n, v), m) + (EncodeEvents(Events(next), m) + rest)
  {
    hide EncodeEvent, EventOk;
    EncodeEventsAppend([AddProp(n, v)], Events(next), m);
    assert [AddProp(n, v)][0] == AddProp(n, v);
    EncodeOne(AddProp(n, v), m);
  }

  lemma EncodeNodeItem(n: Name, body: Items, next: Items, m: Offsets, rest: seq<byte>)
    requires Encodable(Events(Node(n, body, next)), m)
    ensures Encodable(Events(body), m) && Encodable(Events(next), m)
    ensures EncodeEvents(Events(Node(n, body, next)), m) + rest
         == EncodeEvent(BeginNode(n), m)
            + (EncodeEvents(Events(body), m) + (Be32(END_NODE) + (EncodeEvents(Events(next), m) + rest)))
  {
    hide Be32, EncodeEvents;
    var bs, es := Events(body), Events(next);
    assert Events(Node(n, body, next)) == [BeginNode(n)] + (bs + ([EndNode] + es));
    EncodeEventsAppend([BeginNode(n)], bs + ([EndNode] + es), m);
    EncodeEventsAppend(bs, [EndNode] + es, m);
    EncodeEventsAppend([EndNode], es, m);
    EncodeOne(BeginNode(n), m);
    EncodeOne(EndNode, m);
    assert EncodeEvent(EndNode, m) == Be32(END_NODE);
    hide EncodeEvent, EventOk, Events;
  }

  /** The structure block of any tree parses back to that tree and to nothing more. */
  lemma {:induction false} ParseItemsInverse(t: Items, m: Offsets, strings: seq<byte>, rest: seq<byte>)
    requires Encodable(Events(t), m) && Interned(strings, m) && Closes(rest)
    ensures ParseItems(EncodeEvents(Events(t), m) + rest, strings) == Some(Parsed(t, rest))
    decreases t
  {
    match t
    case Nil =>
      assert EncodeEvents(Events(t), m) + rest == rest;
    case Prop(n, v, next) =>
      hide ParseItems, Be32, ReadBe32, EncodeEvent, EncodeEvents, EventOk, Events, Interned;
      EncodePropItem(n, v, next, m, rest);
      ParseItemsInverse(next, m, strings, rest);
      ParsePropInverse(n, v, m, strings, EncodeEvents(Events(next), m) + rest);
    case Node(n, body, next) =>
      hide ParseItems, Be32, ReadBe32, EncodeEvent, EncodeEvents, EventOk, Events, Interned;
      EncodeNodeItem(n, body, next, m, rest);
      var after := EncodeEvents(Events(next), m) + rest;
      TokenAt(END_NODE, after);
      ParseItemsInverse(body, m, strings, Be32(END_NODE) + after);
      ParseItemsInverse(next, m, strings, rest);
      ParseNodeInverse(n, m, body, EncodeEvents(Events(body), m) + (Be32(END_NODE) + after), after, strings);
  }

  /** The reservation block parses back to the reservations it was built from. */
  lemma {:induction false} ParseReservationsInverse(rs: seq<Reservation>, rest: seq<byte>)
    requires Reservation(0, 0) !in rs
    ensures ParseReservations(EncodeReservations(rs + [Reservation(0, 0)]) + rest) == Some(rs)
  {
    hide Be64, ReadBe64;
    var all := rs + [Reservation(0, 0)];
    assert EncodeReservations(all) == EncodeReservation(all[0]) + EncodeReservations(all[1..]);
    hide EncodeReservations;
    var s := EncodeReservations(all) + rest;
    var tail := EncodeReservations(all[1..]) + rest;
    assert s == EncodeReservation(all[0]) + tail;
    assert s[0..8] == Be64(all[0].address) && s[8..16] == Be64(all[0].size);
    ReadBe64At(s, 0, all[0].address);
    ReadBe64At(s, 8, all[0].size);
    assert |s| >= 16 && ParseReservations(s) == if all[0] == Reservation(0, 0) then Some([]) else
      match ParseReservations(s[16..]) case None => None case Some(t) => Some([all[0]] + t);
    if rs != [] {
      assert all[1..] == rs[1..] + [Reservation(0, 0)];
      assert s[16..] == tail;
      ParseReservationsInverse(rs[1..], rest);
      assert all[0] == rs[0] && rs[0] in rs;
      assert [rs[0]] + rs[1..] == rs;
    }
  }

  /** The finished blob: header, reservations, structure, strings. */
  ghost function Header(rsvLen: nat, structLen: nat, stringsLen: nat): (h: seq<byte>)
    requires HEADER_SIZE + rsvLen + structLen + stringsLen < 0x1_0000_0000
    ensures |h| == HEADER_SIZE
  {
    var offStruct := HEADER_SIZE + rsvLen;
    var offStrings := offStruct + structLen;
    Be32(MAGIC) + Be32(offStrings + stringsLen) + Be32(offStruct) + Be32(offStrings) + Be32(HEADER_SIZE)
    + Be32(VERSION) + Be32(COMP_VERSION) + Be32(0) + Be32(stringsLen) + Be32(structLen)
  }

  lemma HeaderFields(b: seq<byte>, r: nat, st: nat, str: nat)
    requires HEADER_SIZE + r + st + str < 0x1_0000_0000
    requires |b| >= HEADER_SIZE && b[..HEADER_SIZE] == Header(r, st, str)
    ensures ReadBe32(b, 0) == MAGIC && ReadBe32(b, 4) == HEADER_SIZE + r + st + str
    ensures ReadBe32(b, 8) == HEADER_SIZE + r && ReadBe32(b, 12) == HEADER_SIZE + r + st
    ensures ReadBe32(b, 16) == HEADER_SIZE && ReadBe32(b, 20) == VERSION && ReadBe32(b, 24) == COMP_VERSION
    ensures ReadBe32(b, 28) == 0 && ReadBe32(b, 32) == str && ReadBe32(b, 36) == st
  {
    hide Be32, ReadBe32;
    var h := b[..HEADER_SIZE];
    var x := [Be32(MAGIC), Be32(HEADER_SIZE + r + st + str), Be32(HEADER_SIZE + r), Be32(HEADER_SIZE + r + st), Be32(HEADER_SIZE),
              Be32(VERSION), Be32(COMP_VERSION), Be32(0), Be32(str), Be32(st)];
    var lo, hi := x[0] + x[1] + x[2] + x[3] + x[4], x[5] + x[6] + x[7] + x[8] + x[9];
    assert h == lo + hi;
    Words(x[0], x[1], x[2], x[3], x[4]);
    Words(x[5], x[6], x[7], x[8], x[9]);
    Field(b, lo, hi, 0, MAGIC);
    Field(b, lo, hi, 4, HEADER_SIZE + r + st + str);
    Field(b, lo, hi, 8, HEADER_SIZE + r);
    Field(b, lo, hi, 12, HEADER_SIZE + r + st);
    Field(b, lo, hi, 16, HEADER_SIZE);
    Field(b, lo, hi, 20, VERSION);
    Field(b, lo, hi, 24, COMP_VERSION);
    Field(b, lo, hi, 28, 0);
    Field(b, lo, hi, 32, str);
    Field(b, lo, hi, 36, st);
  }

  // ── The numbers of the specification ──────────────────────────────────────

  /** Section 5.2: the ten words in front of a blob with these block sizes. */
  ghost predicate HeaderWords(b: seq<byte>, rsvLen: nat, structLen: nat, stringsLen: nat)
  {
    && |b| == 40 + rsvLen + structLen + stringsLen
    && ReadBe32(b, 0) == 0xd00d_feed && ReadBe32(b, 4) == |b|
    && ReadBe32(b, 8) == 40 + rsvLen && ReadBe32(b, 12) == 40 + rsvLen + structLen && ReadBe32(b, 16) == 40
    && ReadBe32(b, 20) == 17 && ReadBe32(b, 24) == 16 && ReadBe32(b, 28) == 0
    && ReadBe32(b, 32) == stringsLen && ReadBe32(b, 36) == structLen
  }

  /** Section 5.3: two 64-bit words each, and a pair of zeros last. */
  lemma ReservationBytes(rs: seq<Reservation>, r: Reservation)
    ensures EncodeReservations(rs + [r]) == EncodeReservations(rs) + (Be64(r.address) + Be64(r.size))
    ensures EncodeReservations([]) == [] && Be64(0) + Be64(0) == Zeros(16)
  {
    EncodeReservationsAppend(rs, r);
  }

  /** Section 5.4: the tokens, names and values of the structure block, padded to words. */
  lemma EventBytes(e: Event, m: Offsets)
    requires EventOk(e, m)
    ensures e.EndNode? ==> EncodeEvent(e, m) == [0, 0, 0, 2]
    ensures e.BeginNode? ==> EncodeEvent(e, m) == [0, 0, 0, 1] + e.name + Zeros(1 + (4 - (|e.name| + 1) % 4) % 4)
    ensures e.AddProp? ==>
              EncodeEvent(e, m) == [0, 0, 0, 3] + Be32(|e.value|) + Be32(m[e.name]) + e.value + Zeros((4 - |e.value| % 4) % 4)
    ensures Be32(END) == [0, 0, 0, 9]
  {
    Tokens();
    hide Be32, Zeros;
  }

  lemma Tokens()
    ensures Be32(BEGIN_NODE) == [0, 0, 0, 1] && Be32(END_NODE) == [0, 0, 0, 2] && Be32(PROP) == [0, 0, 0, 3] && Be32(END) == [0, 0, 0, 9]
  {
  }

  /** The structure block is the calls' bytes, one after the other. */
  lemma EventsInOrder(es: seq<Event>, e: Event, m: Offsets)
    requires Encodable(es + [e], m)
    ensures Encodable(es, m) && EventOk(e, m) && EncodeEvents([], m) == []
    ensures EncodeEvents(es + [e], m) == EncodeEvents(es, m) + EncodeEvent(e, m)
  {
    assert (es + [e])[|es|] == e;
    assert EncodeEvents([], m) == [];
    EncodeEventsAppend(es, [e], m);
    EncodeOne(e, m);
    hide EncodeEvent, EncodeEvents, EventOk;
  }

  lemma Words(a: seq<byte>, b: seq<byte>, c: seq<byte>, d: seq<byte>, e: seq<byte>)
    requires |a| == |b| == |c| == |d| == |e| == 4
    ensures var s := a + b + c + d + e;
            |s| == 20 && s[0..4] == a && s[4..8] == b && s[8..12] == c && s[12..16] == d && s[16..20] == e
  {
  }

  lemma Field(b: seq<byte>, lo: seq<byte>, hi: seq<byte>, i: nat, x: u32)
    requires |lo| == |hi| == 20 && |b| >= 40 && b[..40] == lo + hi
    requires if i <= 16 then lo[i..i + 4] == Be32(x) else 20 <= i <= 36 && hi[i - 20..i - 16] == Be32(x)
    ensures i + 4 <= |b| && ReadBe32(b, i) == x
  {
    hide Be32, ReadBe32;
    assert b[..40][i..i + 4] == b[i..i + 4];
    if i <= 16 {
      assert (lo + hi)[i..i + 4] == lo[i..i + 4];
    } else {
      assert (lo + hi)[i..i + 4] == hi[i - 20..i - 16];
    }
    ReadBe32At(b, i, x);
  }

  lemma BlobSlices(h: seq<byte>, rsv: seq<byte>, st: seq<byte>, strings: seq<byte>)
    ensures var b, o := h + rsv + st + strings, |h| + |rsv|;
            && b[..|h|] == h && b[|h|..|b|] == rsv + (st + strings)
            && b[o..o + |st|] == st && b[o + |st|..o + |st| + |strings|] == strings
  {
    var b, o := h + rsv + st + strings, |h| + |rsv|;
    Regroup(h + rsv, st, strings);
    Regroup(h, rsv, st + strings);
    After(h, rsv + (st + strings));
    After(h + rsv, st + strings);
    After(h + rsv + st, strings);
    assert b[o..o + |st|] == b[o..][..|st|];
  }

  lemma After(a: seq<byte>, b: seq<byte>)
    ensures (a + b)[|a|..] == b && (a + b)[..|a|] == a
  {
  }

  /** Any blob laid out as header, reservations, structure and strings parses to its tree. */
  lemma ParseBlobInverse(t: Items, rs: seq<Reservation>, m: Offsets, strings: seq<byte>)
    requires Encodable(Events(t), m) && Interned(strings, m) && Reservation(0, 0) !in rs
    requires HEADER_SIZE + 16 * (|rs| + 1) + |EncodeEvents(Events(t), m)| + 4 + |strings| < 0x1_0000_0000
    ensures var rsv := EncodeReservations(rs + [Reservation(0, 0)]);
            var st := EncodeEvents(Events(t), m) + Be32(END);
            ParseBlob(Header(|rsv|, |st|, |strings|) + rsv + st + strings) == Some(Tree(rs, t))
  {
    hide Be32, ReadBe32, EncodeEvents, EncodeReservations, Header, ParseItems, ParseReservations, Encodable, Interned;
    var rsv := EncodeReservations(rs + [Reservation(0, 0)]);
    var st := EncodeEvents(Events(t), m) + Be32(END);
    var h := Header(|rsv|, |st|, |strings|);
    var b := h + rsv + st + strings;
    BlobSlices(h, rsv, st, strings);
    HeaderFields(b, |rsv|, |st|, |strings|);
    ParseReservationsInverse(rs, st + strings);
    TokenAt(END, []);
    assert Be32(END) + [] == Be32(END);
    ParseItemsInverse(t, m, strings, Be32(END));
  }
}
