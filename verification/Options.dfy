/** Socket options: validation and binary encoding (src/gen_utp_opts.erl, src/gen_utp.erl), decoding
    and merging (c_src/socket_handler.cc). */
module Options {
  import opened Bytes

  datatype Mode = ListMode | BinaryMode
  datatype Family = Inet | Inet6
  datatype Active = ActiveFalse | ActiveOnce | ActiveTrue
  datatype Timeout = Infinity | Millis(ms: nat)

  const IP_OPT: byte := 1
  const PORT_OPT: byte := 2
  const LIST_OPT: byte := 3
  const BINARY_OPT: byte := 4
  const INET_OPT: byte := 6
  const INET6_OPT: byte := 7
  const SEND_TMOUT_OPT: byte := 8
  const SEND_TMOUT_INFINITE_OPT: byte := 9
  const ACTIVE_OPT: byte := 10
  const PACKET_OPT: byte := 11
  const HEADER_OPT: byte := 12
  const SNDBUF_OPT: byte := 13
  const RECBUF_OPT: byte := 14

  const MAX_ADDRESS := 45 // INET6_ADDRSTRLEN less the terminating NUL

  // ---------------------------------------------------------------- Erlang side

  /** The utp_options record. */
  datatype UtpOptions = UtpOptions(
    mode: Option<Mode>, ip: Option<seq<byte>>, port: Option<nat>, family: Option<Family>,
    sendTmout: Option<Timeout>, active: Option<Active>, packet: Option<nat>, header: Option<nat>,
    sndbuf: Option<nat>, recbuf: Option<nat>)

  const NO_OPTIONS := UtpOptions(None, None, None, None, None, None, None, None, None, None)

  /** One element of the option list a caller passes. For an address, the outcome of resolving it
      (inet:getaddr, inet_parse:ntoa) is part of the element; None is an address that does not resolve. */
  datatype OptTerm =
    | ModeOpt(mode: Option<Mode>)
    | IpOpt(resolved: Option<(Family, seq<byte>)>)
    | PortOpt(port: int)
    | FamilyOpt(family: Family)
    | SendTimeoutOpt(infinite: bool, ms: int)
    | ActiveOpt(active: Option<Active>)
    | PacketOpt(size: int)
    | HeaderOpt(size: int)
    | SndbufOpt(size: int)
    | RecbufOpt(size: int)

  /** validate/2: None is a badarg error. */
  function Validate(terms: seq<OptTerm>, o: UtpOptions): Option<UtpOptions> {
    if terms == [] then
      if o.header.None? || o.mode == Some(BinaryMode) then Some(o) else None
    else
      match ValidateTerm(terms[0], o)
      case None => None
      case Some(next) => Validate(terms[1..], next)
  }

  function ValidateTerm(t: OptTerm, o: UtpOptions): Option<UtpOptions> {
    match t
    case ModeOpt(m) => if m.Some? then Some(o.(mode := m)) else None
    case IpOpt(r) => if r.Some? then Some(o.(family := Some(r.value.0), ip := Some(r.value.1))) else None
    case PortOpt(p) => if 0 <= p < 65536 then Some(o.(port := Some(p))) else None
    case FamilyOpt(f) =>
      if o.ip.None? then Some(o.(family := Some(f)))
      else if o.family == Some(f) then Some(o) else None
    case SendTimeoutOpt(infinite, ms) =>
      if infinite then Some(o.(sendTmout := Some(Infinity)))
      else if ms > 0 then Some(o.(sendTmout := Some(Millis(ms)))) else None
    case ActiveOpt(a) => if a.Some? then Some(o.(active := a)) else None
    case PacketOpt(p) => if p == 0 || p == 1 || p == 2 || p == 4 then Some(o.(packet := Some(p))) else None
    case HeaderOpt(n) => if 0 < n < 65536 then Some(o.(header := Some(n))) else None
    case SndbufOpt(n) => if n > 0 then Some(o.(sndbuf := Some(n))) else None
    case RecbufOpt(n) => if n > 0 then Some(o.(recbuf := Some(n))) else None
  }

  /** Every address the resolver hands back is printable: short and without a NUL. */
  predicate Printable(addr: seq<byte>) {
    |addr| <= MAX_ADDRESS && 0 !in addr
  }

  predicate ResolverContract(terms: seq<OptTerm>) {
    forall i :: 0 <= i < |terms| && terms[i].IpOpt? && terms[i].resolved.Some? ==> Printable(terms[i].resolved.value.1)
  }

  /** What validation establishes of each field on its own. */
  predicate FieldsInRange(o: UtpOptions) {
    && (o.ip.Some? ==> Printable(o.ip.value) && o.family.Some?)
    && (o.port.Some? ==> o.port.value < 65536)
    && (o.sendTmout.Some? && o.sendTmout.value.Millis? ==> o.sendTmout.value.ms > 0)
    && (o.packet.Some? ==> o.packet.value in {0, 1, 2, 4})
    && (o.header.Some? ==> 0 < o.header.value < 65536)
    && (o.sndbuf.Some? ==> o.sndbuf.value > 0)
    && (o.recbuf.Some? ==> o.recbuf.value > 0)
  }

  /** The preconditions of the codec, including that a header size needs binary mode. */
  predicate Validated(o: UtpOptions) {
    && FieldsInRange(o)
    && (o.header.Some? ==> o.mode == Some(BinaryMode))
  }

  lemma ValidateTermSound(t: OptTerm, o: UtpOptions)
    requires FieldsInRange(o)
    requires t.IpOpt? && t.resolved.Some? ==> Printable(t.resolved.value.1)
    ensures ValidateTerm(t, o).Some? ==> FieldsInRange(ValidateTerm(t, o).value)
  {
    hide Printable;
  }

  /** validate/2 only lets records through that meet the preconditions of the codec. */
  lemma {:induction false} ValidateSound(terms: seq<OptTerm>, o: UtpOptions)
    requires FieldsInRange(o) && ResolverContract(terms)
    ensures Validate(terms, o).Some? ==> Validated(Validate(terms, o).value)
  {
    if terms != [] {
      ValidateTermSound(terms[0], o);
      var r := ValidateTerm(terms[0], o);
      if r.Some? {
        assert forall i :: 0 <= i < |terms[1..]| ==> terms[1..][i] == terms[i + 1];
        ValidateSound(terms[1..], r.value);
      }
    }
  }

  /** The ten parts of the binary. The family inet is not written at all. */
  function BinaryParts(o: UtpOptions): (r: seq<seq<byte>>)
    ensures |r| == 10
  {
    [ match o.mode
      case None => []
      case Some(ListMode) => [LIST_OPT]
      case Some(BinaryMode) => [BINARY_OPT],
      match o.family
      case None => []
      case Some(Inet) => []
      case Some(Inet6) => [INET6_OPT],
      if o.ip.None? then [] else [IP_OPT] + o.ip.value + [0],
      if o.port.None? then [] else [PORT_OPT] + BigEndian(o.port.value, 2),
      match o.sendTmout
      case None => []
      case Some(Infinity) => [SEND_TMOUT_INFINITE_OPT]
      case Some(Millis(ms)) => [SEND_TMOUT_OPT] + BigEndian(ms, 4),
      match o.active
      case None => []
      case Some(ActiveFalse) => [ACTIVE_OPT, 0]
      case Some(ActiveOnce) => [ACTIVE_OPT, 1]
      case Some(ActiveTrue) => [ACTIVE_OPT, 2],
      if o.packet.None? then [] else [PACKET_OPT] + BigEndian(o.packet.value, 1),
      if o.header.None? then [] else [HEADER_OPT] + BigEndian(o.header.value, 2),
      if o.sndbuf.None? then [] else [SNDBUF_OPT] + BigEndian(o.sndbuf.value, 4),
      if o.recbuf.None? then [] else [RECBUF_OPT] + BigEndian(o.recbuf.value, 4) ]
  }

  /** options_to_binary/1. */
  function OptionsToBinary(o: UtpOptions): seq<byte> {
    Flatten(BinaryParts(o))
  }

  /** The binary byte by byte: each option that is set gives its code and its value, most significant byte first,
      and the ones that are not set give nothing. */
  lemma WireFormat(o: UtpOptions)
    ensures var parts := BinaryParts(o);
            && OptionsToBinary(o) == Flatten(parts)
            && parts[0] == (if o.mode.None? then [] else if o.mode == Some(ListMode) then [3] else [4])
            && parts[1] == (if o.family == Some(Inet6) then [7] else [])
            && parts[2] == (if o.ip.None? then [] else [1] + o.ip.value + [0])
            && parts[3] == (if o.port.None? then [] else [2] + TwoBytes(o.port.value))
            && parts[4] == (if o.sendTmout.None? then []
                            else if o.sendTmout == Some(Infinity) then [9] else [8] + FourBytes(o.sendTmout.value.ms))
            && parts[5] == (if o.active.None? then []
                            else if o.active == Some(ActiveFalse) then [10, 0]
                            else if o.active == Some(ActiveOnce) then [10, 1] else [10, 2])
            && parts[6] == (if o.packet.None? then [] else [11, o.packet.value % 256])
            && parts[7] == (if o.header.None? then [] else [12] + TwoBytes(o.header.value))
            && parts[8] == (if o.sndbuf.None? then [] else [13] + FourBytes(o.sndbuf.value))
            && parts[9] == (if o.recbuf.None? then [] else [14] + FourBytes(o.recbuf.value))
  {
    AddressBytes(o);
    TmoutBytes(o);
    BufferBytes(o);
    hide BinaryParts, TwoBytes, FourBytes, Flatten;
  }

  lemma AddressBytes(o: UtpOptions)
    ensures var parts := BinaryParts(o);
            && parts[0] == (if o.mode.None? then [] else if o.mode == Some(ListMode) then [3] else [4])
            && parts[1] == (if o.family == Some(Inet6) then [7] else [])
            && parts[2] == (if o.ip.None? then [] else [1] + o.ip.value + [0])
            && parts[3] == (if o.port.None? then [] else [2] + TwoBytes(o.port.value))
  {
    BytesOf(o.port);
    hide BigEndian, TwoBytes, FourBytes;
  }

  lemma TmoutBytes(o: UtpOptions)
    ensures var parts := BinaryParts(o);
            && parts[4] == (if o.sendTmout.None? then []
                            else if o.sendTmout == Some(Infinity) then [9] else [8] + FourBytes(o.sendTmout.value.ms))
            && parts[5] == (if o.active.None? then []
                            else if o.active == Some(ActiveFalse) then [10, 0]
                            else if o.active == Some(ActiveOnce) then [10, 1] else [10, 2])
            && parts[6] == (if o.packet.None? then [] else [11, o.packet.value % 256])
  {
    BytesOf(o.packet);
    BytesOf(if o.sendTmout.Some? && o.sendTmout.value.Millis? then Some(o.sendTmout.value.ms) else None);
    hide BigEndian, TwoBytes, FourBytes;
  }

  lemma BufferBytes(o: UtpOptions)
    ensures var parts := BinaryParts(o);
            && parts[7] == (if o.header.None? then [] else [12] + TwoBytes(o.header.value))
            && parts[8] == (if o.sndbuf.None? then [] else [13] + FourBytes(o.sndbuf.value))
            && parts[9] == (if o.recbuf.None? then [] else [14] + FourBytes(o.recbuf.value))
  {
    BytesOf(o.header);
    BytesOf(o.sndbuf);
    BytesOf(o.recbuf);
    hide BigEndian, TwoBytes, FourBytes;
  }

  function TwoBytes(n: nat): seq<byte> { [n / 0x100 % 256, n % 256] }

  function FourBytes(n: nat): seq<byte> {
    [n / 0x100_0000 % 256, n / 0x1_0000 % 256, n / 0x100 % 256, n % 256]
  }

  lemma BytesOf(n: Option<nat>)
    ensures n.Some? ==> BigEndian(n.value, 1) == [n.value % 256]
    ensures n.Some? ==> BigEndian(n.value, 2) == TwoBytes(n.value) && BigEndian(n.value, 4) == FourBytes(n.value)
  {
    if n.Some? {
      hide BigEndian;
      forall p: nat, i: nat | i < p <= 4
        ensures BigEndian(n.value, p)[i] == n.value / Pow256(p - 1 - i) % 256
      {
        BigEndianAt(n.value, p, i);
      }
      assert Pow256(0) == 1 && Pow256(1) == 0x100 && Pow256(2) == 0x1_0000 && Pow256(3) == 0x100_0000;
      hide Pow256;
    }
  }

  // ---------------------------------------------------------------- driver side

  /** struct SockOpts, less the file descriptor and the resolved address. */
  datatype SockOpts = SockOpts(
    sendTmout: int, active: Active, header: nat, sndbuf: int, recbuf: int, port: nat,
    mode: Mode, packet: nat, inet6: bool, address: Option<seq<byte>>)

  const DEFAULTS := SockOpts(-1, ActiveTrue, 0, 16384, 16384, 0, ListMode, 0, false, None)

  /** One decoded option. */
  datatype Item =
    | AddressItem(addr: seq<byte>)
    | PortItem(port: nat)
    | ModeItem(mode: Mode)
    | FamilyItem(family: Family)
    | TmoutItem(ms: nat)
    | TmoutInfiniteItem
    | ActiveItem(active: Active)
    | PacketItem(packet: nat)
    | HeaderItem(header: nat)
    | SndbufItem(size: nat)
    | RecbufItem(size: nat)

  /** The conversion of an unsigned 32-bit value to the C type int. */
  function ToInt32(n: nat): int {
    if n < 0x8000_0000 then n else n - 0x1_0000_0000
  }

  /** The effect of one decoded option on the fields. */
  function Apply(so: SockOpts, item: Item): SockOpts {
    match item
    case AddressItem(a) => so.(address := Some(a))
    case PortItem(p) => so.(port := p)
    case ModeItem(m) => so.(mode := m)
    case FamilyItem(f) => so.(inet6 := f == Inet6)
    case TmoutItem(ms) => so.(sendTmout := ms)
    case TmoutInfiniteItem => so.(sendTmout := -1)
    case ActiveItem(a) => so.(active := a)
    case PacketItem(p) => so.(packet := p)
    case HeaderItem(h) => so.(header := h)
    case SndbufItem(n) => so.(sndbuf := ToInt32(n))
    case RecbufItem(n) => so.(recbuf := ToInt32(n))
  }

  function ApplyAll(so: SockOpts, items: seq<Item>): SockOpts
    decreases |items|
  {
    if items == [] then so else ApplyAll(Apply(so, items[0]), items[1..])
  }

  lemma {:induction false} ApplyAllAppend(so: SockOpts, a: seq<Item>, b: seq<Item>)
    ensures ApplyAll(so, a + b) == ApplyAll(ApplyAll(so, a), b)
    decreases |a|
  {
    if a == [] {
      assert a + b == b;
    } else {
      assert (a + b)[1..] == a[1..] + b;
      ApplyAllAppend(Apply(so, a[0]), a[1..], b);
    }
  }

  lemma ApplyAllSnoc(so: SockOpts, a: seq<Item>, x: Item)
    ensures ApplyAll(so, a + [x]) == Apply(ApplyAll(so, a), x)
  {
    ApplyAllAppend(so, a, [x]);
    assert ApplyAll(ApplyAll(so, a), [x]) == ApplyAll(Apply(ApplyAll(so, a), x), []);
  }

  /** strlen: the position of the first NUL, if there is one. */
  function FindNul(b: seq<byte>): (r: Option<nat>)
    ensures r.Some? ==> r.value < |b| && b[r.value] == 0 && 0 !in b[..r.value]
    ensures r.None? ==> 0 !in b
  {
    if b == [] then None
    else if b[0] == 0 then Some(0)
    else
      match FindNul(b[1..])
      case None => None
      case Some(i) => assert b[..i + 1] == [b[0]] + b[1..][..i]; Some(i + 1)
  }

  /** Reading one option off a non-empty string: the option, if the code denotes one, and the number
      of bytes read. None is a string that ends inside an option, an address that overflows its
      buffer, or an active value outside the enumeration; the decoder has no check for these. */
  function ReadItem(b: seq<byte>): (r: Option<(Option<Item>, nat)>)
    requires b != []
    ensures r.Some? ==> 1 <= r.value.1 <= |b|
  {
    if b[0] == IP_OPT then
      var nul := FindNul(b[1..]);
      if nul.Some? && nul.value <= MAX_ADDRESS
      then Some((Some(AddressItem(b[1..nul.value + 1])), nul.value + 2)) else None
    else if b[0] == PORT_OPT then
      if |b| < 3 then None else Some((Some(PortItem(FromBigEndian(b[1..3]))), 3))
    else if b[0] == LIST_OPT then Some((Some(ModeItem(ListMode)), 1))
    else if b[0] == BINARY_OPT then Some((Some(ModeItem(BinaryMode)), 1))
    else if b[0] == INET_OPT then Some((Some(FamilyItem(Inet)), 1))
    else if b[0] == INET6_OPT then Some((Some(FamilyItem(Inet6)), 1))
    else if b[0] == SEND_TMOUT_OPT then
      if |b| < 5 then None else Some((Some(TmoutItem(FromBigEndian(b[1..5]))), 5))
    else if b[0] == SEND_TMOUT_INFINITE_OPT then Some((Some(TmoutInfiniteItem), 1))
    else if b[0] == ACTIVE_OPT then
      if |b| < 2 then None
      else if b[1] == 0 then Some((Some(ActiveItem(ActiveFalse)), 2))
      else if b[1] == 1 then Some((Some(ActiveItem(ActiveOnce)), 2))
      else if b[1] == 2 then Some((Some(ActiveItem(ActiveTrue)), 2)) else None
    else if b[0] == PACKET_OPT then
      if |b| < 2 then None else Some((Some(PacketItem(b[1])), 2))
    else if b[0] == HEADER_OPT then
      if |b| < 3 then None else Some((Some(HeaderItem(FromBigEndian(b[1..3]))), 3))
    else if b[0] == SNDBUF_OPT then
      if |b| < 5 then None else Some((Some(SndbufItem(FromBigEndian(b[1..5]))), 5))
    else if b[0] == RECBUF_OPT then
      if |b| < 5 then None else Some((Some(RecbufItem(FromBigEndian(b[1..5]))), 5))
    else Some((None, 1))
  }

  /** The options in a binary, in order; None if the decoder would run off its end. */
  function Parse(b: seq<byte>): Option<seq<Item>>
    decreases |b|
  {
    if b == [] then Some([])
    else
      match ReadItem(b)
      case None => None
      case Some((item, n)) =>
        match Parse(b[n..])
        case None => None
        case Some(rest) => Some((if item.Some? then [item.value] else []) + rest)
  }

  /** An option that decode_and_merge refuses. */
  predicate IsAddressItem(item: Item) {
    item.AddressItem? || item.PortItem? || item.FamilyItem?
  }

  predicate HasAddressItem(items: seq<Item>) {
    exists x :: x in items && IsAddressItem(x)
  }

  /** The specification of decode_and_merge: None is the invalid_argument exception, which leaves the
      socket's options as they were; otherwise exactly the mentioned fields are overwritten. */
  function Merge(current: SockOpts, b: seq<byte>): Option<SockOpts> {
    match Parse(b)
    case None => None
    case Some(items) => if HasAddressItem(items) then None else Some(ApplyAll(current, items))
  }

  /** Merging these options keeps the packet and header sizes, if they are accepted at all. */
  predicate KeepsFraming(current: SockOpts, bin: seq<byte>) {
    Merge(current, bin).Some? ==>
      var o := Merge(current, bin).value; o.packet == current.packet && o.header == current.header
  }

  // ---------------------------------------------------------------- the decoder as it runs

  /** Copies one field named by an option from the freshly decoded record. */
  function CopyField(target: SockOpts, source: SockOpts, item: Item): SockOpts {
    match item
    case AddressItem(_) => target
    case PortItem(_) => target
    case FamilyItem(_) => target
    case ModeItem(_) => target.(mode := source.mode)
    case TmoutItem(_) => target.(sendTmout := source.sendTmout)
    case TmoutInfiniteItem => target.(sendTmout := source.sendTmout)
    case ActiveItem(_) => target.(active := source.active)
    case PacketItem(_) => target.(packet := source.packet)
    case HeaderItem(_) => target.(header := source.header)
    case SndbufItem(_) => target.(sndbuf := source.sndbuf)
    case RecbufItem(_) => target.(recbuf := source.recbuf)
  }

  function CopyFields(target: SockOpts, source: SockOpts, items: seq<Item>): SockOpts
    decreases |items|
  {
    if items == [] then target else CopyFields(CopyField(target, source, items[0]), source, items[1..])
  }

  /** The fields an option of setopts can name. */
  datatype Field = ModeField | TmoutField | ActiveField | PacketField | HeaderField | SndbufField | RecbufField

  function Get(so: SockOpts, f: Field): int {
    match f
    case ModeField => if so.mode.ListMode? then 0 else 1
    case TmoutField => so.sendTmout
    case ActiveField => (match so.active case ActiveFalse => 0 case ActiveOnce => 1 case ActiveTrue => 2)
    case PacketField => so.packet
    case HeaderField => so.header
    case SndbufField => so.sndbuf
    case RecbufField => so.recbuf
  }

  predicate Names(item: Item, f: Field) {
    match f
    case ModeField => item.ModeItem?
    case TmoutField => item.TmoutItem? || item.TmoutInfiniteItem?
    case ActiveField => item.ActiveItem?
    case PacketField => item.PacketItem?
    case HeaderField => item.HeaderItem?
    case SndbufField => item.SndbufItem?
    case RecbufField => item.RecbufItem?
  }

  predicate Mentions(items: seq<Item>, f: Field) {
    items != [] && (Names(items[0], f) || Mentions(items[1..], f))
  }

  /** A field the options do not mention keeps its value; the value of one they do mention does not
      depend on what it was before. */
  lemma {:induction false} ApplyAllFrame(a: SockOpts, b: SockOpts, items: seq<Item>, f: Field)
    ensures !Mentions(items, f) ==> Get(ApplyAll(a, items), f) == Get(a, f)
    ensures Mentions(items, f) || Get(a, f) == Get(b, f) ==> Get(ApplyAll(a, items), f) == Get(ApplyAll(b, items), f)
    decreases |items|
  {
    if items != [] {
      ApplyAllFrame(Apply(a, items[0]), Apply(b, items[0]), items[1..], f);
      if Names(items[0], f) {
        assert Get(Apply(a, items[0]), f) == Get(Apply(b, items[0]), f);
      } else {
        assert Get(Apply(a, items[0]), f) == Get(a, f);
      }
    }
  }

  lemma {:induction false} CopyFieldsFrame(target: SockOpts, source: SockOpts, items: seq<Item>, f: Field)
    ensures Get(CopyFields(target, source, items), f) ==
            if Mentions(items, f) || Get(target, f) == Get(source, f) then Get(source, f) else Get(target, f)
    ensures var r := CopyFields(target, source, items);
            r.port == target.port && r.inet6 == target.inet6 && r.address == target.address
    decreases |items|
  {
    if items != [] {
      var next := CopyField(target, source, items[0]);
      CopyFieldsFrame(next, source, items[1..], f);
      assert Get(next, f) == if Names(items[0], f) then Get(source, f) else Get(target, f);
    }
  }

  lemma {:induction false} ApplyAllAddress(so: SockOpts, items: seq<Item>)
    requires !HasAddressItem(items)
    ensures var r := ApplyAll(so, items); r.port == so.port && r.inet6 == so.inet6 && r.address == so.address
    decreases |items|
  {
    if items != [] {
      assert items[0] in items && !IsAddressItem(items[0]);
      ApplyAllAddress(Apply(so, items[0]), items[1..]);
    }
  }

  lemma CopyFieldKeepsAddress(target: SockOpts, source: SockOpts, item: Item)
    ensures var r := CopyField(target, source, item);
            r.port == target.port && r.inet6 == target.inet6 && r.address == target.address
  {
  }

  lemma SameFields(a: SockOpts, b: SockOpts)
    requires forall f: Field :: Get(a, f) == Get(b, f)
    requires a.port == b.port && a.inet6 == b.inet6 && a.address == b.address
    ensures a == b
  {
    assert Get(a, ModeField) == Get(b, ModeField);
    assert Get(a, TmoutField) == Get(b, TmoutField);
    assert Get(a, ActiveField) == Get(b, ActiveField);
    assert Get(a, PacketField) == Get(b, PacketField);
    assert Get(a, HeaderField) == Get(b, HeaderField);
    assert Get(a, SndbufField) == Get(b, SndbufField);
    assert Get(a, RecbufField) == Get(b, RecbufField);
  }

  /** Copying every mentioned field out of a record decoded from the defaults, which is how the driver
      merges, is the same as applying the options to the current record directly. */
  lemma MergeByCopying(current: SockOpts, items: seq<Item>)
    requires !HasAddressItem(items)
    ensures CopyFields(current, ApplyAll(DEFAULTS, items), items) == ApplyAll(current, items)
  {
    var source := ApplyAll(DEFAULTS, items);
    var merged := CopyFields(current, source, items);
    forall f: Field
      ensures Get(merged, f) == Get(ApplyAll(current, items), f)
      ensures merged.port == current.port && merged.inet6 == current.inet6 && merged.address == current.address
    {
      CopyFieldsFrame(current, source, items, f);
      ApplyAllFrame(current, DEFAULTS, items, f);
    }
    CopyFieldsFrame(current, source, items, ModeField);
    ApplyAllAddress(current, items);
    SameFields(merged, ApplyAll(current, items));
  }

  /** decode_and_merge overwrites exactly the mentioned fields, with what they say. */
  lemma MergeOverridesMentioned(current: SockOpts, b: seq<byte>, f: Field)
    requires Parse(b).Some?
    ensures Merge(current, b).None? <==> HasAddressItem(Parse(b).value)
    ensures Merge(current, b).Some? ==>
              var merged := Merge(current, b).value;
              && Get(merged, f)
                 == Get(if Mentions(Parse(b).value, f) then ApplyAll(DEFAULTS, Parse(b).value) else current, f)
              && merged.port == current.port && merged.inet6 == current.inet6 && merged.address == current.address
  {
    var items := Parse(b).value;
    ApplyAllFrame(current, DEFAULTS, items, f);
    if !HasAddressItem(items) {
      ApplyAllAddress(current, items);
    }
  }

  /** Where the decoder stands: `seen` has been read off the front of `bin`, `data` bytes are gone. */
  ghost predicate Decoding(bin: seq<byte>, data: nat, seen: seq<Item>) {
    && data <= |bin|
    && Parse(bin).Some? && Parse(bin[data..]).Some?
    && Parse(bin).value == seen + Parse(bin[data..]).value
  }

  lemma ParseUnfold(b: seq<byte>)
    requires b != [] && Parse(b).Some?
    ensures ReadItem(b).Some?
    ensures var (item, n) := ReadItem(b).value;
            Parse(b[n..]).Some? && Parse(b).value == (if item.Some? then [item.value] else []) + Parse(b[n..]).value
  {
    hide ReadItem;
  }

  lemma DecodingStep(bin: seq<byte>, data: nat, seen: seq<Item>)
    requires Decoding(bin, data, seen) && data < |bin|
    ensures ReadItem(bin[data..]).Some?
    ensures var (item, n) := ReadItem(bin[data..]).value;
            data + n <= |bin| && Decoding(bin, data + n, seen + (if item.Some? then [item.value] else []))
  {
    hide ReadItem, Parse;
    ParseUnfold(bin[data..]);
    var (item, n) := ReadItem(bin[data..]).value;
    assert bin[data..][n..] == bin[data + n..];
  }

  lemma DecodingEnds(bin: seq<byte>, seen: seq<Item>)
    ensures Parse(bin).Some? ==> Decoding(bin, 0, [])
    ensures Decoding(bin, |bin|, seen) ==> Parse(bin) == Some(seen)
  {
    assert bin[0..] == bin && bin[|bin|..] == [];
    if Parse(bin).Some? {
      assert [] + Parse(bin).value == Parse(bin).value;
    }
    assert seen + [] == seen;
  }

  /** struct SockOpts with its two decoding methods. */
  class Decoder {
    var opts: SockOpts

    constructor (initial: SockOpts)
      ensures opts == initial
    {
      opts := initial;
    }

    /** decode: reads the binary front to back and records which options it saw. */
    method Decode(bin: seq<byte>) returns (seen: seq<Item>)
      requires Parse(bin).Some?
      modifies this
      ensures Some(seen) == Parse(bin)
      ensures opts == ApplyAll(old(opts), seen)
    {
      hide ReadItem, Parse, Apply, Decoding;
      seen := [];
      var data: nat := 0;
      DecodingEnds(bin, seen);
      while data < |bin|
        invariant data <= |bin| && Decoding(bin, data, seen)
        invariant opts == ApplyAll(old(opts), seen)
        decreases |bin| - data
      {
        DecodingStep(bin, data, seen);
        var (item, n) := ReadItem(bin[data..]).value;
        if item.Some? {
          ApplyAllSnoc(old(opts), seen, item.value);
          opts := Apply(opts, item.value);
          seen := seen + [item.value];
        } else {
          assert seen + [] == seen;
        }
        data := data + n;
      }
      DecodingEnds(bin, seen);
    }

    /** decode_and_merge: false is the invalid_argument exception, which leaves the options before the
        offending one merged; only the address is safe. setopts works on a copy. */
    method DecodeAndMerge(bin: seq<byte>) returns (ok: bool)
      requires Parse(bin).Some?
      modifies this
      ensures ok <==> Merge(old(opts), bin).Some?
      ensures ok ==> Some(opts) == Merge(old(opts), bin)
      ensures opts.port == old(opts.port) && opts.inet6 == old(opts.inet6) && opts.address == old(opts.address)
    {
      hide CopyField, Apply, Parse, IsAddressItem;
      var so := new Decoder(DEFAULTS);
      var items := so.Decode(bin);
      var i := 0;
      while i < |items|
        invariant 0 <= i <= |items|
        invariant !HasAddressItem(items[..i])
        invariant CopyFields(old(opts), so.opts, items) == CopyFields(opts, so.opts, items[i..])
        invariant so.opts == ApplyAll(DEFAULTS, items)
        invariant opts.port == old(opts.port) && opts.inet6 == old(opts.inet6) && opts.address == old(opts.address)
      {
        if IsAddressItem(items[i]) {
          assert HasAddressItem(items);
          return false;
        }
        assert items[..i + 1] == items[..i] + [items[i]];
        assert items[i..][1..] == items[i + 1..];
        CopyFieldKeepsAddress(opts, so.opts, items[i]);
        opts := CopyField(opts, so.opts, items[i]);
        i := i + 1;
      }
      assert items[..i] == items && items[i..] == [];
      MergeByCopying(old(opts), items);
      assert Parse(bin) == Some(items);
      return true;
    }
  }

  // ---------------------------------------------------------------- the round trip

  /** An option whose bytes the decoder reads back. */
  predicate Encodable(item: Item) {
    match item
    case AddressItem(a) => Printable(a)
    case PortItem(p) => p < 65536
    case TmoutItem(ms) => ms < 0x1_0000_0000
    case PacketItem(p) => p < 256
    case HeaderItem(h) => h < 65536
    case SndbufItem(n) => n < 0x1_0000_0000
    case RecbufItem(n) => n < 0x1_0000_0000
    case _ => true
  }

  function ItemBytes(item: Item): (r: seq<byte>)
    ensures r != []
  {
    match item
    case AddressItem(a) => [IP_OPT] + a + [0]
    case PortItem(p) => [PORT_OPT] + BigEndian(p, 2)
    case ModeItem(m) => [if m.ListMode? then LIST_OPT else BINARY_OPT]
    case FamilyItem(f) => [if f.Inet? then INET_OPT else INET6_OPT]
    case TmoutItem(ms) => [SEND_TMOUT_OPT] + BigEndian(ms, 4)
    case TmoutInfiniteItem => [SEND_TMOUT_INFINITE_OPT]
    case ActiveItem(a) => [ACTIVE_OPT, match a case ActiveFalse => 0 case ActiveOnce => 1 case ActiveTrue => 2]
    case PacketItem(p) => [PACKET_OPT] + BigEndian(p, 1)
    case HeaderItem(h) => [HEADER_OPT] + BigEndian(h, 2)
    case SndbufItem(n) => [SNDBUF_OPT] + BigEndian(n, 4)
    case RecbufItem(n) => [RECBUF_OPT] + BigEndian(n, 4)
  }

  lemma Pow256Values()
    ensures Pow256(1) == 256 && Pow256(2) == 65536 && Pow256(4) == 0x1_0000_0000
  {
    assert Pow256(0) == 1;
    assert Pow256(1) == 256;
    assert Pow256(2) == 65536;
    assert Pow256(3) == 16777216;
  }

  lemma ReadNumber(code: byte, n: nat, p: nat, rest: seq<byte>)
    ensures var b := [code] + BigEndian(n, p) + rest;
            b[1..p + 1] == BigEndian(n, p) && b[p + 1..] == rest && |b| >= p + 1 && b[0] == code
  {
  }

  lemma {:induction false} FindNulAfter(a: seq<byte>, rest: seq<byte>)
    requires 0 !in a
    ensures FindNul(a + [0] + rest) == Some(|a|)
  {
    var b := a + [0] + rest;
    if a != [] {
      assert b[0] == a[0];
      assert b[1..] == a[1..] + [0] + rest;
      FindNulAfter(a[1..], rest);
    }
  }

  lemma ReadAddress(a: seq<byte>, rest: seq<byte>)
    requires Printable(a)
    ensures ReadItem(ItemBytes(AddressItem(a)) + rest) == Some((Some(AddressItem(a)), |a| + 2))
  {
    var b := ItemBytes(AddressItem(a)) + rest;
    assert b[0] == IP_OPT;
    assert b[1..] == a + [0] + rest;
    FindNulAfter(a, rest);
    assert b[1..|a| + 1] == a;
  }

  lemma ReadShort(item: Item, rest: seq<byte>)
    requires Encodable(item) && (item.PortItem? || item.HeaderItem?)
    ensures ReadItem(ItemBytes(item) + rest) == Some((Some(item), 3))
  {
    Pow256Values();
    var (code, n) := if item.PortItem? then (PORT_OPT, item.port) else (HEADER_OPT, item.header);
    hide BigEndian, FromBigEndian, FindNul, Pow256;
    ReadNumber(code, n, 2, rest);
    BigEndianRoundTrip(n, 2);
  }

  lemma ReadLong(item: Item, rest: seq<byte>)
    requires Encodable(item) && (item.TmoutItem? || item.SndbufItem? || item.RecbufItem?)
    ensures ReadItem(ItemBytes(item) + rest) == Some((Some(item), 5))
  {
    Pow256Values();
    var (code, n) := if item.TmoutItem? then (SEND_TMOUT_OPT, item.ms)
                     else if item.SndbufItem? then (SNDBUF_OPT, item.size) else (RECBUF_OPT, item.size);
    ReadNumber(code, n, 4, rest);
    BigEndianRoundTrip(n, 4);
  }

  lemma ReadItemBytes(item: Item, rest: seq<byte>)
    requires Encodable(item)
    ensures ReadItem(ItemBytes(item) + rest) == Some((Some(item), |ItemBytes(item)|))
  {
    if item.AddressItem? {
      ReadAddress(item.addr, rest);
    } else if item.PortItem? || item.HeaderItem? {
      ReadShort(item, rest);
    } else if item.TmoutItem? || item.SndbufItem? || item.RecbufItem? {
      ReadLong(item, rest);
    } else if item.PacketItem? {
      assert BigEndian(item.packet, 1) == BigEndian(item.packet / 256, 0) + [item.packet % 256];
    }
  }

  /** Parsing undoes encoding, whatever follows. */
  lemma ParseItemBytes(item: Item, rest: seq<byte>)
    requires Encodable(item) && Parse(rest).Some?
    ensures Parse(ItemBytes(item) + rest) == Some([item] + Parse(rest).value)
  {
    ReadItemBytes(item, rest);
    assert (ItemBytes(item) + rest)[|ItemBytes(item)|..] == rest;
  }

  /** What encoding writes, option by option, with the fixed-width fields as they come out. */
  function Items(o: UtpOptions): seq<Item> {
    Flatten(ItemGroups(o))
  }

  function ItemGroups(o: UtpOptions): (r: seq<seq<Item>>)
    ensures |r| == 10
  {
    [ModeItems(o), FamilyItems(o), IpItems(o), PortItems(o), TmoutItems(o), ActiveItems(o),
     PacketItems(o), HeaderItems(o), SndbufItems(o), RecbufItems(o)]
  }

  function ModeItems(o: UtpOptions): seq<Item> { if o.mode.None? then [] else [ModeItem(o.mode.value)] }
  function FamilyItems(o: UtpOptions): seq<Item> { if o.family == Some(Inet6) then [FamilyItem(Inet6)] else [] }
  function IpItems(o: UtpOptions): seq<Item> { if o.ip.None? then [] else [AddressItem(o.ip.value)] }
  function PortItems(o: UtpOptions): seq<Item> { if o.port.None? then [] else [PortItem(o.port.value)] }
  function TmoutItems(o: UtpOptions): seq<Item> {
    match o.sendTmout
    case None => []
    case Some(Infinity) => [TmoutInfiniteItem]
    case Some(Millis(ms)) => [TmoutItem(ms % 0x1_0000_0000)]
  }
  function ActiveItems(o: UtpOptions): seq<Item> { if o.active.None? then [] else [ActiveItem(o.active.value)] }
  function PacketItems(o: UtpOptions): seq<Item> { if o.packet.None? then [] else [PacketItem(o.packet.value)] }
  function HeaderItems(o: UtpOptions): seq<Item> { if o.header.None? then [] else [HeaderItem(o.header.value)] }
  function SndbufItems(o: UtpOptions): seq<Item> {
    if o.sndbuf.None? then [] else [SndbufItem(o.sndbuf.value % 0x1_0000_0000)]
  }
  function RecbufItems(o: UtpOptions): seq<Item> {
    if o.recbuf.None? then [] else [RecbufItem(o.recbuf.value % 0x1_0000_0000)]
  }

  /** The bytes of a list of options. */
  function Encode(items: seq<Item>): seq<byte> {
    if items == [] then [] else ItemBytes(items[0]) + Encode(items[1..])
  }

  lemma {:induction false} EncodeAppend(a: seq<Item>, b: seq<Item>)
    ensures Encode(a + b) == Encode(a) + Encode(b)
    decreases |a|
  {
    if a == [] {
      assert a + b == b;
    } else {
      assert (a + b)[1..] == a[1..] + b;
      EncodeAppend(a[1..], b);
    }
  }

  /** The decoder reads back any list of options. */
  lemma {:induction false} ParseEncode(items: seq<Item>)
    requires forall x :: x in items ==> Encodable(x)
    ensures Parse(Encode(items)) == Some(items)
    decreases |items|
  {
    if items != [] {
      ParseEncode(items[1..]);
      ParseItemBytes(items[0], Encode(items[1..]));
      assert [items[0]] + items[1..] == items;
    }
  }

  /** Writing p bytes keeps a number modulo 256^p, and no more. */
  lemma BigEndianMod(n: nat, p: nat)
    ensures BigEndian(n, p) == BigEndian(n % Pow256(p), p)
  {
    BigEndianRoundTrip(n, p);
    BigEndianOnto(BigEndian(n, p));
  }

  lemma EncodeFirst(o: UtpOptions)
    ensures Encode(ModeItems(o)) == (match o.mode
                                     case None => []
                                     case Some(ListMode) => [LIST_OPT]
                                     case Some(BinaryMode) => [BINARY_OPT])
    ensures Encode(FamilyItems(o)) == if o.family == Some(Inet6) then [INET6_OPT] else []
    ensures Encode(IpItems(o)) == if o.ip.None? then [] else [IP_OPT] + o.ip.value + [0]
    ensures Encode(PortItems(o)) == if o.port.None? then [] else [PORT_OPT] + BigEndian(o.port.value, 2)
    ensures Encode(TmoutItems(o)) == (match o.sendTmout
                                      case None => []
                                      case Some(Infinity) => [SEND_TMOUT_INFINITE_OPT]
                                      case Some(Millis(ms)) => [SEND_TMOUT_OPT] + BigEndian(ms, 4))
  {
    Pow256Values();
    if o.sendTmout.Some? && o.sendTmout.value.Millis? {
      BigEndianMod(o.sendTmout.value.ms, 4);
    }
  }

  lemma EncodeSecond(o: UtpOptions)
    ensures Encode(ActiveItems(o)) == (match o.active
                                       case None => []
                                       case Some(ActiveFalse) => [ACTIVE_OPT, 0]
                                       case Some(ActiveOnce) => [ACTIVE_OPT, 1]
                                       case Some(ActiveTrue) => [ACTIVE_OPT, 2])
    ensures Encode(PacketItems(o)) == if o.packet.None? then [] else [PACKET_OPT] + BigEndian(o.packet.value, 1)
    ensures Encode(HeaderItems(o)) == if o.header.None? then [] else [HEADER_OPT] + BigEndian(o.header.value, 2)
    ensures Encode(SndbufItems(o)) == if o.sndbuf.None? then [] else [SNDBUF_OPT] + BigEndian(o.sndbuf.value, 4)
    ensures Encode(RecbufItems(o)) == if o.recbuf.None? then [] else [RECBUF_OPT] + BigEndian(o.recbuf.value, 4)
  {
    Pow256Values();
    if o.sndbuf.Some? {
      BigEndianMod(o.sndbuf.value, 4);
    }
    if o.recbuf.Some? {
      BigEndianMod(o.recbuf.value, 4);
    }
  }

  /** Encoding works group by group. */
  lemma {:induction false} EncodeGroups(groups: seq<seq<Item>>, parts: seq<seq<byte>>)
    requires |parts| == |groups| && forall i :: 0 <= i < |groups| ==> parts[i] == Encode(groups[i])
    ensures Encode(Flatten(groups)) == Flatten(parts)
    decreases |groups|
  {
    if groups != [] {
      EncodeAppend(groups[0], Flatten(groups[1..]));
      EncodeGroups(groups[1..], parts[1..]);
    }
  }

  lemma OptionsToBinaryItems(o: UtpOptions)
    ensures OptionsToBinary(o) == Encode(Items(o))
  {
    hide Encode, ItemGroups, BinaryParts, Flatten;
    FirstParts(o);
    LastParts(o);
    EncodeGroups(ItemGroups(o), BinaryParts(o));
  }

  lemma FirstParts(o: UtpOptions)
    ensures forall i :: 0 <= i < 5 ==> BinaryParts(o)[i] == Encode(ItemGroups(o)[i])
  {
    hide Encode, ModeItems, FamilyItems, IpItems, PortItems, TmoutItems, ActiveItems, PacketItems, HeaderItems,
         SndbufItems,
         RecbufItems, BigEndian;
    EncodeFirst(o);
    var p, g := BinaryParts(o), ItemGroups(o);
    assert p[0] == Encode(g[0]) && p[1] == Encode(g[1]) && p[2] == Encode(g[2]);
    assert p[3] == Encode(g[3]) && p[4] == Encode(g[4]);
  }

  lemma LastParts(o: UtpOptions)
    ensures forall i :: 5 <= i < 10 ==> BinaryParts(o)[i] == Encode(ItemGroups(o)[i])
  {
    hide Encode, ModeItems, FamilyItems, IpItems, PortItems, TmoutItems, ActiveItems, PacketItems, HeaderItems,
         SndbufItems,
         RecbufItems, BigEndian;
    EncodeSecond(o);
    var p, g := BinaryParts(o), ItemGroups(o);
    assert p[5] == Encode(g[5]) && p[6] == Encode(g[6]) && p[7] == Encode(g[7]);
    assert p[8] == Encode(g[8]) && p[9] == Encode(g[9]);
  }

  /** Decoding works group by group, from the i-th on. */
  function ApplyGroups(so: SockOpts, groups: seq<seq<Item>>, i: nat): SockOpts
    decreases |groups| - i
  {
    if i >= |groups| then so else ApplyGroups(ApplyAll(so, groups[i]), groups, i + 1)
  }

  lemma {:induction false} ApplyFlat(so: SockOpts, groups: seq<seq<Item>>, i: nat)
    requires i <= |groups|
    ensures ApplyAll(so, Flatten(groups[i..])) == ApplyGroups(so, groups, i)
    decreases |groups| - i
  {
    if i < |groups| {
      assert groups[i..][1..] == groups[i + 1..];
      ApplyAllAppend(so, groups[i], Flatten(groups[i + 1..]));
      ApplyFlat(ApplyAll(so, groups[i]), groups, i + 1);
    }
  }

  /** The record a decoder that starts from the defaults should end with. */
  function Requested(o: UtpOptions): SockOpts {
    SockOpts(
      match o.sendTmout case None => DEFAULTS.sendTmout case Some(Infinity) => -1 case Some(Millis(ms)) => ms,
      if o.active.Some? then o.active.value else DEFAULTS.active,
      if o.header.Some? then o.header.value else DEFAULTS.header,
      if o.sndbuf.Some? then o.sndbuf.value else DEFAULTS.sndbuf,
      if o.recbuf.Some? then o.recbuf.value else DEFAULTS.recbuf,
      if o.port.Some? then o.port.value else DEFAULTS.port,
      if o.mode.Some? then o.mode.value else DEFAULTS.mode,
      if o.packet.Some? then o.packet.value else DEFAULTS.packet,
      o.family == Some(Inet6),
      o.ip)
  }

  /** The numbers the 32-bit fields of the encoding and the C types of the decoder can carry. */
  predicate FitsTheWire(o: UtpOptions) {
    && (o.sendTmout.Some? && o.sendTmout.value.Millis? ==> o.sendTmout.value.ms < 0x1_0000_0000)
    && (o.sndbuf.Some? ==> o.sndbuf.value < 0x8000_0000)
    && (o.recbuf.Some? ==> o.recbuf.value < 0x8000_0000)
  }

  lemma ApplyAtMostOne(so: SockOpts, items: seq<Item>)
    requires |items| <= 1
    ensures ApplyAll(so, items) == if items == [] then so else Apply(so, items[0])
  {
    if items != [] {
      assert ApplyAll(Apply(so, items[0]), items[1..]) == Apply(so, items[0]);
    }
  }

  /** What decoding on top of a record ends with: every defined option in its field, numbers cut to their
      width. */
  function Decoded(so: SockOpts, o: UtpOptions): SockOpts {
    so.(
      sendTmout := (match o.sendTmout
                    case None => so.sendTmout
                    case Some(Infinity) => -1
                    case Some(Millis(ms)) => ms % 0x1_0000_0000),
      active := if o.active.Some? then o.active.value else so.active,
      header := if o.header.Some? then o.header.value else so.header,
      sndbuf := if o.sndbuf.Some? then ToInt32(o.sndbuf.value % 0x1_0000_0000) else so.sndbuf,
      recbuf := if o.recbuf.Some? then ToInt32(o.recbuf.value % 0x1_0000_0000) else so.recbuf,
      port := if o.port.Some? then o.port.value else so.port,
      mode := if o.mode.Some? then o.mode.value else so.mode,
      packet := if o.packet.Some? then o.packet.value else so.packet,
      inet6 := o.family == Some(Inet6) || so.inet6,
      address := if o.ip.Some? then o.ip else so.address)
  }

  lemma DecodedFirst(so: SockOpts, o: UtpOptions)
    ensures ApplyAll(ApplyAll(ApplyAll(ApplyAll(ApplyAll(
            so, ModeItems(o)), FamilyItems(o)), IpItems(o)), PortItems(o)), TmoutItems(o))
            == so.(mode := Decoded(so, o).mode, inet6 := Decoded(so, o).inet6, address := Decoded(so, o).address,
                   port := Decoded(so, o).port, sendTmout := Decoded(so, o).sendTmout)
  {
    hide ApplyAll;
    ApplyAtMostOne(so, ModeItems(o));
    var s1 := ApplyAll(so, ModeItems(o));
    ApplyAtMostOne(s1, FamilyItems(o));
    var s2 := ApplyAll(s1, FamilyItems(o));
    ApplyAtMostOne(s2, IpItems(o));
    var s3 := ApplyAll(s2, IpItems(o));
    ApplyAtMostOne(s3, PortItems(o));
    var s4 := ApplyAll(s3, PortItems(o));
    ApplyAtMostOne(s4, TmoutItems(o));
  }

  lemma DecodedSecond(so: SockOpts, o: UtpOptions, s5: SockOpts)
    requires s5 == so.(mode := Decoded(so, o).mode, inet6 := Decoded(so, o).inet6, address := Decoded(so, o).address,
                       port := Decoded(so, o).port, sendTmout := Decoded(so, o).sendTmout)
    ensures ApplyAll(ApplyAll(ApplyAll(ApplyAll(ApplyAll(
            s5, ActiveItems(o)), PacketItems(o)), HeaderItems(o)), SndbufItems(o)), RecbufItems(o)) == Decoded(so, o)
  {
    hide ApplyAll;
    ApplyAtMostOne(s5, ActiveItems(o));
    var s6 := ApplyAll(s5, ActiveItems(o));
    ApplyAtMostOne(s6, PacketItems(o));
    var s7 := ApplyAll(s6, PacketItems(o));
    ApplyAtMostOne(s7, HeaderItems(o));
    var s8 := ApplyAll(s7, HeaderItems(o));
    ApplyAtMostOne(s8, SndbufItems(o));
    var s9 := ApplyAll(s8, SndbufItems(o));
    ApplyAtMostOne(s9, RecbufItems(o));
  }

  lemma DecodedRecord(so: SockOpts, o: UtpOptions)
    ensures ApplyAll(so, Items(o)) == Decoded(so, o)
  {
    hide ApplyAll, Decoded, Flatten, ModeItems, FamilyItems, IpItems, PortItems, TmoutItems, ActiveItems, PacketItems,
         HeaderItems, SndbufItems, RecbufItems;
    var g := ItemGroups(o);
    assert g[0..] == g;
    ApplyFlat(so, g, 0);
    var s5 := ApplyAll(ApplyAll(ApplyAll(ApplyAll(ApplyAll(so, g[0]), g[1]), g[2]), g[3]), g[4]);
    ApplyFive(so, g, 0);
    ApplyFive(s5, g, 5);
    DecodedFirst(so, o);
    DecodedSecond(so, o, s5);
  }

  lemma ApplyFive(so: SockOpts, groups: seq<seq<Item>>, i: nat)
    requires i + 5 <= |groups|
    ensures ApplyGroups(so, groups, i)
         == ApplyGroups(ApplyAll(ApplyAll(ApplyAll(ApplyAll(ApplyAll(
              so, groups[i]), groups[i + 1]), groups[i + 2]), groups[i + 3]), groups[i + 4]), groups, i + 5)
  {
    hide ApplyAll;
    var s1 := ApplyAll(so, groups[i]);
    var s2 := ApplyAll(s1, groups[i + 1]);
    var s3 := ApplyAll(s2, groups[i + 2]);
    var s4 := ApplyAll(s3, groups[i + 3]);
    assert ApplyGroups(so, groups, i) == ApplyGroups(s1, groups, i + 1);
    assert ApplyGroups(s1, groups, i + 1) == ApplyGroups(s2, groups, i + 2);
    assert ApplyGroups(s2, groups, i + 2) == ApplyGroups(s3, groups, i + 3);
    assert ApplyGroups(s3, groups, i + 3) == ApplyGroups(s4, groups, i + 4);
  }

  /** The options round trip: decoding the encoding of a validated record recovers every defined field,
      with the defaults elsewhere, exactly when its numbers fit the wire. */
  lemma OptionsRoundTrip(o: UtpOptions)
    requires Validated(o)
    ensures Parse(OptionsToBinary(o)) == Some(Items(o))
    ensures ApplyAll(DEFAULTS, Items(o)) == Requested(o) <==> FitsTheWire(o)
  {
    OptionsToBinaryItems(o);
    ItemsEncodable(o);
    ParseEncode(Items(o));
    DecodedRecord(DEFAULTS, o);
    if o.sendTmout.Some? && o.sendTmout.value.Millis? {
      TruncatedOnlyWhenTooLarge(o.sendTmout.value.ms);
    }
    if o.sndbuf.Some? {
      TruncatedOnlyWhenTooLarge(o.sndbuf.value);
    }
    if o.recbuf.Some? {
      TruncatedOnlyWhenTooLarge(o.recbuf.value);
    }
  }

  lemma TruncatedOnlyWhenTooLarge(n: nat)
    ensures n % 0x1_0000_0000 == n <==> n < 0x1_0000_0000
    ensures ToInt32(n % 0x1_0000_0000) == n <==> n < 0x8000_0000
  {
  }

  lemma {:induction false} InFlatten<T>(groups: seq<seq<T>>, x: T)
    ensures x in Flatten(groups) <==> exists i :: 0 <= i < |groups| && x in groups[i]
    decreases |groups|
  {
    if groups != [] {
      InFlatten(groups[1..], x);
      if i :| 0 <= i < |groups[1..]| && x in groups[1..][i] {
        assert x in groups[i + 1];
      }
      if i :| 0 <= i < |groups| && x in groups[i] && i > 0 {
        assert x in groups[1..][i - 1];
      }
    }
  }

  lemma ItemsMembers(o: UtpOptions, x: Item)
    ensures x in Items(o) <==>
            || x in ModeItems(o) || x in FamilyItems(o) || x in IpItems(o) || x in PortItems(o) || x in TmoutItems(o)
            || x in ActiveItems(o) || x in PacketItems(o) || x in HeaderItems(o) || x in SndbufItems(o)
            || x in RecbufItems(o)
  {
    hide Flatten, ModeItems, FamilyItems, IpItems, PortItems, TmoutItems, ActiveItems, PacketItems, HeaderItems,
         SndbufItems,
         RecbufItems;
    var g := ItemGroups(o);
    InFlatten(g, x);
    assert x in g[0] <==> x in ModeItems(o);
    assert x in g[1] <==> x in FamilyItems(o);
    assert x in g[2] <==> x in IpItems(o);
    assert x in g[3] <==> x in PortItems(o);
    assert x in g[4] <==> x in TmoutItems(o);
    assert x in g[5] <==> x in ActiveItems(o);
    assert x in g[6] <==> x in PacketItems(o);
    assert x in g[7] <==> x in HeaderItems(o);
    assert x in g[8] <==> x in SndbufItems(o);
    assert x in g[9] <==> x in RecbufItems(o);
  }

  lemma ItemsEncodable(o: UtpOptions)
    requires Validated(o)
    ensures forall x :: x in Items(o) ==> Encodable(x)
  {
    forall x | x in Items(o)
      ensures Encodable(x)
    {
      hide Items;
      ItemsMembers(o, x);
    }
  }

  /** Merging the encoding of a validated record into a socket's options is refused exactly when the
      record names an address, a port or the family inet6. The family inet alone is not refused: it is
      not encoded, so the driver never sees it. */
  lemma MergeRefusesAddresses(current: SockOpts, o: UtpOptions)
    requires Validated(o)
    ensures Merge(current, OptionsToBinary(o)).None? <==> o.ip.Some? || o.port.Some? || o.family == Some(Inet6)
  {
    hide Items, OptionsToBinary, Parse, ApplyAll;
    OptionsRoundTrip(o);
    if o.family == Some(Inet6) {
      ItemsMembers(o, FamilyItem(Inet6));
    }
    if o.ip.Some? {
      ItemsMembers(o, AddressItem(o.ip.value));
    }
    if o.port.Some? {
      ItemsMembers(o, PortItem(o.port.value));
    }
    if HasAddressItem(Items(o)) {
      var x :| x in Items(o) && IsAddressItem(x);
      ItemsMembers(o, x);
    }
  }

  /** setopts/2: None is badarg, for options that do not validate and for any address, port or family, inet
      included; otherwise the binary that goes to the driver. */
  function SetOptsRequest(terms: seq<OptTerm>): Option<seq<byte>> {
    match Validate(terms, NO_OPTIONS)
    case None => None
    case Some(o) => if o.ip.Some? || o.port.Some? || o.family.Some? then None else Some(OptionsToBinary(o))
  }

  /** The driver never refuses what setopts/2 sends it, and takes exactly the fields the options mention. */
  lemma SetOptsNeverRefused(current: SockOpts, terms: seq<OptTerm>, f: Field)
    requires ResolverContract(terms) && SetOptsRequest(terms).Some?
    ensures var bin := SetOptsRequest(terms).value;
            && Merge(current, bin).Some? && Parse(bin).Some?
            && Get(Merge(current, bin).value, f)
               == Get(if Mentions(Parse(bin).value, f) then ApplyAll(DEFAULTS, Parse(bin).value) else current, f)
  {
    hide OptionsToBinary, Merge, ApplyAll, Items;
    ValidateSound(terms, NO_OPTIONS);
    var o := Validate(terms, NO_OPTIONS).value;
    MergeRefusesAddresses(current, o);
    OptionsRoundTrip(o);
    MergeOverridesMentioned(current, OptionsToBinary(o), f);
  }
}
