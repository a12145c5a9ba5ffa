/** The parser that finds the packets sent by a Cosmos transaction in its events. */
module CosmosEvents {
  import opened Ibc
  import opened Wrappers
  import opened Encoding

  datatype Attribute = Attribute(key: string, value: string)

  datatype Event = Event(kind: string, attributes: seq<Attribute>)

  datatype ParseError =
    | UnknownVersion
    | InvalidHex
    | InvalidSequence
    | InvalidHeight
    | InvalidTimestamp
    | InvalidPacket
    | NoPackets

  const SendPacket := "send_packet"

  // ibc-go's attribute keys.
  const DataHex := "packet_data_hex"
  const Sequence := "packet_sequence"
  const SrcPort := "packet_src_port"
  const SrcChannel := "packet_src_channel"
  const DstPort := "packet_dst_port"
  const DstChannel := "packet_dst_channel"
  const TimeoutHeight := "packet_timeout_height"
  const TimeoutTimestamp := "packet_timeout_timestamp"
  const EncodedPacketHex := "encoded_packet_hex"

  const Keys := {DataHex, Sequence, SrcPort, SrcChannel, DstPort, DstChannel, TimeoutHeight, TimeoutTimestamp}

  // Results that are collected piece by piece.

  /** One result after another; the first error wins. */
  function Join<T>(a: Result<seq<T>, ParseError>, b: Result<seq<T>, ParseError>): Result<seq<T>, ParseError> {
    if a.Err? then a else if b.Err? then b else Ok(a.value + b.value)
  }

  function Collect<S, T>(s: seq<S>, f: S -> Result<seq<T>, ParseError>): Result<seq<T>, ParseError> {
    if s == [] then Ok([]) else Join(Collect(s[..|s| - 1], f), f(s[|s| - 1]))
  }

  lemma JoinAssociative<T>(a: Result<seq<T>, ParseError>, b: Result<seq<T>, ParseError>,
                           c: Result<seq<T>, ParseError>)
    ensures Join(Join(a, b), c) == Join(a, Join(b, c))
  {
    if a.Ok? && b.Ok? && c.Ok? {
      assert a.value + b.value + c.value == a.value + (b.value + c.value);
    }
  }

  lemma {:induction false} CollectAppend<S, T>(a: seq<S>, b: seq<S>, f: S -> Result<seq<T>, ParseError>)
    ensures Collect(a + b, f) == Join(Collect(a, f), Collect(b, f))
  {
    if b == [] {
      assert a + b == a;
      assert Collect(a, f).Ok? ==> Collect(a, f).value + [] == Collect(a, f).value;
    } else {
      var n := |b| - 1;
      assert (a + b)[..|a| + n] == a + b[..n];
      CollectAppend(a, b[..n], f);
      JoinAssociative(Collect(a, f), Collect(b[..n], f), f(b[n]));
    }
  }

  /** What the next element adds; an error there is the result of the whole. */
  lemma CollectNext<S, T>(s: seq<S>, f: S -> Result<seq<T>, ParseError>, i: nat)
    requires i < |s|
    ensures Collect(s[..i + 1], f) == Join(Collect(s[..i], f), f(s[i]))
    ensures Collect(s[..i + 1], f).Err? ==> Collect(s, f) == Collect(s[..i + 1], f)
    ensures f(s[i]) == Ok([]) ==> Collect(s[..i + 1], f) == Collect(s[..i], f)
  {
    assert f(s[i]) == Ok([]) && Collect(s[..i], f).Ok? ==>
           Collect(s[..i], f).value + f(s[i]).value == Collect(s[..i], f).value;
    assert s[..i + 1][..i] == s[..i];
    assert s[..i + 1] + s[i + 1..] == s;
    CollectAppend(s[..i + 1], s[i + 1..], f);
  }

  /** An error in the first part of a list is the result of the whole. */
  lemma CollectPrefix<S, T>(s: seq<S>, all: seq<S>, f: S -> Result<seq<T>, ParseError>)
    requires s <= all
    ensures Collect(s, f).Err? ==> Collect(all, f) == Collect(s, f)
  {
    assert s + all[|s|..] == all;
    CollectAppend(s, all[|s|..], f);
  }

  lemma CollectLast<S, T>(s: seq<S>, before: seq<T>, last: seq<T>, f: S -> Result<seq<T>, ParseError>)
    requires s != [] && Collect(s[..|s| - 1], f) == Ok(before) && f(s[|s| - 1]) == Ok(last)
    ensures Collect(s, f) == Ok(before + last)
  {
  }

  // The version.

  /** The version that an attribute of a message event stands for. */
  function Mark(a: Attribute): Option<nat> {
    if a.key == "module" && a.value == "ibc_channel" then Some(1)
    else if a.key == "module" && a.value == "ibc_channelv2" then Some(2)
    else None
  }

  function FirstMark(attributes: seq<Attribute>): Option<nat> {
    if attributes == [] then None
    else if Mark(attributes[0]).Some? then Mark(attributes[0])
    else FirstMark(attributes[1..])
  }

  /** All attributes of the events of one kind, in order. */
  function AttributesOf(events: seq<Event>, kind: string): seq<Attribute> {
    if events == [] then []
    else
      var n := |events| - 1;
      AttributesOf(events[..n], kind) + if events[n].kind == kind then events[n].attributes else []
  }

  function Version(events: seq<Event>): Option<nat> {
    FirstMark(AttributesOf(events, "message"))
  }

  lemma {:induction false} FirstMarkAppend(a: seq<Attribute>, b: seq<Attribute>)
    ensures FirstMark(a + b) == if FirstMark(a).Some? then FirstMark(a) else FirstMark(b)
  {
    if a == [] {
      assert a + b == b;
    } else {
      assert (a + b)[1..] == a[1..] + b;
      FirstMarkAppend(a[1..], b);
    }
  }

  lemma {:induction false} AttributesAppend(e: seq<Event>, f: seq<Event>, kind: string)
    ensures AttributesOf(e + f, kind) == AttributesOf(e, kind) + AttributesOf(f, kind)
  {
    if f == [] {
      assert e + f == e;
    } else {
      var n := |f| - 1;
      assert (e + f)[..|e| + n] == e + f[..n];
      AttributesAppend(e, f[..n], kind);
    }
  }

  /** The version of a transaction is that of its first message with a version. */
  lemma VersionAppend(e: seq<Event>, f: seq<Event>)
    ensures Version(e + f) == if Version(e).Some? then Version(e) else Version(f)
  {
    AttributesAppend(e, f, "message");
    FirstMarkAppend(AttributesOf(e, "message"), AttributesOf(f, "message"));
  }

  method DetermineVersion(events: seq<Event>) returns (version: Option<nat>)
    ensures version == Version(events)
  {
    var i := 0;
    while i < |events|
      invariant 0 <= i <= |events|
      invariant Version(events[..i]).None?
    {
      var event := events[i];
      assert events[..i + 1][..i] == events[..i];
      if event.kind == "message" {
        var j := 0;
        while j < |event.attributes|
          invariant 0 <= j <= |event.attributes|
          invariant FirstMark(event.attributes[..j]).None?
        {
          var a := event.attributes[j];
          MarkNext(event.attributes, j);
          if a.key == "module" && a.value == "ibc_channel" {
            MarkInEvent(events, i, j);
            return Some(1);
          } else if a.key == "module" && a.value == "ibc_channelv2" {
            MarkInEvent(events, i, j);
            return Some(2);
          }
          j := j + 1;
        }
        assert event.attributes[..j] == event.attributes;
      }
      NoMarkInEvent(events, i);
      i := i + 1;
    }
    assert events[..i] == events;
    return None;
  }

  lemma MarkNext(attributes: seq<Attribute>, j: nat)
    requires j < |attributes| && FirstMark(attributes[..j]).None?
    ensures FirstMark(attributes[..j + 1]) == Mark(attributes[j])
  {
    assert attributes[..j + 1] == attributes[..j] + [attributes[j]];
    FirstMarkAppend(attributes[..j], [attributes[j]]);
  }

  lemma MarkInEvent(events: seq<Event>, i: nat, j: nat)
    requires i < |events| && Version(events[..i]).None? && events[i].kind == "message"
    requires j < |events[i].attributes| && FirstMark(events[i].attributes[..j]).None?
    requires Mark(events[i].attributes[j]).Some?
    ensures Version(events) == Mark(events[i].attributes[j])
  {
    var all := events[i].attributes;
    MarkNext(all, j);
    FirstMarkAppend(all[..j + 1], all[j + 1..]);
    assert all[..j + 1] + all[j + 1..] == all;
    assert events[..i + 1][..i] == events[..i];
    FirstMarkAppend(AttributesOf(events[..i], "message"), all);
    VersionAppend(events[..i + 1], events[i + 1..]);
    assert events[..i + 1] + events[i + 1..] == events;
  }

  lemma NoMarkInEvent(events: seq<Event>, i: nat)
    requires i < |events| && Version(events[..i]).None?
    requires events[i].kind == "message" ==> FirstMark(events[i].attributes).None?
    ensures Version(events[..i + 1]).None?
  {
    assert events[..i + 1][..i] == events[..i];
    var here := if events[i].kind == "message" then events[i].attributes else [];
    FirstMarkAppend(AttributesOf(events[..i], "message"), here);
  }

  // Packets of version 1.

  const Blank := ChannelPacket(0, "", "", "", "", [], Height(0, 0), 0)

  /** One attribute of a send event; unknown keys are passed over. */
  function Assign(p: ChannelPacket, a: Attribute): Result<ChannelPacket, ParseError> {
    if a.key == DataHex then
      match HexDecode(a.value)
      case Some(data) => Ok(p.(data := data))
      case None => Err(InvalidHex)
    else if a.key == Sequence then
      match ParseUint64(a.value)
      case Some(n) => Ok(p.(sequence := n))
      case None => Err(InvalidSequence)
    else if a.key == SrcPort then Ok(p.(sourcePort := a.value))
    else if a.key == SrcChannel then Ok(p.(sourceChannel := a.value))
    else if a.key == DstPort then Ok(p.(destinationPort := a.value))
    else if a.key == DstChannel then Ok(p.(destinationChannel := a.value))
    else if a.key == TimeoutHeight then
      match ParseHeight(a.value)
      case Some(h) => Ok(p.(timeoutHeight := h))
      case None => Err(InvalidHeight)
    else if a.key == TimeoutTimestamp then
      match ParseUint64(a.value)
      case Some(n) => Ok(p.(timeoutTimestamp := n))
      case None => Err(InvalidTimestamp)
    else Ok(p)
  }

  function AssignAll(attributes: seq<Attribute>): Result<ChannelPacket, ParseError> {
    if attributes == [] then Ok(Blank)
    else
      match AssignAll(attributes[..|attributes| - 1])
      case Err(e) => Err(e)
      case Ok(p) => Assign(p, attributes[|attributes| - 1])
  }

  /** What one event contributes. */
  function V1PacketOf(event: Event): Result<seq<ChannelPacket>, ParseError> {
    if event.kind != SendPacket then Ok([])
    else
      match AssignAll(event.attributes)
      case Err(e) => Err(e)
      case Ok(p) => Ok([p])
  }

  function ReadV1(events: seq<Event>): Result<seq<ChannelPacket>, ParseError> {
    Collect(events, V1PacketOf)
  }

  /** An error at some attribute is the result of the whole. */
  lemma {:induction false} AssignStops(attributes: seq<Attribute>, j: nat)
    requires j <= |attributes|
    ensures AssignAll(attributes[..j]).Err? ==> AssignAll(attributes) == AssignAll(attributes[..j])
  {
    if j == |attributes| {
      assert attributes[..j] == attributes;
    } else {
      var n := |attributes| - 1;
      assert attributes[..n][..j] == attributes[..j];
      AssignStops(attributes[..n], j);
    }
  }

  /** The assignments of one send event. */
  method ParseAttributes(attributes: seq<Attribute>) returns (r: Result<ChannelPacket, ParseError>)
    ensures r == AssignAll(attributes)
  {
    var packet := Blank;
    var j := 0;
    while j < |attributes|
      invariant 0 <= j <= |attributes|
      invariant AssignAll(attributes[..j]) == Ok(packet)
    {
      var a := attributes[j];
      assert attributes[..j + 1][..j] == attributes[..j];
      AssignStops(attributes, j + 1);
      if a.key == DataHex {
        var data := HexDecode(a.value);
        if data.None? {
          return Err(InvalidHex);
        }
        packet := packet.(data := data.value);
      } else if a.key == Sequence {
        var n := ParseUint64(a.value);
        if n.None? {
          return Err(InvalidSequence);
        }
        packet := packet.(sequence := n.value);
      } else if a.key == SrcPort {
        packet := packet.(sourcePort := a.value);
      } else if a.key == SrcChannel {
        packet := packet.(sourceChannel := a.value);
      } else if a.key == DstPort {
        packet := packet.(destinationPort := a.value);
      } else if a.key == DstChannel {
        packet := packet.(destinationChannel := a.value);
      } else if a.key == TimeoutHeight {
        var h := ParseHeight(a.value);
        if h.None? {
          return Err(InvalidHeight);
        }
        packet := packet.(timeoutHeight := h.value);
      } else if a.key == TimeoutTimestamp {
        var n := ParseUint64(a.value);
        if n.None? {
          return Err(InvalidTimestamp);
        }
        packet := packet.(timeoutTimestamp := n.value);
      }
      j := j + 1;
    }
    assert attributes[..j] == attributes;
    return Ok(packet);
  }

  /** No packet at all is an error. */
  function AtLeastOne<T>(r: Result<seq<T>, ParseError>): Result<seq<T>, ParseError> {
    if r == Ok([]) then Err(NoPackets) else r
  }

  method ParseV1Packets(events: seq<Event>) returns (r: Result<seq<ChannelPacket>, ParseError>)
    ensures r == AtLeastOne(ReadV1(events))
  {
    var packets := [];
    var i := 0;
    while i < |events|
      invariant 0 <= i <= |events|
      invariant ReadV1(events[..i]) == Ok(packets)
    {
      CollectNext(events, V1PacketOf, i);
      if events[i].kind == SendPacket {
        var p := ParseAttributes(events[i].attributes);
        if p.Err? {
          return Err(p.error);
        }
        packets := packets + [p.value];
      }
      i := i + 1;
    }
    assert events[..i] == events;
    if |packets| == 0 {
      return Err(NoPackets);
    }
    return Ok(packets);
  }

  // Packets of version 2. `unmarshal` is the protobuf decoder.

  function V2PacketOf(unmarshal: seq<Byte> -> Option<ClientPacket>)
    : Attribute -> Result<seq<ClientPacket>, ParseError>
  {
    (a: Attribute) =>
      if a.key != EncodedPacketHex then Ok([])
      else
        match HexDecode(a.value)
        case None => Err(InvalidHex)
        case Some(data) =>
          match unmarshal(data)
          case None => Err(InvalidPacket)
          case Some(p) => Ok([p])
  }

  /** All send events are read as if they were one. */
  function ReadV2(events: seq<Event>, unmarshal: seq<Byte> -> Option<ClientPacket>)
    : Result<seq<ClientPacket>, ParseError>
  {
    Collect(AttributesOf(events, SendPacket), V2PacketOf(unmarshal))
  }

  lemma AttributesUpTo(events: seq<Event>, kind: string, i: nat)
    requires i < |events|
    ensures var before := AttributesOf(events[..i], kind);
            AttributesOf(events[..i + 1], kind) ==
            if events[i].kind == kind then before + events[i].attributes else before
    ensures AttributesOf(events[..i + 1], kind) <= AttributesOf(events, kind)
  {
    assert events[..i + 1][..i] == events[..i];
    assert events[..i + 1] + events[i + 1..] == events;
    AttributesAppend(events[..i + 1], events[i + 1..], kind);
  }

  /** The loop over the attributes of one send event, which adds to the packets found so far. */
  method ParseEncodings(attributes: seq<Attribute>, found: seq<ClientPacket>,
                        unmarshal: seq<Byte> -> Option<ClientPacket>)
    returns (r: Result<seq<ClientPacket>, ParseError>)
    ensures r == Join(Ok(found), Collect(attributes, V2PacketOf(unmarshal)))
  {
    var packets := found;
    var j := 0;
    assert found + [] == found;
    while j < |attributes|
      invariant 0 <= j <= |attributes|
      invariant Join(Ok(found), Collect(attributes[..j], V2PacketOf(unmarshal))) == Ok(packets)
    {
      CollectNext(attributes, V2PacketOf(unmarshal), j);
      JoinAssociative(Ok(found), Collect(attributes[..j], V2PacketOf(unmarshal)), V2PacketOf(unmarshal)(attributes[j]));
      if attributes[j].key == EncodedPacketHex {
        var data := HexDecode(attributes[j].value);
        if data.None? {
          return Err(InvalidHex);
        }
        var packet := unmarshal(data.value);
        if packet.None? {
          return Err(InvalidPacket);
        }
        packets := packets + [packet.value];
      }
      j := j + 1;
    }
    assert attributes[..j] == attributes;
    return Ok(packets);
  }

  lemma ReadV2Next(events: seq<Event>, i: nat, unmarshal: seq<Byte> -> Option<ClientPacket>)
    requires i < |events|
    ensures ReadV2(events[..i + 1], unmarshal) ==
            if events[i].kind == SendPacket
            then Join(ReadV2(events[..i], unmarshal), Collect(events[i].attributes, V2PacketOf(unmarshal)))
            else ReadV2(events[..i], unmarshal)
    ensures ReadV2(events[..i + 1], unmarshal).Err? ==> ReadV2(events, unmarshal) == ReadV2(events[..i + 1], unmarshal)
  {
    AttributesUpTo(events, SendPacket, i);
    CollectAppend(AttributesOf(events[..i], SendPacket), events[i].attributes, V2PacketOf(unmarshal));
    CollectPrefix(AttributesOf(events[..i + 1], SendPacket), AttributesOf(events, SendPacket), V2PacketOf(unmarshal));
  }

  method ParseV2Packets(events: seq<Event>, unmarshal: seq<Byte> -> Option<ClientPacket>)
    returns (r: Result<seq<ClientPacket>, ParseError>)
    ensures r == AtLeastOne(ReadV2(events, unmarshal))
  {
    var packets := [];
    var i := 0;
    while i < |events|
      invariant 0 <= i <= |events|
      invariant ReadV2(events[..i], unmarshal) == Ok(packets)
    {
      ReadV2Next(events, i, unmarshal);
      if events[i].kind == SendPacket {
        var more := ParseEncodings(events[i].attributes, packets, unmarshal);
        if more.Err? {
          return more;
        }
        packets := more.value;
      }
      i := i + 1;
    }
    assert events[..i] == events;
    if |packets| == 0 {
      return Err(NoPackets);
    }
    return Ok(packets);
  }

  // The whole parser.

  /** For version 1 the packet record names the ports, not clients, as its two ends. */
  function PacketV1(txHash: string, p: ChannelPacket): Packet {
    Packet(txHash, 1, p.sequence, p.sourcePort, p.destinationPort, p.timeoutTimestamp, RawV1(p))
  }

  function PacketV2(txHash: string, p: ClientPacket): Packet {
    Packet(txHash, 2, p.sequence, p.sourceClient, p.destinationClient, p.timeoutTimestamp, RawV2(p))
  }

  function Map<S, T>(r: Result<seq<S>, ParseError>, f: S -> T): Result<seq<T>, ParseError> {
    match r
    case Err(e) => Err(e)
    case Ok(s) => Ok(seq(|s|, i requires 0 <= i < |s| => f(s[i])))
  }

  function Parsed(txHash: string, events: seq<Event>, unmarshal: seq<Byte> -> Option<ClientPacket>)
    : Result<seq<Packet>, ParseError>
  {
    match Version(events)
    case None => Err(UnknownVersion)
    case Some(version) =>
      if version == 1 then Map(AtLeastOne(ReadV1(events)), p => PacketV1(txHash, p))
      else Map(AtLeastOne(ReadV2(events, unmarshal)), p => PacketV2(txHash, p))
  }

  method ParsePackets(txHash: string, events: seq<Event>, unmarshal: seq<Byte> -> Option<ClientPacket>)
    returns (r: Result<seq<Packet>, ParseError>)
    ensures r == Parsed(txHash, events, unmarshal)
  {
    var version := DetermineVersion(events);
    if version.None? {
      return Err(UnknownVersion);
    }
    var packets: seq<Packet> := [];
    var i := 0;
    if version.value == 1 {
      var v1 := ParseV1Packets(events);
      if v1.Err? {
        return Err(v1.error);
      }
      while i < |v1.value|
        invariant 0 <= i <= |v1.value|
        invariant |packets| == i && forall k :: 0 <= k < i ==> packets[k] == PacketV1(txHash, v1.value[k])
      {
        var p := v1.value[i];
        packets := packets +
        [Packet(txHash, 1, p.sequence, p.sourcePort, p.destinationPort, p.timeoutTimestamp, RawV1(p))];
        i := i + 1;
      }
      assert packets == Map(v1, p => PacketV1(txHash, p)).value;
    } else {
      var v2 := ParseV2Packets(events, unmarshal);
      if v2.Err? {
        return Err(v2.error);
      }
      while i < |v2.value|
        invariant 0 <= i <= |v2.value|
        invariant |packets| == i && forall k :: 0 <= k < i ==> packets[k] == PacketV2(txHash, v2.value[k])
      {
        var p := v2.value[i];
        packets := packets +
        [Packet(txHash, 2, p.sequence, p.sourceClient, p.destinationClient, p.timeoutTimestamp, RawV2(p))];
        i := i + 1;
      }
      assert packets == Map(v2, p => PacketV2(txHash, p)).value;
    }
    return Ok(packets);
  }

  // What the fields of a parsed packet are.

  /** The value of the last attribute with a key. */
  function LastValue(attributes: seq<Attribute>, key: string): Option<string> {
    if attributes == [] then None
    else if attributes[|attributes| - 1].key == key then Some(attributes[|attributes| - 1].value)
    else LastValue(attributes[..|attributes| - 1], key)
  }

  predicate Readable(a: Attribute) {
    && (a.key == DataHex ==> HexDecode(a.value).Some?)
    && (a.key in {Sequence, TimeoutTimestamp} ==> ParseUint64(a.value).Some?)
    && (a.key == TimeoutHeight ==> ParseHeight(a.value).Some?)
  }

  function Or<T>(value: Option<T>, default: T): T {
    if value.Some? then value.value else default
  }

  function Bind<S, T>(value: Option<S>, f: S -> Option<T>): Option<T> {
    if value.Some? then f(value.value) else None
  }

  /** Every field is read from the last attribute with its key; without one it is blank. */
  function Described(attributes: seq<Attribute>): ChannelPacket {
    ChannelPacket(
      Or(Bind(LastValue(attributes, Sequence), ParseUint64), 0),
      Or(LastValue(attributes, SrcPort), ""),
      Or(LastValue(attributes, SrcChannel), ""),
      Or(LastValue(attributes, DstPort), ""),
      Or(LastValue(attributes, DstChannel), ""),
      Or(Bind(LastValue(attributes, DataHex), HexDecode), []),
      Or(Bind(LastValue(attributes, TimeoutHeight), ParseHeight), Height(0, 0)),
      Or(Bind(LastValue(attributes, TimeoutTimestamp), ParseUint64), 0))
  }

  lemma DescribedNext(attributes: seq<Attribute>)
    requires attributes != []
    ensures var before, a := attributes[..|attributes| - 1], attributes[|attributes| - 1];
            Assign(Described(before), a).Ok? ==> Assign(Described(before), a) == Ok(Described(attributes))
  {
  }

  lemma AssignReadable(p: ChannelPacket, a: Attribute)
    ensures Assign(p, a).Ok? <==> Readable(a)
  {
  }

  lemma {:induction false} OnlyLastMatters(attributes: seq<Attribute>)
    ensures AssignAll(attributes).Ok? ==> AssignAll(attributes).value == Described(attributes)
  {
    if attributes != [] {
      OnlyLastMatters(attributes[..|attributes| - 1]);
      DescribedNext(attributes);
    }
  }

  lemma {:induction false} AllReadable(attributes: seq<Attribute>)
    ensures AssignAll(attributes).Ok? <==> forall a :: a in attributes ==> Readable(a)
  {
    if attributes != [] {
      var n := |attributes| - 1;
      AllReadable(attributes[..n]);
      if AssignAll(attributes[..n]).Ok? {
        AssignReadable(AssignAll(attributes[..n]).value, attributes[n]);
      }
      assert attributes[n] in attributes;
      assert forall a :: a in attributes <==> a in attributes[..n] || a == attributes[n];
    }
  }

  /** A send event can be parsed exactly if each attribute can be read on its own, and then only the last attribute
      of each key matters. */
  lemma LastWriteWins(attributes: seq<Attribute>)
    ensures AssignAll(attributes).Ok? <==> forall a :: a in attributes ==> Readable(a)
    ensures AssignAll(attributes).Ok? ==> AssignAll(attributes).value == Described(attributes)
  {
    AllReadable(attributes);
    OnlyLastMatters(attributes);
  }

  // Rendering and parsing back.

  function Shown(p: ChannelPacket): map<string, string> {
    map[DataHex := HexEncode(p.data), Sequence := ShowNat(p.sequence),
        SrcPort := p.sourcePort, SrcChannel := p.sourceChannel,
        DstPort := p.destinationPort, DstChannel := p.destinationChannel,
        TimeoutHeight := ShowHeight(p.timeoutHeight), TimeoutTimestamp := ShowNat(p.timeoutTimestamp)]
  }

  /** The event shows the packet: each of its fields occurs, in any order, any number of times and among any other
      attributes, but never with another value. */
  ghost predicate Renders(event: Event, p: ChannelPacket) {
    && event.kind == SendPacket
    && (forall key :: key in Keys ==> Attribute(key, Shown(p)[key]) in event.attributes)
    && (forall a :: a in event.attributes && a.key in Keys ==> a.value == Shown(p)[a.key])
  }

  predicate Fits(p: ChannelPacket) {
    && p.sequence <= MaxUint64 && p.timeoutTimestamp <= MaxUint64
    && p.timeoutHeight.revisionNumber <= MaxUint64 && p.timeoutHeight.revisionHeight <= MaxUint64
  }

  lemma {:induction false} LastOfSame(attributes: seq<Attribute>, key: string, value: string)
    requires Attribute(key, value) in attributes
    requires forall a :: a in attributes && a.key == key ==> a.value == value
    ensures LastValue(attributes, key) == Some(value)
  {
    var n := |attributes| - 1;
    if attributes[n].key != key {
      assert Attribute(key, value) in attributes[..n];
      LastOfSame(attributes[..n], key, value);
    }
  }

  lemma ShownIsReadable(p: ChannelPacket, a: Attribute)
    requires Fits(p) && (a.key in Keys ==> a.value == Shown(p)[a.key])
    ensures Readable(a)
  {
    HexRoundTrip(p.data);
    UintRoundTrip(p.sequence);
    UintRoundTrip(p.timeoutTimestamp);
    HeightRoundTrip(p.timeoutHeight);
  }

  lemma ShownIsDescribed(attributes: seq<Attribute>, p: ChannelPacket)
    requires Fits(p) && forall key :: key in Keys ==> LastValue(attributes, key) == Some(Shown(p)[key])
    ensures Described(attributes) == p
  {
    HexRoundTrip(p.data);
    UintRoundTrip(p.sequence);
    UintRoundTrip(p.timeoutTimestamp);
    HeightRoundTrip(p.timeoutHeight);
  }

  /** An event that shows a packet is parsed to that packet. */
  lemma EventRoundTrip(event: Event, p: ChannelPacket)
    requires Renders(event, p) && Fits(p)
    ensures AssignAll(event.attributes) == Ok(p)
  {
    forall key | key in Keys
      ensures LastValue(event.attributes, key) == Some(Shown(p)[key])
    {
      LastOfSame(event.attributes, key, Shown(p)[key]);
    }
    forall a | a in event.attributes
      ensures Readable(a)
    {
      ShownIsReadable(p, a);
    }
    ShownIsDescribed(event.attributes, p);
    LastWriteWins(event.attributes);
  }

  function Sends(events: seq<Event>): seq<Event> {
    if events == [] then []
    else
      var n := |events| - 1;
      Sends(events[..n]) + if events[n].kind == SendPacket then [events[n]] else []
  }

  /** The send events show these packets, in this order; all other events are free. */
  ghost predicate RendersAll(events: seq<Event>, packets: seq<ChannelPacket>) {
    && |Sends(events)| == |packets|
    && forall i :: 0 <= i < |packets| ==> Renders(Sends(events)[i], packets[i])
  }

  /** Only the send events matter, each for itself. */
  lemma {:induction false} ReadV1Sends(events: seq<Event>, packets: seq<ChannelPacket>)
    requires |Sends(events)| == |packets|
    requires forall i :: 0 <= i < |packets| ==> AssignAll(Sends(events)[i].attributes) == Ok(packets[i])
    ensures ReadV1(events) == Ok(packets)
  {
    if events != [] {
      var n, m := |events| - 1, |packets| - 1;
      if events[n].kind == SendPacket {
        assert Sends(events)[m] == events[n];
        assert forall i :: 0 <= i < m ==> Sends(events[..n])[i] == Sends(events)[i];
        ReadV1Sends(events[..n], packets[..m]);
        CollectLast(events, packets[..m], [packets[m]], V1PacketOf);
        assert packets[..m] + [packets[m]] == packets;
      } else {
        assert Sends(events) == Sends(events[..n]);
        ReadV1Sends(events[..n], packets);
        CollectLast(events, packets, [], V1PacketOf);
        assert packets + [] == packets;
      }
    }
  }

  /** Rendering any non-empty list of packets of version 1 as send events of a transaction with that version, whatever
      else the transaction emits, and parsing gives back the same list. */
  lemma RoundTripV1(txHash: string, events: seq<Event>, packets: seq<ChannelPacket>,
                    unmarshal: seq<Byte> -> Option<ClientPacket>)
    requires Version(events) == Some(1) && packets != [] && RendersAll(events, packets)
    requires forall p :: p in packets ==> Fits(p)
    ensures Parsed(txHash, events, unmarshal).Ok?
    ensures var r := Parsed(txHash, events, unmarshal).value;
            && |r| == |packets|
            && forall i :: 0 <= i < |r| ==>
                 var p := packets[i];
                 r[i] ==
                 Packet(txHash := txHash, ibcVersion := 1, sequence := p.sequence,
                       sourceClient := p.sourcePort, destinationClient := p.destinationPort,
                       timeoutTimestamp := p.timeoutTimestamp, raw := RawV1(p))
  {
    forall i | 0 <= i < |packets|
      ensures AssignAll(Sends(events)[i].attributes) == Ok(packets[i])
    {
      EventRoundTrip(Sends(events)[i], packets[i]);
    }
    ReadV1Sends(events, packets);
  }

  /** The values of the encoded packets in the send events, in order. */
  function Encodings(attributes: seq<Attribute>): seq<string> {
    if attributes == [] then []
    else
      var n := |attributes| - 1;
      Encodings(attributes[..n]) + if attributes[n].key == EncodedPacketHex then [attributes[n].value] else []
  }

  // How many packets, and how transactions add up.

  /** What the last element adds to a collection. */
  lemma CollectedLast<S, T>(s: seq<S>, f: S -> Result<seq<T>, ParseError>)
    requires s != [] && Collect(s, f).Ok?
    ensures var before, last := Collect(s[..|s| - 1], f), f(s[|s| - 1]);
            before.Ok? && last.Ok? && Collect(s, f).value == before.value + last.value
  {
  }

  lemma V1PacketIs(event: Event)
    requires V1PacketOf(event).Ok?
    ensures V1PacketOf(event).value == if event.kind == SendPacket then [Described(event.attributes)] else []
  {
    OnlyLastMatters(event.attributes);
  }

  lemma {:induction false} DescribesV1(events: seq<Event>)
    requires ReadV1(events).Ok?
    ensures |ReadV1(events).value| == |Sends(events)|
    ensures forall i :: 0 <= i < |Sends(events)| ==> ReadV1(events).value[i] == Described(Sends(events)[i].attributes)
  {
    if events != [] {
      var n := |events| - 1;
      CollectedLast(events, V1PacketOf);
      DescribesV1(events[..n]);
      V1PacketIs(events[n]);
    }
  }

  predicate Decodable(value: string, unmarshal: seq<Byte> -> Option<ClientPacket>) {
    HexDecode(value).Some? && unmarshal(HexDecode(value).value).Some?
  }

  function Decoded(value: string, unmarshal: seq<Byte> -> Option<ClientPacket>): ClientPacket
    requires Decodable(value, unmarshal)
  {
    unmarshal(HexDecode(value).value).value
  }

  lemma V2PacketIs(a: Attribute, unmarshal: seq<Byte> -> Option<ClientPacket>)
    ensures a.key != EncodedPacketHex ==> V2PacketOf(unmarshal)(a) == Ok([])
    ensures a.key == EncodedPacketHex ==>
              if Decodable(a.value, unmarshal)
              then V2PacketOf(unmarshal)(a) == Ok([Decoded(a.value, unmarshal)])
              else V2PacketOf(unmarshal)(a).Err?
  {
  }

  lemma {:induction false} ReadableV2(attributes: seq<Attribute>, unmarshal: seq<Byte> -> Option<ClientPacket>)
    ensures Collect(attributes, V2PacketOf(unmarshal)).Ok? <==>
            forall v :: v in Encodings(attributes) ==> Decodable(v, unmarshal)
  {
    if attributes != [] {
      var n := |attributes| - 1;
      var before := Encodings(attributes[..n]);
      ReadableV2(attributes[..n], unmarshal);
      V2PacketIs(attributes[n], unmarshal);
      if attributes[n].key == EncodedPacketHex {
        assert attributes[n].value in Encodings(attributes);
        assert forall v :: v in Encodings(attributes) <==> v in before || v == attributes[n].value;
      } else {
        assert Encodings(attributes) == before;
      }
    }
  }

  lemma {:induction false} DecodesV2(attributes: seq<Attribute>, unmarshal: seq<Byte> -> Option<ClientPacket>)
    requires Collect(attributes, V2PacketOf(unmarshal)).Ok?
    ensures var r, encodings := Collect(attributes, V2PacketOf(unmarshal)).value, Encodings(attributes);
            && |r| == |encodings|
            && forall i :: 0 <= i < |encodings| ==>
                 Decodable(encodings[i], unmarshal) && r[i] == Decoded(encodings[i], unmarshal)
  {
    if attributes != [] {
      var n := |attributes| - 1;
      CollectedLast(attributes, V2PacketOf(unmarshal));
      DecodesV2(attributes[..n], unmarshal);
      V2PacketIs(attributes[n], unmarshal);
    }
  }

  /** A successful parse has one packet for each send event (version 1) or for each encoded packet in one (version 2),
      and at least one. */
  lemma PacketCount(txHash: string, events: seq<Event>, unmarshal: seq<Byte> -> Option<ClientPacket>)
    requires Parsed(txHash, events, unmarshal).Ok?
    ensures var n := |Parsed(txHash, events, unmarshal).value|;
            && n > 0
            && (Version(events) == Some(1) ==> n == |Sends(events)|)
            && (Version(events) == Some(2) ==> n == |Encodings(AttributesOf(events, SendPacket))|)
  {
    if Version(events) == Some(1) {
      DescribesV1(events);
    } else {
      DecodesV2(AttributesOf(events, SendPacket), unmarshal);
    }
  }

  /** With version 1 the i-th record is that of the i-th send event: every field of the packet is read from the last
      attribute with its key, and the record's two ends are the ports. */
  lemma FieldsV1(txHash: string, events: seq<Event>, unmarshal: seq<Byte> -> Option<ClientPacket>, i: nat)
    requires Version(events) == Some(1) && Parsed(txHash, events, unmarshal).Ok? && i < |Sends(events)|
    ensures i < |Parsed(txHash, events, unmarshal).value|
    ensures var r, attributes := Parsed(txHash, events, unmarshal).value[i], Sends(events)[i].attributes;
            && r.txHash == txHash && r.ibcVersion == 1 && r.raw.RawV1?
            && var p := r.raw.v1;
               && p.sequence == r.sequence == Or(Bind(LastValue(attributes, "packet_sequence"), ParseUint64), 0)
               && p.sourcePort == r.sourceClient == Or(LastValue(attributes, "packet_src_port"), "")
               && p.sourceChannel == Or(LastValue(attributes, "packet_src_channel"), "")
               && p.destinationPort == r.destinationClient == Or(LastValue(attributes, "packet_dst_port"), "")
               && p.destinationChannel == Or(LastValue(attributes, "packet_dst_channel"), "")
               && p.data == Or(Bind(LastValue(attributes, "packet_data_hex"), HexDecode), [])
               && p.timeoutHeight == Or(Bind(LastValue(attributes, "packet_timeout_height"), ParseHeight), Height(0, 0))
               && p.timeoutTimestamp == r.timeoutTimestamp ==
                  Or(Bind(LastValue(attributes, "packet_timeout_timestamp"), ParseUint64), 0)
  {
    DescribesV1(events);
  }

  /** With version 2 it is that of the i-th encoded packet of the send events. */
  lemma FieldsV2(txHash: string, events: seq<Event>, unmarshal: seq<Byte> -> Option<ClientPacket>, i: nat)
    requires Version(events) == Some(2) && Parsed(txHash, events, unmarshal).Ok?
    requires i < |Encodings(AttributesOf(events, SendPacket))|
    ensures i < |Parsed(txHash, events, unmarshal).value|
    ensures var r, data := Parsed(txHash, events, unmarshal).value[i],
                           HexDecode(Encodings(AttributesOf(events, SendPacket))[i]);
            && data.Some? && unmarshal(data.value).Some?
            && var p := unmarshal(data.value).value;
               && r.txHash == txHash && r.ibcVersion == 2 && r.raw == RawV2(p)
               && r.sequence == p.sequence && r.timeoutTimestamp == p.timeoutTimestamp
               && r.sourceClient == p.sourceClient && r.destinationClient == p.destinationClient
  {
    DecodesV2(AttributesOf(events, SendPacket), unmarshal);
  }

  // Positions in the lists of events and attributes.

  lemma {:induction false} LastValueIs(attributes: seq<Attribute>, key: string, j: nat)
    requires j < |attributes| && attributes[j].key == key
    requires forall k :: j < k < |attributes| ==> attributes[k].key != key
    ensures LastValue(attributes, key) == Some(attributes[j].value)
  {
    if j < |attributes| - 1 {
      LastValueIs(attributes[..|attributes| - 1], key, j);
    }
  }

  lemma {:induction false} NoLastValue(attributes: seq<Attribute>, key: string)
    requires forall k :: 0 <= k < |attributes| ==> attributes[k].key != key
    ensures LastValue(attributes, key) == None
  {
    if attributes != [] {
      NoLastValue(attributes[..|attributes| - 1], key);
    }
  }

  /** The send events, and the encoded packets in them, are what they are called. */
  lemma {:induction false} SendsAre(events: seq<Event>)
    ensures forall e :: e in Sends(events) <==> e in events && e.kind == "send_packet"
  {
    if events != [] {
      var n := |events| - 1;
      SendsAre(events[..n]);
      assert forall e :: e in events <==> e in events[..n] || e == events[n];
    }
  }

  lemma {:induction false} EncodingsAre(attributes: seq<Attribute>)
    ensures forall v :: v in Encodings(attributes) <==> Attribute("encoded_packet_hex", v) in attributes
  {
    if attributes != [] {
      var n := |attributes| - 1;
      EncodingsAre(attributes[..n]);
      assert forall a :: a in attributes <==> a in attributes[..n] || a == attributes[n];
    }
  }

  /** An attribute of a message event that names a channel module. */
  predicate MarkAt(events: seq<Event>, i: nat, j: nat, version: nat) {
    && i < |events| && events[i].kind == "message" && j < |events[i].attributes|
    && ((version == 1 && events[i].attributes[j] == Attribute("module", "ibc_channel"))
        || (version == 2 && events[i].attributes[j] == Attribute("module", "ibc_channelv2")))
  }

  lemma {:induction false} NoFirstMark(attributes: seq<Attribute>)
    requires forall j :: 0 <= j < |attributes| ==> Mark(attributes[j]).None?
    ensures FirstMark(attributes).None?
  {
    if attributes != [] {
      NoFirstMark(attributes[1..]);
    }
  }

  lemma {:induction false} NoVersionBefore(events: seq<Event>, i: nat)
    requires i <= |events|
    requires forall k: nat, j: nat, version: nat :: k < i ==> !MarkAt(events, k, j, version)
    ensures Version(events[..i]).None?
  {
    if i > 0 {
      NoVersionBefore(events, i - 1);
      if events[i - 1].kind == "message" {
        NoMarks(events, i - 1, |events[i - 1].attributes|);
        assert events[i - 1].attributes[..|events[i - 1].attributes|] == events[i - 1].attributes;
      }
      NoMarkInEvent(events, i - 1);
    }
  }

  lemma NoMarks(events: seq<Event>, i: nat, n: nat)
    requires i < |events| && events[i].kind == "message" && n <= |events[i].attributes|
    requires forall j: nat, version: nat :: j < n ==> !MarkAt(events, i, j, version)
    ensures FirstMark(events[i].attributes[..n]).None?
  {
    var attributes := events[i].attributes[..n];
    forall j: nat | j < n
      ensures Mark(attributes[j]).None?
    {
      assert !MarkAt(events, i, j, 1) && !MarkAt(events, i, j, 2);
    }
    NoFirstMark(attributes);
  }

  /** The first mark decides the version. */
  lemma VersionIs(events: seq<Event>, i: nat, j: nat, version: nat)
    requires MarkAt(events, i, j, version)
    requires forall k: nat, l: nat, other: nat :: MarkAt(events, k, l, other) ==> i < k || (i == k && j <= l)
    ensures Version(events) == Some(version)
  {
    NoVersionBefore(events, i);
    NoMarks(events, i, j);
    MarkInEvent(events, i, j);
  }

  lemma NoVersion(events: seq<Event>)
    requires forall k: nat, l: nat, version: nat :: !MarkAt(events, k, l, version)
    ensures Version(events) == None
  {
    NoVersionBefore(events, |events|);
    assert events[..|events|] == events;
  }

  /** With version 1 the parse succeeds exactly if there is a send event and every attribute of every send event can be
      read, whatever the order of keys and events. */
  lemma ParsesIffV1(txHash: string, events: seq<Event>, unmarshal: seq<Byte> -> Option<ClientPacket>)
    requires Version(events) == Some(1)
    ensures Parsed(txHash, events, unmarshal).Ok? <==>
            Sends(events) != [] && forall a :: a in AttributesOf(events, SendPacket) ==> Readable(a)
  {
    ReadableV1(events);
    if ReadV1(events).Ok? {
      DescribesV1(events);
    }
  }

  /** With version 2 it succeeds exactly if the send events hold an encoded packet, and each one decodes. */
  lemma ParsesIffV2(txHash: string, events: seq<Event>, unmarshal: seq<Byte> -> Option<ClientPacket>)
    requires Version(events) == Some(2)
    ensures var encodings := Encodings(AttributesOf(events, SendPacket));
            Parsed(txHash, events, unmarshal).Ok? <==>
            encodings != [] && forall v :: v in encodings ==> Decodable(v, unmarshal)
  {
    var attributes := AttributesOf(events, SendPacket);
    ReadableV2(attributes, unmarshal);
    if ReadV2(events, unmarshal).Ok? {
      DecodesV2(attributes, unmarshal);
    }
  }

  lemma {:induction false} ReadableV1(events: seq<Event>)
    ensures ReadV1(events).Ok? <==> forall a :: a in AttributesOf(events, SendPacket) ==> Readable(a)
  {
    if events != [] {
      var n := |events| - 1;
      ReadableV1(events[..n]);
      AllReadable(events[n].attributes);
      var before := AttributesOf(events[..n], SendPacket);
      if events[n].kind == SendPacket {
        assert forall a :: a in before + events[n].attributes <==> a in before || a in events[n].attributes;
      } else {
        assert AttributesOf(events, SendPacket) == before;
      }
    }
  }

  function EncodeAll(packets: seq<ClientPacket>, marshal: ClientPacket -> seq<Byte>): (r: seq<string>)
    ensures |r| == |packets|
  {
    seq(|packets|, i requires 0 <= i < |packets| => HexEncode(marshal(packets[i])))
  }

  lemma ReadV2Rendered(attributes: seq<Attribute>, packets: seq<ClientPacket>, marshal: ClientPacket -> seq<Byte>,
                       unmarshal: seq<Byte> -> Option<ClientPacket>)
    requires forall p :: p in packets ==> unmarshal(marshal(p)) == Some(p)
    requires Encodings(attributes) == EncodeAll(packets, marshal)
    ensures Collect(attributes, V2PacketOf(unmarshal)) == Ok(packets)
  {
    forall i | 0 <= i < |packets|
      ensures var encoding := EncodeAll(packets, marshal)[i];
              Decodable(encoding, unmarshal) && Decoded(encoding, unmarshal) == packets[i]
    {
      HexRoundTrip(marshal(packets[i]));
    }
    ReadableV2(attributes, unmarshal);
    DecodesV2(attributes, unmarshal);
    assert Collect(attributes, V2PacketOf(unmarshal)).value == packets;
  }

  /** Rendering a non-empty list of packets of version 2, where a send event may show any number of packets, and
      parsing gives back the same list, if the protobuf decoder inverts the encoder on these packets. */
  lemma RoundTripV2(txHash: string, events: seq<Event>, packets: seq<ClientPacket>,
                    marshal: ClientPacket -> seq<Byte>, unmarshal: seq<Byte> -> Option<ClientPacket>)
    requires Version(events) == Some(2) && packets != []
    requires forall p :: p in packets ==> unmarshal(marshal(p)) == Some(p)
    requires Encodings(AttributesOf(events, SendPacket)) == EncodeAll(packets, marshal)
    ensures Parsed(txHash, events, unmarshal).Ok?
    ensures var r := Parsed(txHash, events, unmarshal).value;
            && |r| == |packets|
            && forall i :: 0 <= i < |r| ==>
                 var p := packets[i];
                 r[i] ==
                 Packet(txHash := txHash, ibcVersion := 2, sequence := p.sequence,
                       sourceClient := p.sourceClient, destinationClient := p.destinationClient,
                       timeoutTimestamp := p.timeoutTimestamp, raw := RawV2(p))
  {
    ReadV2Rendered(AttributesOf(events, SendPacket), packets, marshal, unmarshal);
  }

  lemma MapJoin<S, T>(a: Result<seq<S>, ParseError>, b: Result<seq<S>, ParseError>, f: S -> T)
    requires Map(AtLeastOne(a), f).Ok? && Map(AtLeastOne(b), f).Ok?
    ensures Map(AtLeastOne(Join(a, b)), f) == Ok(Map(AtLeastOne(a), f).value + Map(AtLeastOne(b), f).value)
  {
    assert Map(AtLeastOne(Join(a, b)), f).value == Map(AtLeastOne(a), f).value + Map(AtLeastOne(b), f).value;
  }

  lemma JoinedReads(e: seq<Event>, f: seq<Event>, unmarshal: seq<Byte> -> Option<ClientPacket>)
    ensures ReadV1(e + f) == Join(ReadV1(e), ReadV1(f))
    ensures ReadV2(e + f, unmarshal) == Join(ReadV2(e, unmarshal), ReadV2(f, unmarshal))
  {
    CollectAppend(e, f, V1PacketOf);
    AttributesAppend(e, f, SendPacket);
    CollectAppend(AttributesOf(e, SendPacket), AttributesOf(f, SendPacket), V2PacketOf(unmarshal));
  }

  /** Successful parses of two transactions of one version add up to the parse of the joined events. */
  lemma ParseAppend(txHash: string, e: seq<Event>, f: seq<Event>, unmarshal: seq<Byte> -> Option<ClientPacket>)
    requires Version(e) == Version(f)
    requires Parsed(txHash, e, unmarshal).Ok? && Parsed(txHash, f, unmarshal).Ok?
    ensures Parsed(txHash, e + f, unmarshal) ==
            Ok(Parsed(txHash, e, unmarshal).value + Parsed(txHash, f, unmarshal).value)
  {
    VersionAppend(e, f);
    JoinedReads(e, f, unmarshal);
    if Version(e) == Some(1) {
      MapJoin(ReadV1(e), ReadV1(f), p => PacketV1(txHash, p));
    } else {
      MapJoin(ReadV2(e, unmarshal), ReadV2(f, unmarshal), p => PacketV2(txHash, p));
    }
  }
}
