/** The packet records that the transfer, queue and event-parsing code exchange. */
module Ibc {

  type Byte = b: int | 0 <= b < 256

  const MaxUint64: nat := 0xFFFF_FFFF_FFFF_FFFF

  datatype Height = Height(revisionNumber: nat, revisionHeight: nat)

  /** A packet of IBC version 1. */
  datatype ChannelPacket = ChannelPacket(
    sequence: nat,
    sourcePort: string,
    sourceChannel: string,
    destinationPort: string,
    destinationChannel: string,
    data: seq<Byte>,
    timeoutHeight: Height,
    timeoutTimestamp: nat)

  /** A packet of IBC version 2. */
  datatype ClientPacket = ClientPacket(
    sequence: nat,
    sourceClient: string,
    destinationClient: string,
    timeoutTimestamp: nat,
    payloads: seq<seq<Byte>>)

  datatype RawPacket = RawV1(v1: ChannelPacket) | RawV2(v2: ClientPacket)

  datatype Packet = Packet(
    txHash: string,
    ibcVersion: nat,
    sequence: nat,
    sourceClient: string,
    destinationClient: string,
    timeoutTimestamp: nat,
    raw: RawPacket)
}
