/** Packets and capture files as the extraction pipeline sees them. */
module Capture {

  /** The zero `netip.Addr` is the address of a packet without an IP layer. */
  datatype Addr = NoAddr | Addr(text: string)

  datatype PacketRow = PacketRow(time: int, srcIp: Addr, dstIp: Addr, srcPort: int, dstPort: int,
                                 protocol: string, length: int, tcpFlags: int)

  /** What one call of the packet reader yields before the clean end of file: a packet,
      a corrupted record that is skipped, or an error whose text mentions EOF, which ends the file. */
  datatype Event = Packet(row: PacketRow) | Corrupt | Truncated

  /** `openable`: os.Open succeeds. `hashable`: its first 64 KiB can be read. `checksum`: their digest.
      `header`: the pcap header parses. */
  datatype FileData = FileData(openable: bool, hashable: bool, checksum: string, header: bool, events: seq<Event>)

  type Path = string

  /** The rows a reader extracts from a run of events. */
  function Decode(events: seq<Event>): seq<PacketRow> {
    if events == [] then []
    else match events[0]
      case Packet(row) => [row] + Decode(events[1..])
      case Corrupt => Decode(events[1..])
      case Truncated => []
  }

  predicate Readable(f: FileData) {
    f.openable && f.header
  }

  /** The rows still to be extracted once `pos` events have been consumed. */
  function RowsFrom(f: FileData, pos: nat): seq<PacketRow> {
    if pos <= |f.events| then Decode(f.events[pos..]) else []
  }

  /** All rows of a file; an unreadable file contributes none. */
  function FileRows(f: FileData): seq<PacketRow> {
    if Readable(f) then Decode(f.events) else []
  }

  lemma RowsFromStep(f: FileData, pos: nat)
    requires pos < |f.events|
    ensures f.events[pos].Packet? ==> RowsFrom(f, pos) == [f.events[pos].row] + RowsFrom(f, pos + 1)
    ensures f.events[pos].Corrupt? ==> RowsFrom(f, pos) == RowsFrom(f, pos + 1)
    ensures f.events[pos].Truncated? ==> RowsFrom(f, pos) == []
  {
    assert f.events[pos..][1..] == f.events[pos + 1..];
  }

  lemma RowsFromStart(f: FileData)
    ensures RowsFrom(f, 0) == Decode(f.events)
    ensures RowsFrom(f, |f.events|) == []
  {
    assert f.events[0..] == f.events;
  }
}
