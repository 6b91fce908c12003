/** Packets as the store sees them, and what it relies on in the AIS libraries, which are not modelled. */
module AisPackets {
  import opened Wrappers

  datatype Position = Position(latitude: real, longitude: real)

  /** A decoded message: its user id (MMSI) and getValidPosition, None when that is null. */
  datatype Message = Message(userId: int, position: Option<Position>)

  /** A packet: its raw text, getBestTimestamp and tryGetAisMessage, None when that is null. */
  datatype Packet = Packet(raw: string, time: int, message: Option<Message>)

  /** The library functions: the Murmur3 digest read as a number, getCellInt(1), getCellInt(10) and Position.isValid. */
  datatype Library = Library(digest: string -> int, cell1: Position -> int, cell10: Position -> int,
                             isValid: Position -> bool)

  /** The MMSI the online writer uses, -1 for a packet that cannot be decoded. */
  function Mmsi(p: Packet): int {
    if p.message.None? then -1 else p.message.value.userId
  }

  predicate HasPosition(p: Packet) {
    p.message.Some? && p.message.value.position.Some?
  }

  /** getValidPosition answers null or a valid position. */
  ghost predicate ReportsValidPosition(lib: Library, p: Packet) {
    HasPosition(p) ==> lib.isValid(p.message.value.position.value)
  }

  /** The digest tells raw texts apart, and a packet is determined by its raw text. */
  ghost predicate Faithful(lib: Library, ps: set<Packet>) {
    forall p, q :: p in ps && q in ps && lib.digest(p.raw) == lib.digest(q.raw) ==> p == q
  }
}
