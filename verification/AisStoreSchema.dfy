/** The tables of AisStore and the time blocks that partition them. Instants are milliseconds since the epoch. */
module AisStoreSchema {
  import opened Wrappers

  datatype Table = PacketsTime | PacketsMmsi | PacketsAreaCell1 | PacketsAreaCell10 | PacketsAreaUnknown

  const INT_MIN := -0x8000_0000
  const INT_MAX := 0x7FFF_FFFF

  const TEN_MINUTES := 600
  const THIRTY_DAYS := 2592000

  /** Length of a time block in seconds: ten minutes, or thirty days for the tables keyed by MMSI. */
  function BlockSeconds(table: Table): (s: nat)
    ensures s > 0
  {
    match table
    case PacketsTime | PacketsAreaCell1 | PacketsAreaCell10 => TEN_MINUTES
    case PacketsMmsi | PacketsAreaUnknown => THIRTY_DAYS
  }

  /** Instant.getEpochSecond rounds down; Dafny's division by a positive number does the same. */
  function EpochSecond(millis: int): int {
    millis / 1000
  }

  /** Division of Java integers, which rounds toward zero. */
  function JavaDiv(a: int, b: int): int
    requires b > 0
  {
    if a >= 0 then a / b else -(-a / b)
  }

  /** The block number before it is narrowed to an int. */
  function Block(table: Table, millis: int): int {
    match table
    case PacketsTime | PacketsAreaCell1 | PacketsAreaCell10 => JavaDiv(EpochSecond(millis), TEN_MINUTES)
    case PacketsMmsi | PacketsAreaUnknown => JavaDiv(EpochSecond(millis), THIRTY_DAYS)
  }

  predicate Fits(table: Table, millis: int) {
    INT_MIN <= Block(table, millis) <= INT_MAX
  }

  /** timeBlock: None stands for the exception of Ints.checkedCast. */
  function TimeBlock(table: Table, millis: int): Option<int> {
    if Fits(table, millis) then Some(Block(table, millis)) else None
  }

  /** The integers from lo up to and including hi. */
  function Consecutive(lo: int, hi: int): (s: seq<int>)
    ensures |s| == if hi < lo then 0 else hi - lo + 1
    ensures forall i :: 0 <= i < |s| ==> s[i] == lo + i
    decreases hi - lo + 1
  {
    if hi < lo then [] else Consecutive(lo, hi - 1) + [hi]
  }

  /** What timeBlocks answers; None when an end does not fit an int or the list's capacity would be negative. */
  function BlockList(table: Table, start: int, stop: int): Option<seq<int>> {
    if !Fits(table, start) || !Fits(table, stop) || Block(table, stop) - Block(table, start) + 1 < 0 then None
    else Some(Consecutive(Block(table, start), Block(table, stop)))
  }

  method TimeBlocks(table: Table, start: int, stop: int) returns (blocks: Option<seq<int>>)
    ensures blocks == BlockList(table, start, stop)
  {
    var min := TimeBlock(table, start);
    var max := TimeBlock(table, stop);
    if min.None? || max.None? || max.value - min.value + 1 < 0 {
      return None;
    }
    var list: seq<int> := [];
    var timeBlock := min.value;
    while timeBlock <= max.value
      invariant min.value <= timeBlock
      invariant timeBlock <= max.value + 1
      invariant list == Consecutive(min.value, timeBlock - 1)
    {
      list := list + [timeBlock];
      timeBlock := timeBlock + 1;
    }
    return Some(list);
  }

  lemma DivMonotone(a: int, b: int, d: int)
    requires d > 0 && a <= b
    ensures a / d <= b / d
  {
    var q, r := a / d, b / d;
    assert a == d * q + a % d && b == d * r + b % d;
    assert q >= r + 1 ==> d * q >= d * (r + 1) == d * r + d;
  }

  /** Truncation toward zero keeps timeBlock monotone on both sides of the epoch. */
  lemma BlockMonotone(table: Table, t: int, u: int)
    requires t <= u
    ensures Block(table, t) <= Block(table, u)
  {
    var d := BlockSeconds(table);
    DivMonotone(t, u, 1000);
    var s, v := EpochSecond(t), EpochSecond(u);
    if 0 <= s {
      DivMonotone(s, v, d);
    } else if v < 0 {
      DivMonotone(-v, -s, d);
    }
  }

  /** The instant lies in block b of the given width in milliseconds; block zero is almost twice as wide. */
  ghost predicate InBlock(width: int, t: int, b: int) {
    && (b <= 0 ==> (b - 1) * width + 1000 <= t)
    && (b >= 0 ==> t < (b + 1) * width)
    && (b > 0 ==> b * width <= t)
    && (b < 0 ==> t < b * width + 1000)
  }

  /** The instants of a ten-minute block. */
  lemma TenMinuteBlock(table: Table, t: int, b: int)
    requires table.PacketsTime? || table.PacketsAreaCell1? || table.PacketsAreaCell10?
    ensures Block(table, t) == b <==> InBlock(600000, t, b)
  {
    var s := EpochSecond(t);
    assert 1000 * s <= t < 1000 * s + 1000;
    var q := Block(table, t);
    if s >= 0 {
      assert 600 * q <= s < 600 * q + 600;
    } else {
      assert 600 * -q <= -s < 600 * -q + 600;
    }
  }

  /** The instants of a thirty-day block. */
  lemma ThirtyDayBlock(table: Table, t: int, b: int)
    requires table.PacketsMmsi? || table.PacketsAreaUnknown?
    ensures Block(table, t) == b <==> InBlock(2592000000, t, b)
  {
    var s := EpochSecond(t);
    assert 1000 * s <= t < 1000 * s + 1000;
    var q := Block(table, t);
    if s >= 0 {
      assert 2592000 * q <= s < 2592000 * q + 2592000;
    } else {
      assert 2592000 * -q <= -s < 2592000 * -q + 2592000;
    }
  }

  /** Exactly the instants that timeBlock takes without an exception for a ten-minute table, and their block. */
  lemma TenMinuteRange(table: Table, t: int)
    requires table.PacketsTime? || table.PacketsAreaCell1? || table.PacketsAreaCell10?
    ensures TimeBlock(table, t).Some? <==> -2147483649 * 600000 + 1000 <= t < 2147483648 * 600000
    ensures TimeBlock(table, t).Some? ==> InBlock(600000, t, TimeBlock(table, t).value)
  {
    TenMinuteBlock(table, t, Block(table, t));
  }

  /** The same for a thirty-day table. */
  lemma ThirtyDayRange(table: Table, t: int)
    requires table.PacketsMmsi? || table.PacketsAreaUnknown?
    ensures TimeBlock(table, t).Some? <==> -2147483649 * 2592000000 + 1000 <= t < 2147483648 * 2592000000
    ensures TimeBlock(table, t).Some? ==> InBlock(2592000000, t, TimeBlock(table, t).value)
  {
    ThirtyDayBlock(table, t, Block(table, t));
  }

  /** The first instant of 2015. */
  lemma BlockExample()
    ensures TimeBlock(PacketsTime, 1420070400000) == Some(2366784)
    ensures TimeBlock(PacketsMmsi, 1420070400000) == Some(547)
  {
    TenMinuteBlock(PacketsTime, 1420070400000, 2366784);
    ThirtyDayBlock(PacketsMmsi, 1420070400000, 547);
  }

  /** For start <= stop, timeBlocks lists exactly the consecutive blocks of the instants between the two ends. */
  lemma BlockListCovers(table: Table, start: int, stop: int)
    requires start <= stop && Fits(table, start) && Fits(table, stop)
    ensures BlockList(table, start, stop).Some?
    ensures var blocks := BlockList(table, start, stop).value;
            && |blocks| > 0 && blocks[0] == Block(table, start) && blocks[|blocks| - 1] == Block(table, stop)
            && (forall i :: 0 < i < |blocks| ==> blocks[i] == blocks[i - 1] + 1)
            && (forall t :: start <= t <= stop ==> Block(table, t) in blocks)
  {
    BlockMonotone(table, start, stop);
    var blocks := BlockList(table, start, stop).value;
    forall t | start <= t <= stop
      ensures Block(table, t) in blocks
    {
      BlockMonotone(table, start, t);
      BlockMonotone(table, t, stop);
      assert blocks[Block(table, t) - Block(table, start)] == Block(table, t);
    }
  }

  /** With the ends in reverse there is a list only within one block or across one border, with at most that block. */
  lemma ReversedBlockList(table: Table, start: int, stop: int)
    requires stop < start && Fits(table, start) && Fits(table, stop)
    ensures BlockList(table, start, stop)
            == if Block(table, stop) == Block(table, start) then Some([Block(table, start)])
               else if Block(table, stop) == Block(table, start) - 1 then Some([])
               else None
  {
    BlockMonotone(table, stop, start);
    var b := Block(table, start);
    assert Consecutive(b, b) == [b] && Consecutive(b, b - 1) == [];
  }
}
