/** Where each field of a record stands in the file, byte by byte and code by code
    (src/production/spool.rs): little-endian words, two's complement prices and times. */
module Layout {
  import opened MarketData
  import opened Spool

  /** The number after dropping its `i` lowest bytes. */
  function Dropped(value: nat, i: nat): nat {
    if i == 0 then value else Dropped(value / 256, i - 1)
  }

  /** Bytes stand from the lowest to the highest. */
  lemma {:induction false} LowestFirst(value: nat, width: nat, i: nat)
    requires i < width
    ensures LittleEndian(value, width)[i] == Dropped(value, i) % 256
  {
    if i > 0 {
      LowestFirst(value / 256, width - 1, i - 1);
    }
  }

  /** The `width` bytes from `at` on are those of the number. */
  ghost predicate WordAt(bytes: seq<byte>, at: nat, width: nat, n: nat) {
    at + width <= |bytes| && bytes[at..at + width] == LittleEndian(n, width)
  }

  ghost predicate SignedAt(bytes: seq<byte>, at: nat, n: int) {
    -0x8000_0000_0000_0000 <= n <= 0x7FFF_FFFF_FFFF_FFFF
    && WordAt(bytes, at, 8, if n < 0 then n + 0x1_0000_0000_0000_0000 else n)
  }

  /** A word and what stands behind it. */
  lemma WordThenRest(bytes: seq<byte>, at: nat, word: seq<byte>, rest: seq<byte>)
    requires at <= |bytes| && bytes[at..] == word + rest
    ensures at + |word| <= |bytes| && bytes[at..at + |word|] == word && bytes[at + |word|..] == rest
  {
    assert bytes[at..at + |word|] == bytes[at..][..|word|];
    assert bytes[at + |word|..] == bytes[at..][|word|..];
  }

  /** The forty-two bytes that every record starts with. */
  ghost predicate CommonAt(bytes: seq<byte>, c: Common) {
    && |bytes| >= 42
    && WordAt(bytes, 0, 8, c.sourceRow) && WordAt(bytes, 8, 8, c.sequence) && WordAt(bytes, 16, 4, c.channel)
    && bytes[20..26] == c.symbol && SignedAt(bytes, 26, c.quoteTime) && SignedAt(bytes, 34, c.localTime)
  }

  lemma CommonStands(c: Common, rest: seq<byte>)
    ensures CommonAt(PutCommon(c, rest), c) && PutCommon(c, rest)[42..] == rest
  {
    hide LittleEndian;
    var bytes := PutCommon(c, rest);
    var times := PutI64(c.quoteTime, PutI64(c.localTime, rest));
    assert bytes[0..] == bytes;
    WordThenRest(bytes, 0, LittleEndian(c.sourceRow, 8),
                 PutU64(c.sequence, LittleEndian(c.channel, 4) + (c.symbol + times)));
    WordThenRest(bytes, 8, LittleEndian(c.sequence, 8), LittleEndian(c.channel, 4) + (c.symbol + times));
    WordThenRest(bytes, 16, LittleEndian(c.channel, 4), c.symbol + times);
    WordThenRest(bytes, 20, c.symbol, times);
    WordThenRest(bytes, 26, LittleEndian(Unsigned(c.quoteTime), 8), PutI64(c.localTime, rest));
    WordThenRest(bytes, 34, LittleEndian(Unsigned(c.localTime), 8), rest);
  }

  ghost predicate OrderAt(bytes: seq<byte>, row: SpoolRow)
    requires row.OrderRecord?
  {
    && |bytes| == 60 && SignedAt(bytes, 42, row.price) && WordAt(bytes, 50, 8, row.quantity)
    && bytes[58] == (if row.side == SzBuy then 1 else 2)
    && bytes[59] == (if row.orderKind.Market? then 1 else if row.orderKind.Limit? then 2 else 3)
  }

  ghost predicate ExecutionAt(bytes: seq<byte>, row: SpoolRow)
    requires row.ExecutionRecord?
  {
    && |bytes| == 75 && WordAt(bytes, 42, 8, row.bidOrderNo) && WordAt(bytes, 50, 8, row.askOrderNo)
    && SignedAt(bytes, 58, row.price) && WordAt(bytes, 66, 8, row.quantity)
    && bytes[74] == (if row.executionKind.Trade? then 1 else 2)
  }

  ghost predicate SseAt(bytes: seq<byte>, row: SpoolRow)
    requires row.SseRecord?
  {
    && |bytes| == 77
    && bytes[42] == (match row.sseKind case SseAdd => 1 case SseDelete => 2 case SseTrade => 3 case SseStatus => 4)
    && WordAt(bytes, 43, 8, row.buyOrderNo) && WordAt(bytes, 51, 8, row.sellOrderNo)
    && SignedAt(bytes, 59, row.price) && WordAt(bytes, 67, 8, row.quantity)
    && bytes[75] == (match row.flag case BuyAggressor => 1 case SellAggressor => 2 case Neutral => 3 case Other => 4)
    && bytes[76] == row.status
  }

  ghost predicate StandsIn(bytes: seq<byte>, row: SpoolRow) {
    && CommonAt(bytes, row.common)
    && match row
       case OrderRecord(_, _, _, _, _) => OrderAt(bytes, row)
       case ExecutionRecord(_, _, _, _, _, _) => ExecutionAt(bytes, row)
       case SseRecord(_, _, _, _, _, _, _, _) => SseAt(bytes, row)
  }

  lemma OrderStands(row: SpoolRow)
    requires row.OrderRecord?
    ensures StandsIn(Put(row, []), row)
  {
    hide LittleEndian, PutCommon;
    var bytes := Put(row, []);
    var codes := [SideByte(row.side)] + ([OrderKindByte(row.orderKind)] + []);
    CommonStands(row.common, PutFields(row, []));
    WordThenRest(bytes, 42, LittleEndian(Unsigned(row.price), 8), PutU64(row.quantity, codes));
    WordThenRest(bytes, 50, LittleEndian(row.quantity, 8), codes);
    assert bytes[58] == bytes[58..][0] && bytes[59] == bytes[58..][1];
  }

  lemma ExecutionStands(row: SpoolRow)
    requires row.ExecutionRecord?
    ensures StandsIn(Put(row, []), row)
  {
    hide LittleEndian, PutCommon;
    var bytes := Put(row, []);
    var code := [ExecutionKindByte(row.executionKind)] + [];
    CommonStands(row.common, PutFields(row, []));
    WordThenRest(bytes, 42, LittleEndian(row.bidOrderNo, 8),
                 PutU64(row.askOrderNo, PutI64(row.price, PutU64(row.quantity, code))));
    WordThenRest(bytes, 50, LittleEndian(row.askOrderNo, 8), PutI64(row.price, PutU64(row.quantity, code)));
    WordThenRest(bytes, 58, LittleEndian(Unsigned(row.price), 8), PutU64(row.quantity, code));
    WordThenRest(bytes, 66, LittleEndian(row.quantity, 8), code);
    assert bytes[74] == bytes[74..][0];
  }

  lemma SseStands(row: SpoolRow)
    requires row.SseRecord?
    ensures StandsIn(Put(row, []), row)
  {
    hide LittleEndian, PutCommon;
    var bytes := Put(row, []);
    var codes := [FlagByte(row.flag)] + ([row.status] + []);
    CommonStands(row.common, PutFields(row, []));
    WordThenRest(bytes, 42, [SseKindByte(row.sseKind)],
                 PutU64(row.buyOrderNo, PutU64(row.sellOrderNo, PutI64(row.price, PutU64(row.quantity, codes)))));
    WordThenRest(bytes, 43, LittleEndian(row.buyOrderNo, 8),
                 PutU64(row.sellOrderNo, PutI64(row.price, PutU64(row.quantity, codes))));
    WordThenRest(bytes, 51, LittleEndian(row.sellOrderNo, 8), PutI64(row.price, PutU64(row.quantity, codes)));
    WordThenRest(bytes, 59, LittleEndian(Unsigned(row.price), 8), PutU64(row.quantity, codes));
    WordThenRest(bytes, 67, LittleEndian(row.quantity, 8), codes);
    assert bytes[42] == bytes[42..43][0] && bytes[75] == bytes[75..][0] && bytes[76] == bytes[75..][1];
  }

  /** Every field of a row stands in its record at its own place, whatever the row's kind. */
  lemma RecordLayout(row: SpoolRow)
    ensures StandsIn(Put(row, []), row)
  {
    hide StandsIn, Put;
    match row {
      case OrderRecord(_, _, _, _, _) => OrderStands(row);
      case ExecutionRecord(_, _, _, _, _, _) => ExecutionStands(row);
      case SseRecord(_, _, _, _, _, _, _, _) => SseStands(row);
    }
  }

  /** A file starts with four letters and the code of its kind. */
  lemma HeaderLayout(kind: SpoolKind)
    ensures |Header(kind)| == 5 && Header(kind)[..4] == ['Q' as byte, 'T' as byte, 'P' as byte, '1' as byte]
    ensures Header(kind)[4] == (if kind.Sse? then 1 else if kind.SzOrder? then 2 else 3)
  {
  }
}
