/** The spool format (src/production/spool.rs): little-endian records behind a five-byte header.
    Writing any rows and reading them back gives the same rows and then the end of the file, and
    the merge finds the native sequence of a Shenzhen record at bytes 8..16. */
module Spool {
  import opened Wrappers
  import opened MarketData
  import Sequence

  datatype IoError = UnexpectedEof | InvalidData | InvalidInput

  // ----- integers -----

  function Pow256(width: nat): nat {
    if width == 0 then 1 else 256 * Pow256(width - 1)
  }

  function LittleEndian(value: nat, width: nat): (bytes: seq<byte>)
    ensures |bytes| == width
  {
    if width == 0 then [] else [value % 256] + LittleEndian(value / 256, width - 1)
  }

  function FromLittleEndian(bytes: seq<byte>): nat {
    if bytes == [] then 0 else bytes[0] + 256 * FromLittleEndian(bytes[1..])
  }

  lemma {:induction false} LittleEndianRoundTrip(value: nat, width: nat)
    requires value < Pow256(width)
    ensures FromLittleEndian(LittleEndian(value, width)) == value
  {
    if width > 0 {
      LittleEndianRoundTrip(value / 256, width - 1);
      assert LittleEndian(value, width)[1..] == LittleEndian(value / 256, width - 1);
    }
  }

  lemma {:induction false} FromLittleEndianBound(bytes: seq<byte>)
    ensures FromLittleEndian(bytes) < Pow256(|bytes|)
  {
    if bytes != [] {
      FromLittleEndianBound(bytes[1..]);
    }
  }

  /** Two's complement. */
  function Unsigned(value: i64): u64 {
    if value < 0 then value + MAX_U64 + 1 else value
  }

  function Signed(value: u64): i64 {
    if value > MAX_I64 then value - MAX_U64 - 1 else value
  }

  lemma Widths()
    ensures Pow256(1) == 256 && Pow256(4) == 0x1_0000_0000 && Pow256(8) == MAX_U64 + 1
  {
    assert Pow256(2) == 0x1_0000 && Pow256(3) == 0x100_0000;
    assert Pow256(5) == 0x100_0000_0000 && Pow256(6) == 0x1_0000_0000_0000 && Pow256(7) == 0x100_0000_0000_0000;
  }

  lemma {:induction false} BytesRoundTrip(bytes: seq<byte>)
    ensures LittleEndian(FromLittleEndian(bytes), |bytes|) == bytes
  {
    if bytes != [] {
      BytesRoundTrip(bytes[1..]);
      LowestByte(bytes[0], FromLittleEndian(bytes[1..]));
    }
  }

  lemma LowestByte(low: byte, high: nat)
    ensures (low + 256 * high) % 256 == low && (low + 256 * high) / 256 == high
  {
  }

  /** Read exactly `count` bytes. */
  function Take(stream: seq<byte>, count: nat): (r: Result<(seq<byte>, seq<byte>), IoError>)
    ensures r.Ok? ==> |r.value.0| == count && stream == r.value.0 + r.value.1
  {
    if |stream| < count then Err(UnexpectedEof) else Ok((stream[..count], stream[count..]))
  }

  function ReadU64(stream: seq<byte>): (r: Result<(u64, seq<byte>), IoError>)
    ensures r.Ok? ==> stream == LittleEndian(r.value.0, 8) + r.value.1
  {
    var (bytes, rest) :- Take(stream, 8);
    FromLittleEndianBound(bytes);
    BytesRoundTrip(bytes);
    Widths();
    Ok((FromLittleEndian(bytes), rest))
  }

  function ReadU32(stream: seq<byte>): (r: Result<(u32, seq<byte>), IoError>)
    ensures r.Ok? ==> stream == LittleEndian(r.value.0, 4) + r.value.1
  {
    var (bytes, rest) :- Take(stream, 4);
    FromLittleEndianBound(bytes);
    BytesRoundTrip(bytes);
    Widths();
    Ok((FromLittleEndian(bytes), rest))
  }

  function ReadI64(stream: seq<byte>): (r: Result<(i64, seq<byte>), IoError>)
    ensures r.Ok? ==> stream == LittleEndian(Unsigned(r.value.0), 8) + r.value.1
  {
    var (value, rest) :- ReadU64(stream);
    Ok((Signed(value), rest))
  }

  function ReadU8(stream: seq<byte>): (r: Result<(byte, seq<byte>), IoError>)
    ensures r.Ok? ==> stream == [r.value.0] + r.value.1
  {
    var (bytes, rest) :- Take(stream, 1);
    Ok((bytes[0], rest))
  }

  /** The first field of a row: an empty stream is the end of the file, a cut one is an error. */
  function ReadFirstU64(stream: seq<byte>): (r: Result<Option<(u64, seq<byte>)>, IoError>)
    ensures r.Ok? && r.value.None? ==> stream == []
    ensures r.Ok? && r.value.Some? ==> stream == LittleEndian(r.value.value.0, 8) + r.value.value.1
  {
    if stream == [] then Ok(None)
    else
      var first :- ReadU64(stream);
      Ok(Some(first))
  }

  lemma ReadsU64(value: u64, rest: seq<byte>)
    ensures ReadU64(LittleEndian(value, 8) + rest) == Ok((value, rest))
  {
    Widths();
    LittleEndianRoundTrip(value, 8);
    assert (LittleEndian(value, 8) + rest)[..8] == LittleEndian(value, 8);
    assert (LittleEndian(value, 8) + rest)[8..] == rest;
  }

  lemma ReadsU32(value: u32, rest: seq<byte>)
    ensures ReadU32(LittleEndian(value, 4) + rest) == Ok((value, rest))
  {
    Widths();
    LittleEndianRoundTrip(value, 4);
    assert (LittleEndian(value, 4) + rest)[..4] == LittleEndian(value, 4);
    assert (LittleEndian(value, 4) + rest)[4..] == rest;
  }

  lemma ReadsI64(value: i64, rest: seq<byte>)
    ensures ReadI64(LittleEndian(Unsigned(value), 8) + rest) == Ok((value, rest))
  {
    ReadsU64(Unsigned(value), rest);
  }

  lemma ReadsU8(value: byte, rest: seq<byte>)
    ensures ReadU8([value] + rest) == Ok((value, rest))
  {
    assert ([value] + rest)[..1] == [value] && ([value] + rest)[1..] == rest;
  }

  // ----- symbols -----

  predicate Ascii(bytes: seq<byte>) {
    forall i | 0 <= i < |bytes| :: bytes[i] < 128
  }

  predicate Continuation(b: byte) {
    0x80 <= b < 0xC0
  }

  /** Well-formed UTF-8 (RFC 3629, section 4). */
  predicate Utf8(bytes: seq<byte>) {
    if bytes == [] then true
    else if bytes[0] < 0x80 then Utf8(bytes[1..])
    else if 0xC2 <= bytes[0] <= 0xDF then |bytes| >= 2 && Continuation(bytes[1]) && Utf8(bytes[2..])
    else if 0xE0 <= bytes[0] <= 0xEF then
      && |bytes| >= 3 && Continuation(bytes[1]) && Continuation(bytes[2])
      && (bytes[0] == 0xE0 ==> bytes[1] >= 0xA0) && (bytes[0] == 0xED ==> bytes[1] < 0xA0)
      && Utf8(bytes[3..])
    else if 0xF0 <= bytes[0] <= 0xF4 then
      && |bytes| >= 4 && Continuation(bytes[1]) && Continuation(bytes[2]) && Continuation(bytes[3])
      && (bytes[0] == 0xF0 ==> bytes[1] >= 0x90) && (bytes[0] == 0xF4 ==> bytes[1] < 0x90)
      && Utf8(bytes[4..])
    else false
  }

  lemma {:induction false} AsciiIsUtf8(bytes: seq<byte>)
    requires Ascii(bytes)
    ensures Utf8(bytes)
  {
    if bytes != [] {
      AsciiIsUtf8(bytes[1..]);
    }
  }

  /** A spool symbol is six bytes; the writer demands ASCII, the reader accepts any UTF-8. */
  type Symbol = s: seq<byte> | |s| == 6 witness [0, 0, 0, 0, 0, 0]

  function ReadSymbol(stream: seq<byte>): (r: Result<(Symbol, seq<byte>), IoError>)
    ensures r.Ok? ==> stream == r.value.0 + r.value.1 && Utf8(r.value.0)
  {
    var (bytes, rest) :- Take(stream, 6);
    if Utf8(bytes) then Ok((bytes, rest)) else Err(InvalidData)
  }

  lemma ReadsSymbol(symbol: Symbol, rest: seq<byte>)
    requires Utf8(symbol)
    ensures ReadSymbol(symbol + rest) == Ok((symbol, rest))
  {
    assert (symbol + rest)[..6] == symbol && (symbol + rest)[6..] == rest;
  }

  // ----- rows -----

  datatype Common = Common(
    sourceRow: u64, sequence: u64, channel: u32, symbol: Symbol, quoteTime: i64, localTime: i64)

  datatype SzSide = SzBuy | SzSell
  datatype SzOrderKind = Market | Limit | SameSideBest
  datatype SzExecutionKind = Trade | Cancel
  datatype SseKind = SseAdd | SseDelete | SseTrade | SseStatus
  datatype Aggressor = BuyAggressor | SellAggressor | Neutral | Other

  datatype SpoolKind = Sse | SzOrder | SzExecution

  datatype SpoolRow =
    | OrderRecord(common: Common, price: i64, quantity: u64, side: SzSide, orderKind: SzOrderKind)
    | ExecutionRecord(
        common: Common, bidOrderNo: u64, askOrderNo: u64, price: i64, quantity: u64, executionKind: SzExecutionKind)
    | SseRecord(
        common: Common, sseKind: SseKind, buyOrderNo: u64, sellOrderNo: u64, price: i64, quantity: u64,
        flag: Aggressor, status: byte)
  {
    function Kind(): SpoolKind {
      match this
      case OrderRecord(_, _, _, _, _) => SzOrder
      case ExecutionRecord(_, _, _, _, _, _) => SzExecution
      case SseRecord(_, _, _, _, _, _, _, _) => SpoolKind.Sse
    }
  }

  function KindByte(kind: SpoolKind): byte {
    match kind case Sse => 1 case SzOrder => 2 case SzExecution => 3
  }

  /** The fixed width of a row of each kind; the repair seeks by it. */
  function Width(kind: SpoolKind): nat {
    match kind case Sse => 77 case SzOrder => 60 case SzExecution => 75
  }

  function SideByte(side: SzSide): byte {
    match side case SzBuy => 1 case SzSell => 2
  }

  function OrderKindByte(kind: SzOrderKind): byte {
    match kind case Market => 1 case Limit => 2 case SameSideBest => 3
  }

  function ExecutionKindByte(kind: SzExecutionKind): byte {
    match kind case Trade => 1 case Cancel => 2
  }

  function SseKindByte(kind: SseKind): byte {
    match kind case SseAdd => 1 case SseDelete => 2 case SseTrade => 3 case SseStatus => 4
  }

  function FlagByte(flag: Aggressor): byte {
    match flag case BuyAggressor => 1 case SellAggressor => 2 case Neutral => 3 case Other => 4
  }

  function ReadSide(stream: seq<byte>): (r: Result<(SzSide, seq<byte>), IoError>)
    ensures r.Ok? ==> stream == [SideByte(r.value.0)] + r.value.1
  {
    var (b, rest) :- ReadU8(stream);
    match b
    case 1 => Ok((SzBuy, rest))
    case 2 => Ok((SzSell, rest))
    case _ => Err(InvalidData)
  }

  function ReadOrderKind(stream: seq<byte>): (r: Result<(SzOrderKind, seq<byte>), IoError>)
    ensures r.Ok? ==> stream == [OrderKindByte(r.value.0)] + r.value.1
  {
    var (b, rest) :- ReadU8(stream);
    match b
    case 1 => Ok((Market, rest))
    case 2 => Ok((Limit, rest))
    case 3 => Ok((SzOrderKind.SameSideBest, rest))
    case _ => Err(InvalidData)
  }

  function ReadExecutionKind(stream: seq<byte>): (r: Result<(SzExecutionKind, seq<byte>), IoError>)
    ensures r.Ok? ==> stream == [ExecutionKindByte(r.value.0)] + r.value.1
  {
    var (b, rest) :- ReadU8(stream);
    match b
    case 1 => Ok((SzExecutionKind.Trade, rest))
    case 2 => Ok((Cancel, rest))
    case _ => Err(InvalidData)
  }

  function ReadSseKind(stream: seq<byte>): (r: Result<(SseKind, seq<byte>), IoError>)
    ensures r.Ok? ==> stream == [SseKindByte(r.value.0)] + r.value.1
  {
    var (b, rest) :- ReadU8(stream);
    match b
    case 1 => Ok((SseAdd, rest))
    case 2 => Ok((SseDelete, rest))
    case 3 => Ok((SseTrade, rest))
    case 4 => Ok((SseStatus, rest))
    case _ => Err(InvalidData)
  }

  function ReadFlag(stream: seq<byte>): (r: Result<(Aggressor, seq<byte>), IoError>)
    ensures r.Ok? ==> stream == [FlagByte(r.value.0)] + r.value.1
  {
    var (b, rest) :- ReadU8(stream);
    match b
    case 1 => Ok((BuyAggressor, rest))
    case 2 => Ok((SellAggressor, rest))
    case 3 => Ok((Neutral, rest))
    case 4 => Ok((Other, rest))
    case _ => Err(InvalidData)
  }

  function PutU64(n: u64, rest: seq<byte>): seq<byte> {
    LittleEndian(n, 8) + rest
  }

  function PutI64(n: i64, rest: seq<byte>): seq<byte> {
    LittleEndian(Unsigned(n), 8) + rest
  }

  function PutCommon(c: Common, rest: seq<byte>): seq<byte> {
    PutU64(c.sourceRow, PutU64(c.sequence, LittleEndian(c.channel, 4) + (c.symbol
      + PutI64(c.quoteTime, PutI64(c.localTime, rest)))))
  }

  /** The fields a record has beyond the common ones. */
  function PutFields(row: SpoolRow, rest: seq<byte>): seq<byte> {
    match row
    case OrderRecord(_, price, quantity, side, kind) =>
      PutI64(price, PutU64(quantity, [SideByte(side)] + ([OrderKindByte(kind)] + rest)))
    case ExecutionRecord(_, bid, ask, price, quantity, kind) =>
      PutU64(bid, PutU64(ask, PutI64(price, PutU64(quantity, [ExecutionKindByte(kind)] + rest))))
    case SseRecord(_, kind, buy, sell, price, quantity, flag, status) =>
      [SseKindByte(kind)] + PutU64(buy, PutU64(sell, PutI64(price, PutU64(quantity,
        [FlagByte(flag)] + ([status] + rest)))))
  }

  /** The bytes of a record, followed by `rest`. */
  function Put(row: SpoolRow, rest: seq<byte>): seq<byte> {
    PutCommon(row.common, PutFields(row, rest))
  }

  /** What is written reads back as the row and nothing else; a symbol that is not ASCII is refused. */
  function Write(row: SpoolRow): (r: Result<seq<byte>, IoError>)
    ensures r.Ok? <==> Ascii(row.common.symbol)
    ensures r.Ok? ==> Read(row.Kind(), r.value) == Ok(Some((row, []))) && |r.value| == Width(row.Kind())
    ensures r.Err? ==> r.error == InvalidInput
  {
    hide Put, Read, Utf8;
    if Ascii(row.common.symbol) then
      AsciiIsUtf8(row.common.symbol);
      Reads(row, []);
      PutShape(row, []);
      Ok(Put(row, []))
    else Err(InvalidInput)
  }

  function ReadCommon(stream: seq<byte>): (r: Result<Option<(Common, seq<byte>)>, IoError>)
    ensures r.Ok? && r.value.None? ==> stream == []
    ensures r.Ok? && r.value.Some? ==>
      && stream == PutCommon(r.value.value.0, r.value.value.1) && Utf8(r.value.value.0.symbol)
  {
    hide LittleEndian, FromLittleEndian, Utf8;
    var first :- ReadFirstU64(stream);
    if first.None? then Ok(None)
    else
      var (sequence, s1) :- ReadU64(first.value.1);
      var (channel, s2) :- ReadU32(s1);
      var (symbol, s3) :- ReadSymbol(s2);
      var (quoteTime, s4) :- ReadI64(s3);
      var (localTime, s5) :- ReadI64(s4);
      Ok(Some((Common(first.value.0, sequence, channel, symbol, quoteTime, localTime), s5)))
  }

  function ReadOrder(c: Common, stream: seq<byte>): (r: Result<(SpoolRow, seq<byte>), IoError>)
    ensures r.Ok? ==>
      r.value.0.OrderRecord? && r.value.0.common == c && stream == PutFields(r.value.0, r.value.1)
  {
    hide LittleEndian, FromLittleEndian;
    var (price, s1) :- ReadI64(stream);
    var (quantity, s2) :- ReadU64(s1);
    var (side, s3) :- ReadSide(s2);
    var (orderKind, rest) :- ReadOrderKind(s3);
    Ok((OrderRecord(c, price, quantity, side, orderKind), rest))
  }

  function ReadExecution(c: Common, stream: seq<byte>): (r: Result<(SpoolRow, seq<byte>), IoError>)
    ensures r.Ok? ==>
      r.value.0.ExecutionRecord? && r.value.0.common == c && stream == PutFields(r.value.0, r.value.1)
  {
    hide LittleEndian, FromLittleEndian;
    var (bid, s1) :- ReadU64(stream);
    var (ask, s2) :- ReadU64(s1);
    var (price, s3) :- ReadI64(s2);
    var (quantity, s4) :- ReadU64(s3);
    var (executionKind, rest) :- ReadExecutionKind(s4);
    Ok((ExecutionRecord(c, bid, ask, price, quantity, executionKind), rest))
  }

  function ReadSse(c: Common, stream: seq<byte>): (r: Result<(SpoolRow, seq<byte>), IoError>)
    ensures r.Ok? ==>
      r.value.0.SseRecord? && r.value.0.common == c && stream == PutFields(r.value.0, r.value.1)
  {
    hide LittleEndian, FromLittleEndian;
    var (sseKind, s1) :- ReadSseKind(stream);
    var (buy, s2) :- ReadU64(s1);
    var (sell, s3) :- ReadU64(s2);
    var (price, s4) :- ReadI64(s3);
    var (quantity, s5) :- ReadU64(s4);
    var (flag, s6) :- ReadFlag(s5);
    var (status, rest) :- ReadU8(s6);
    Ok((SseRecord(c, sseKind, buy, sell, price, quantity, flag, status), rest))
  }

  /** One row of the file's kind; what was read is exactly what writing the row puts there. */
  function Read(kind: SpoolKind, stream: seq<byte>): (r: Result<Option<(SpoolRow, seq<byte>)>, IoError>)
    ensures r.Ok? && r.value.None? ==> stream == []
    ensures r.Ok? && r.value.Some? ==>
      var (row, rest) := r.value.value;
      row.Kind() == kind && Utf8(row.common.symbol) && stream == Put(row, rest)
  {
    hide LittleEndian, FromLittleEndian, Utf8, PutCommon, PutFields;
    var head :- ReadCommon(stream);
    if head.None? then Ok(None)
    else
      var (c, body) := head.value;
      var row :- match kind
        case SzOrder => ReadOrder(c, body)
        case SzExecution => ReadExecution(c, body)
        case Sse => ReadSse(c, body);
      Ok(Some(row))
  }

  lemma ReadsCommon(c: Common, rest: seq<byte>)
    requires Utf8(c.symbol)
    ensures ReadCommon(PutCommon(c, rest)) == Ok(Some((c, rest)))
  {
    hide LittleEndian, FromLittleEndian, Utf8;
    var s5 := PutI64(c.localTime, rest);
    var s4 := PutI64(c.quoteTime, s5);
    var s3 := c.symbol + s4;
    var s2 := LittleEndian(c.channel, 4) + s3;
    var s1 := PutU64(c.sequence, s2);
    ReadsU64(c.sourceRow, s1);
    ReadsU64(c.sequence, s2);
    ReadsU32(c.channel, s3);
    ReadsSymbol(c.symbol, s4);
    ReadsI64(c.quoteTime, s5);
    ReadsI64(c.localTime, rest);
    assert PutCommon(c, rest) != [] by { assert |PutU64(c.sourceRow, s1)| >= 8; }
  }

  /** Reading gives back any record that was written, whatever follows it. */
  lemma Reads(row: SpoolRow, rest: seq<byte>)
    requires Utf8(row.common.symbol)
    ensures Read(row.Kind(), Put(row, rest)) == Ok(Some((row, rest)))
  {
    hide LittleEndian, FromLittleEndian, Utf8, PutCommon, ReadCommon, ReadU64, ReadU32, ReadI64, ReadU8;
    match row
    case OrderRecord(c, price, quantity, side, kind) =>
      var s3 := [OrderKindByte(kind)] + rest;
      var s2 := [SideByte(side)] + s3;
      var s1 := PutU64(quantity, s2);
      ReadsCommon(c, PutI64(price, s1));
      ReadsI64(price, s1);
      ReadsU64(quantity, s2);
      ReadsU8(SideByte(side), s3);
      ReadsU8(OrderKindByte(kind), rest);
    case ExecutionRecord(c, bid, ask, price, quantity, kind) =>
      var s4 := [ExecutionKindByte(kind)] + rest;
      var s3 := PutU64(quantity, s4);
      var s2 := PutI64(price, s3);
      var s1 := PutU64(ask, s2);
      ReadsCommon(c, PutU64(bid, s1));
      ReadsU64(bid, s1);
      ReadsU64(ask, s2);
      ReadsI64(price, s3);
      ReadsU64(quantity, s4);
      ReadsU8(ExecutionKindByte(kind), rest);
    case SseRecord(c, kind, buy, sell, price, quantity, flag, status) =>
      var s6 := [status] + rest;
      var s5 := [FlagByte(flag)] + s6;
      var s4 := PutU64(quantity, s5);
      var s3 := PutI64(price, s4);
      var s2 := PutU64(sell, s3);
      var s1 := PutU64(buy, s2);
      ReadsCommon(c, [SseKindByte(kind)] + s1);
      ReadsU8(SseKindByte(kind), s1);
      ReadsU64(buy, s2);
      ReadsU64(sell, s3);
      ReadsI64(price, s4);
      ReadsU64(quantity, s5);
      ReadsU8(FlagByte(flag), s6);
      ReadsU8(status, rest);
  }

  // ----- files -----

  lemma Grouped(a: seq<byte>, b: seq<byte>, c: seq<byte>)
    ensures a + (b + c) == (a + b) + c
  {
  }

  lemma PutCommonShape(c: Common, a: seq<byte>, b: seq<byte>)
    ensures |PutCommon(c, a)| == 42 + |a|
    ensures PutCommon(c, a + b) == PutCommon(c, a) + b
    ensures FromLittleEndian(PutCommon(c, a)[8..16]) == c.sequence
  {
    hide LittleEndian, FromLittleEndian;
    Widths();
    LittleEndianRoundTrip(c.sequence, 8);
    var s5 := PutI64(c.localTime, a);
    var s4 := PutI64(c.quoteTime, s5);
    var s3 := c.symbol + s4;
    var s2 := LittleEndian(c.channel, 4) + s3;
    var s1 := PutU64(c.sequence, s2);
    Grouped(LittleEndian(Unsigned(c.localTime), 8), a, b);
    Grouped(LittleEndian(Unsigned(c.quoteTime), 8), s5, b);
    Grouped(c.symbol, s4, b);
    Grouped(LittleEndian(c.channel, 4), s3, b);
    Grouped(LittleEndian(c.sequence, 8), s2, b);
    Grouped(LittleEndian(c.sourceRow, 8), s1, b);
    assert s1[..8] == LittleEndian(c.sequence, 8);
    assert PutCommon(c, a)[8..16] == s1[..8];
  }

  lemma PutFieldsShape(row: SpoolRow, rest: seq<byte>)
    ensures |PutFields(row, rest)| == Width(row.Kind()) - 42 + |rest|
    ensures PutFields(row, rest) == PutFields(row, []) + rest
  {
    hide LittleEndian;
    match row
    case OrderRecord(_, price, quantity, side, kind) =>
    case ExecutionRecord(_, bid, ask, price, quantity, kind) =>
    case SseRecord(_, kind, buy, sell, price, quantity, flag, status) =>
  }

  /** Every row has its kind's fixed width, and its sequence stands at bytes 8..16. */
  lemma PutShape(row: SpoolRow, rest: seq<byte>)
    ensures |Put(row, rest)| == Width(row.Kind()) + |rest|
    ensures Put(row, rest) == Put(row, []) + rest
    ensures FromLittleEndian(Put(row, rest)[8..16]) == row.common.sequence
  {
    hide LittleEndian, FromLittleEndian, PutCommon, PutFields;
    PutFieldsShape(row, rest);
    PutFieldsShape(row, []);
    PutCommonShape(row.common, PutFields(row, []), rest);
    PutCommonShape(row.common, PutFields(row, rest), []);
  }

  const HEADER_BYTES := 5

  /** "QTP1" and the byte of the file's kind. */
  function Header(kind: SpoolKind): (bytes: seq<byte>) {
    [0x51, 0x54, 0x50, 0x31, KindByte(kind)]
  }

  function Encoded(rows: seq<SpoolRow>): seq<byte> {
    if rows == [] then [] else Put(rows[0], Encoded(rows[1..]))
  }

  ghost predicate Readable(kind: SpoolKind, rows: seq<SpoolRow>) {
    forall i | 0 <= i < |rows| :: rows[i].Kind() == kind && Utf8(rows[i].common.symbol)
  }

  /** Rows until the end of the file. */
  function ReadRows(kind: SpoolKind, stream: seq<byte>): Result<seq<SpoolRow>, IoError>
    decreases |stream|
  {
    var head :- Read(kind, stream);
    if head.None? then Ok([])
    else
      PutShape(head.value.0, head.value.1);
      var tail :- ReadRows(kind, head.value.1);
      Ok([head.value.0] + tail)
  }

  /** A stream reads as a list of rows exactly when it is the encoding of that list. */
  lemma {:induction false} ReadRowsExact(kind: SpoolKind, stream: seq<byte>, rows: seq<SpoolRow>)
    ensures ReadRows(kind, stream) == Ok(rows) <==> Readable(kind, rows) && stream == Encoded(rows)
    decreases |stream|
  {
    hide Put, Utf8, Read;
    var head := Read(kind, stream);
    if rows != [] && Readable(kind, rows) && stream == Encoded(rows) {
      Reads(rows[0], Encoded(rows[1..]));
      PutShape(rows[0], Encoded(rows[1..]));
      ReadRowsExact(kind, Encoded(rows[1..]), rows[1..]);
      assert rows == [rows[0]] + rows[1..];
    } else if head.Ok? && head.value.Some? {
      PutShape(head.value.value.0, head.value.value.1);
      if rows != [] {
        ReadRowsExact(kind, head.value.value.1, rows[1..]);
        assert rows == [rows[0]] + rows[1..];
      }
    } else if rows == [] {
      EndOfFile(kind);
    }
  }

  lemma EndOfFile(kind: SpoolKind)
    ensures Read(kind, []) == Ok(None)
  {
  }

  lemma Distributes(a: nat, b: nat, width: nat)
    ensures (a + b) * width == a * width + b * width
  {
  }

  lemma Shifted(whole: seq<byte>, rest: seq<byte>, w: nat, a: nat, b: nat)
    requires w <= |whole| && whole[w..] == rest && a <= b <= |rest|
    ensures whole[w + a..w + b] == rest[a..b]
  {
    forall i | 0 <= i < b - a ensures whole[w + a..w + b][i] == rest[a..b][i] {
      assert rest[a + i] == whole[w..][a + i] == whole[w + a + i];
    }
  }

  /** Row `k` of a file starts at byte 5 + k * width and its sequence is at bytes 8..16 of it. */
  lemma {:induction false} RowAt(kind: SpoolKind, rows: seq<SpoolRow>, k: nat)
    requires Readable(kind, rows) && k < |rows|
    ensures |Encoded(rows)| == |rows| * Width(kind)
    ensures 0 <= k * Width(kind) <= (k + 1) * Width(kind) <= |Encoded(rows)|
    ensures Encoded(rows)[k * Width(kind)..(k + 1) * Width(kind)] == Put(rows[k], [])
    ensures FromLittleEndian(Put(rows[k], [])[8..16]) == rows[k].common.sequence
    decreases |rows|
  {
    hide Put, Utf8, FromLittleEndian;
    var rest := Encoded(rows[1..]);
    PutShape(rows[0], rest);
    PutShape(rows[0], []);
    PutShape(rows[k], []);
    if |rows| > 1 {
      RowAt(kind, rows[1..], if k == 0 then 0 else k - 1);
      if k > 0 {
        var w := Width(kind);
        Distributes(k - 1, 1, w);
        Distributes(k, 1, w);
        Shifted(Encoded(rows), rest, w, (k - 1) * w, k * w);
      }
    }
  }

  // ----- the repaired file -----

  /** The rows of a file as the merge sees them: the sequence it sorts by and the bytes it copies. */
  function Chunk(row: SpoolRow): Sequence.Row {
    Sequence.Row(row.common.sequence, Put(row, []))
  }

  function Chunks(rows: seq<SpoolRow>): (chunks: seq<Sequence.Row>)
    ensures |chunks| == |rows|
  {
    seq(|rows|, i requires 0 <= i < |rows| => Chunk(rows[i]))
  }

  function Bodies(chunks: seq<Sequence.Row>): seq<byte> {
    if chunks == [] then [] else chunks[0].body + Bodies(chunks[1..])
  }

  lemma {:induction false} BodiesOfChunks(rows: seq<SpoolRow>)
    ensures Bodies(Chunks(rows)) == Encoded(rows)
  {
    hide Put;
    if rows != [] {
      BodiesOfChunks(rows[1..]);
      assert Chunks(rows)[1..] == Chunks(rows[1..]);
      PutShape(rows[0], Encoded(rows[1..]));
    }
  }

  lemma ChunksConcat(a: seq<SpoolRow>, b: seq<SpoolRow>)
    ensures Chunks(a + b) == Chunks(a) + Chunks(b)
    ensures |a| == 1 ==> Chunks(a) == [Chunk(a[0])]
  {
    hide Chunk;
  }

  lemma ChunksWithout(rows: seq<SpoolRow>, k: nat)
    requires k < |rows|
    ensures Chunks(rows)[k] == Chunk(rows[k])
    ensures multiset(Chunks(rows)) == multiset(Chunks(rows[..k] + rows[k + 1..])) + multiset{Chunk(rows[k])}
    ensures multiset(rows) == multiset(rows[..k] + rows[k + 1..]) + multiset{rows[k]}
  {
    hide Chunk;
    assert rows == (rows[..k] + [rows[k]]) + rows[k + 1..];
    ChunksConcat(rows[..k], [rows[k]]);
    ChunksConcat([rows[k]], []);
    ChunksConcat(rows[..k] + [rows[k]], rows[k + 1..]);
    ChunksConcat(rows[..k], rows[k + 1..]);
  }

  /** A rearrangement of the chunks of some rows is the chunks of the rows rearranged. */
  lemma HeadOff(chunks: seq<Sequence.Row>)
    requires chunks != []
    ensures chunks == [chunks[0]] + chunks[1..] && multiset(chunks[1..]) == multiset(chunks) - multiset{chunks[0]}
  {
    assert chunks == [chunks[0]] + chunks[1..];
  }

  lemma {:induction false} Rearranged(rows: seq<SpoolRow>, chunks: seq<Sequence.Row>) returns (moved: seq<SpoolRow>)
    requires multiset(chunks) == multiset(Chunks(rows))
    ensures multiset(moved) == multiset(rows) && Chunks(moved) == chunks
    decreases |rows|
  {
    hide Chunk, Chunks;
    if chunks == [] {
      assert rows == [] by {
        assert |multiset(Chunks(rows))| == |rows|;
      }
      moved := [];
    } else {
      assert chunks[0] in multiset(Chunks(rows));
      var k :| 0 <= k < |rows| && Chunks(rows)[k] == chunks[0];
      ChunksWithout(rows, k);
      HeadOff(chunks);
      var others := rows[..k] + rows[k + 1..];
      assert multiset(chunks[1..]) == multiset(Chunks(others));
      var tail := Rearranged(others, chunks[1..]);
      moved := [rows[k]] + tail;
      ChunksConcat([rows[k]], tail);
    }
  }

  /** The file the repair writes reads back as the rows that were spooled, in increasing sequence. */
  lemma RepairedReadsBack(kind: SpoolKind, rows: seq<SpoolRow>, repaired: seq<Sequence.Row>)
    requires Readable(kind, rows)
    requires multiset(repaired) == multiset(Chunks(rows)) && Sequence.Increasing(repaired)
    ensures
      var read := ReadRows(kind, Bodies(repaired));
      && read.Ok? && multiset(read.value) == multiset(rows)
      && forall i, j | 0 <= i < j < |read.value| :: read.value[i].common.sequence < read.value[j].common.sequence
  {
    hide Put, Utf8, ReadRows, Encoded, Bodies;
    var moved := Rearranged(rows, repaired);
    forall i | 0 <= i < |moved| ensures moved[i].Kind() == kind && Utf8(moved[i].common.symbol) {
      assert moved[i] in multiset(rows);
    }
    BodiesOfChunks(moved);
    ReadRowsExact(kind, Bodies(repaired), moved);
    forall i, j | 0 <= i < j < |moved| ensures moved[i].common.sequence < moved[j].common.sequence {
      assert repaired[i].sequence < repaired[j].sequence;
    }
  }

  /** One spool file while it is written. */
  class SpoolWriter {
    const kind: SpoolKind
    var bytes: seq<byte>
    ghost var rows: seq<SpoolRow>

    ghost predicate Valid()
      reads this
    {
      Readable(kind, rows) && bytes == Header(kind) + Encoded(rows)
    }

    constructor (kind: SpoolKind)
      ensures Valid() && rows == [] && this.kind == kind
    {
      this.kind := kind;
      bytes := Header(kind);
      rows := [];
    }

    /** A refused symbol is noticed after the row, sequence and channel numbers were written. */
    method Append(row: SpoolRow) returns (r: Result<(), IoError>)
      requires Valid() && row.Kind() == kind
      modifies this
      ensures r.Ok? <==> Ascii(row.common.symbol)
      ensures r.Ok? ==> Valid() && rows == old(rows) + [row]
      ensures r.Err? ==> r.error == InvalidInput && |bytes| == |old(bytes)| + 20 && old(bytes) < bytes
      ensures r.Err? ==> forall other | Readable(kind, other) :: bytes != Header(kind) + Encoded(other)
    {
      hide Put, LittleEndian, Utf8, Encoded, Readable, Ascii, Header, Read;
      var c, written := row.common, Write(row);
      if written.Err? {
        bytes := bytes + PutU64(c.sourceRow, PutU64(c.sequence, LittleEndian(c.channel, 4)));
        StrayBytes(kind, rows, bytes);
        return Err(written.error);
      }
      AsciiIsUtf8(c.symbol);
      EncodedAppend(rows, row);
      ReadableAppend(kind, rows, row);
      bytes := bytes + written.value;
      rows := rows + [row];
      return Ok(());
    }
  }

  lemma EncodedWidth(kind: SpoolKind, rows: seq<SpoolRow>)
    requires Readable(kind, rows)
    ensures |Encoded(rows)| == |rows| * Width(kind)
  {
    if rows != [] {
      RowAt(kind, rows, 0);
    }
  }

  /** Twenty bytes behind whole rows are no row. */
  lemma StrayBytes(kind: SpoolKind, rows: seq<SpoolRow>, bytes: seq<byte>)
    requires Readable(kind, rows) && |bytes| == |Header(kind)| + |Encoded(rows)| + 20
    ensures forall other | Readable(kind, other) :: bytes != Header(kind) + Encoded(other)
  {
    hide Encoded, Readable, Header;
    EncodedWidth(kind, rows);
    forall other | Readable(kind, other) ensures bytes != Header(kind) + Encoded(other) {
      EncodedWidth(kind, other);
      if bytes == Header(kind) + Encoded(other) {
        NoMultiple(|rows|, |other|, Width(kind));
      }
    }
  }

  lemma NoMultiple(n: nat, m: nat, width: nat)
    requires width > 20
    ensures n * width + 20 != m * width
  {
    if n < m {
      Distributes(n, m - n - 1, width);
      Distributes(m - 1, 1, width);
    } else {
      Distributes(m, n - m, width);
    }
  }

  lemma ReadableAppend(kind: SpoolKind, rows: seq<SpoolRow>, row: SpoolRow)
    requires Readable(kind, rows) && row.Kind() == kind && Utf8(row.common.symbol)
    ensures Readable(kind, rows + [row])
  {
    hide Utf8;
  }

  lemma {:induction false} EncodedAppend(rows: seq<SpoolRow>, row: SpoolRow)
    ensures Encoded(rows + [row]) == Encoded(rows) + Put(row, [])
  {
    hide Put;
    if rows == [] {
      assert [row][1..] == [];
    } else {
      EncodedAppend(rows[1..], row);
      assert (rows + [row])[1..] == rows[1..] + [row];
      PutShape(rows[0], Encoded(rows[1..]));
      PutShape(rows[0], Encoded(rows[1..] + [row]));
    }
  }

  /** A cursor over a spool file. */
  class SpoolReader {
    const kind: SpoolKind
    var stream: seq<byte>

    constructor (kind: SpoolKind, stream: seq<byte>)
      ensures this.kind == kind && this.stream == stream
    {
      this.kind := kind;
      this.stream := stream;
    }

    static method Open(kind: SpoolKind, file: seq<byte>) returns (r: Result<SpoolReader, IoError>)
      ensures r.Ok? <==> Header(kind) <= file
      ensures r.Ok? ==> fresh(r.value) && r.value.kind == kind && Header(kind) + r.value.stream == file
      ensures r.Err? ==> r.error == if |file| < HEADER_BYTES then UnexpectedEof else InvalidData
    {
      if |file| < HEADER_BYTES {
        return Err(UnexpectedEof);
      }
      if file[..4] != [0x51, 0x54, 0x50, 0x31] || file[4] != KindByte(kind) {
        return Err(InvalidData);
      }
      assert file == Header(kind) + file[HEADER_BYTES..];
      var reader := new SpoolReader(kind, file[HEADER_BYTES..]);
      return Ok(reader);
    }

    /** The next row of the stream: none exactly at its end, an error exactly when the bytes left do
        not start with a row; a stream of encoded rows gives them one by one. */
    method NextRow(ghost rows: seq<SpoolRow>) returns (r: Result<Option<SpoolRow>, IoError>)
      modifies this
      ensures r.Ok? && r.value.Some? ==>
        r.value.value.Kind() == kind && Utf8(r.value.value.common.symbol) && old(stream) == Put(r.value.value, stream)
      ensures r == Ok(None) <==> old(stream) == []
      ensures r.Err? <==> old(stream) != [] && !StartsWithRow(kind, old(stream))
      ensures !(r.Ok? && r.value.Some?) ==> stream == old(stream)
      ensures Readable(kind, rows) && old(stream) == Encoded(rows) ==>
        r == Ok(if rows == [] then None else Some(rows[0])) && (rows != [] ==> stream == Encoded(rows[1..]))
    {
      hide Put, Utf8, Read;
      if rows != [] && Readable(kind, rows) {
        Reads(rows[0], Encoded(rows[1..]));
      }
      if Readable(kind, rows) && stream == Encoded(rows) {
        ReadRowsExact(kind, stream, rows);
      }
      if StartsWithRow(kind, stream) {
        RowRead(kind, stream);
      }
      EndOfFile(kind);
      var head := Read(kind, stream);
      match head {
        case Ok(Some(next)) =>
          assert next.0.Kind() == kind && Utf8(next.0.common.symbol) && stream == Put(next.0, next.1);
          NonEmptyRow(next.0, next.1);
          stream := next.1;
          return Ok(Some(next.0));
        case Ok(None) =>
          return Ok(None);
        case Err(error) =>
          return Err(error);
      }
    }
  }

  /** The bytes start with a row of the kind. */
  ghost predicate StartsWithRow(kind: SpoolKind, stream: seq<byte>) {
    exists row: SpoolRow, rest :: row.Kind() == kind && Utf8(row.common.symbol) && stream == Put(row, rest)
  }

  lemma RowRead(kind: SpoolKind, stream: seq<byte>)
    requires StartsWithRow(kind, stream)
    ensures Read(kind, stream).Ok? && Read(kind, stream).value.Some?
  {
    hide Put, Utf8, Read;
    var row: SpoolRow, rest :| row.Kind() == kind && Utf8(row.common.symbol) && stream == Put(row, rest);
    Reads(row, rest);
  }

  lemma NonEmptyRow(row: SpoolRow, rest: seq<byte>)
    ensures Put(row, rest) != []
  {
    hide Put;
    PutShape(row, rest);
  }
}
