/** The 58-byte trade record of capture files. */
module TapeFormat {
  import opened Wrappers

  type Byte = b: nat | b < 256

  type U64 = n: nat | n < 0x1_0000_0000_0000_0000

  /** An instrument name, opaque: sixteen bytes. */
  type Symbol = s: seq<Byte> | |s| == 16 witness [0, 0, 0, 0, 0, 0, 0, 0, 0, 0, 0, 0, 0, 0, 0, 0]

  datatype Exchange = Binance | Bybit | Hyperliquid

  datatype TakerSide = Buy | Sell

  datatype NormalizedTrade = NormalizedTrade(
    price: U64, qty: U64, tsExchangeNs: U64, tsRecvNs: U64,
    symbol: Symbol, exchange: Exchange, takerSide: TakerSide, sequence: U64)

  datatype TapeError =
    | HeaderTooShort
    | BadMagic
    | BadVersion(version: Byte)
    | BadExchange(discriminant: Byte)
    | BadTakerSide(discriminant: Byte)
    | Truncated(got: nat)
    | ReadFailed

  const RECORD_SIZE: nat := 58

  const FORMAT_VERSION: Byte := 1

  /** Magic "GTRC" and the format version. */
  const HEADER: seq<Byte> := [0x47, 0x54, 0x52, 0x43, 1]

  function ValidateHeader(header: seq<Byte>): Option<TapeError>
    requires |header| == 5
  {
    if header[..4] != HEADER[..4] then Some(BadMagic)
    else if header[4] != FORMAT_VERSION then Some(BadVersion(header[4]))
    else None
  }

  /** The header spells the magic, then the version. */
  lemma HeaderSpells()
    ensures |HEADER| == 5 && HEADER[4] == 1
    ensures forall i :: 0 <= i < 4 ==> HEADER[i] == "GTRC"[i] as int
  {
  }

  /** The header is accepted iff it is exactly the one this build writes. */
  lemma HeaderAccepted(header: seq<Byte>)
    requires |header| == 5
    ensures ValidateHeader(header) == None <==> header == HEADER
  {
    assert header == header[..4] + [header[4]];
    assert HEADER == HEADER[..4] + [HEADER[4]];
  }

  // ---- Little-endian numbers

  function ToLe(x: nat, n: nat): (bytes: seq<Byte>)
    ensures |bytes| == n
  {
    if n == 0 then [] else [x % 256] + ToLe(x / 256, n - 1)
  }

  function FromLe(bytes: seq<Byte>): nat {
    if bytes == [] then 0 else bytes[0] + 256 * FromLe(bytes[1..])
  }

  function Pow256(n: nat): nat {
    if n == 0 then 1 else 256 * Pow256(n - 1)
  }

  lemma {:induction false} FromToLe(x: nat, n: nat)
    requires x < Pow256(n)
    ensures FromLe(ToLe(x, n)) == x
  {
    if n > 0 {
      FromToLe(x / 256, n - 1);
      assert ToLe(x, n)[1..] == ToLe(x / 256, n - 1);
    }
  }

  lemma LowByte(b: Byte, x: nat)
    ensures (b + 256 * x) % 256 == b && (b + 256 * x) / 256 == x
  {
  }

  lemma {:induction false} ToFromLe(bytes: seq<Byte>)
    ensures ToLe(FromLe(bytes), |bytes|) == bytes
    ensures FromLe(bytes) < Pow256(|bytes|)
  {
    if bytes != [] {
      var rest := bytes[1..];
      ToFromLe(rest);
      LowByte(bytes[0], FromLe(rest));
      assert bytes == [bytes[0]] + rest;
    }
  }

  lemma Pow256Eight()
    ensures Pow256(8) == 0x1_0000_0000_0000_0000
  {
    assert Pow256(8) == 256 * Pow256(7) == 0x1_0000 * Pow256(6) == 0x100_0000 * Pow256(5);
    assert Pow256(5) == 256 * Pow256(4) == 0x1_0000 * Pow256(3) == 0x100_0000 * Pow256(2);
    assert Pow256(2) == 0x1_0000;
  }

  function U64Bytes(x: U64): (bytes: seq<Byte>)
    ensures |bytes| == 8
  {
    ToLe(x, 8)
  }

  function U64From(bytes: seq<Byte>): U64
    requires |bytes| == 8
  {
    ToFromLe(bytes);
    Pow256Eight();
    FromLe(bytes)
  }

  lemma U64RoundTrip(x: U64)
    ensures U64From(U64Bytes(x)) == x
  {
    Pow256Eight();
    FromToLe(x, 8);
  }

  lemma U64BytesRoundTrip(bytes: seq<Byte>)
    requires |bytes| == 8
    ensures U64Bytes(U64From(bytes)) == bytes
  {
    ToFromLe(bytes);
  }

  /** Each byte weighs 256 times the one before it, the first byte least. */
  lemma {:induction false} LittleEndian(bytes: seq<Byte>, b: Byte)
    ensures FromLe([]) == 0 && FromLe(bytes + [b]) == FromLe(bytes) + Pow256(|bytes|) * b
  {
    if bytes == [] {
      assert [] + [b] == [b] && [b][1..] == [];
    } else {
      LittleEndian(bytes[1..], b);
      assert (bytes + [b])[1..] == bytes[1..] + [b];
      assert Pow256(|bytes|) * b == 256 * (Pow256(|bytes| - 1) * b);
    }
  }

  // ---- Records

  function ExchangeByte(e: Exchange): Byte {
    match e
    case Binance => 0
    case Bybit => 1
    case Hyperliquid => 2
  }

  function ExchangeFrom(b: Byte): Result<Exchange, TapeError> {
    if b == 0 then Ok(Binance)
    else if b == 1 then Ok(Bybit)
    else if b == 2 then Ok(Hyperliquid)
    else Err(BadExchange(b))
  }

  function TakerSideByte(s: TakerSide): Byte {
    match s
    case Buy => 0
    case Sell => 1
  }

  function TakerSideFrom(b: Byte): Result<TakerSide, TapeError> {
    if b == 0 then Ok(Buy) else if b == 1 then Ok(Sell) else Err(BadTakerSide(b))
  }

  /** The numbers that stand for exchanges and sides. */
  lemma Discriminants()
    ensures ExchangeByte(Binance) == 0 && ExchangeByte(Bybit) == 1 && ExchangeByte(Hyperliquid) == 2
    ensures TakerSideByte(Buy) == 0 && TakerSideByte(Sell) == 1
  {
  }

  function Encode(t: NormalizedTrade): (block: seq<Byte>)
    ensures |block| == RECORD_SIZE
  {
    U64Bytes(t.price) + U64Bytes(t.qty) + U64Bytes(t.tsExchangeNs) + U64Bytes(t.tsRecvNs)
    + t.symbol + [ExchangeByte(t.exchange)] + [TakerSideByte(t.takerSide)] + U64Bytes(t.sequence)
  }

  function Decode(block: seq<Byte>): Result<NormalizedTrade, TapeError>
    requires |block| == RECORD_SIZE
  {
    match ExchangeFrom(block[48])
    case Err(e) => Err(e)
    case Ok(exchange) =>
      match TakerSideFrom(block[49])
      case Err(e) => Err(e)
      case Ok(side) =>
        Ok(NormalizedTrade(
             U64From(block[0..8]), U64From(block[8..16]), U64From(block[16..24]), U64From(block[24..32]),
             block[32..48], exchange, side, U64From(block[50..58])))
  }

  /** Where each field sits in an encoded record. */
  lemma EncodedFields(t: NormalizedTrade)
    ensures var b := Encode(t);
            && b[0..8] == U64Bytes(t.price) && b[8..16] == U64Bytes(t.qty)
            && b[16..24] == U64Bytes(t.tsExchangeNs) && b[24..32] == U64Bytes(t.tsRecvNs)
            && b[32..48] == t.symbol && b[48] == ExchangeByte(t.exchange)
            && b[49] == TakerSideByte(t.takerSide) && b[50..58] == U64Bytes(t.sequence)
  {
    hide U64Bytes;
  }

  /** Every trade decodes from its own record. */
  lemma DecodeEncode(t: NormalizedTrade)
    ensures Decode(Encode(t)) == Ok(t)
  {
    EncodedFields(t);
    U64RoundTrip(t.price);
    U64RoundTrip(t.qty);
    U64RoundTrip(t.tsExchangeNs);
    U64RoundTrip(t.tsRecvNs);
    U64RoundTrip(t.sequence);
    hide Encode, U64From, U64Bytes;
  }

  /** A block is accepted iff both discriminants are in range, and then it re-encodes to the same bytes. */
  lemma EncodeDecode(block: seq<Byte>)
    requires |block| == RECORD_SIZE
    ensures Decode(block).Ok? <==> block[48] <= 2 && block[49] <= 1
    ensures Decode(block).Ok? ==> Encode(Decode(block).value) == block
  {
    if Decode(block).Ok? {
      U64BytesRoundTrip(block[0..8]);
      U64BytesRoundTrip(block[8..16]);
      U64BytesRoundTrip(block[16..24]);
      U64BytesRoundTrip(block[24..32]);
      U64BytesRoundTrip(block[50..58]);
      hide U64From, U64Bytes;
      assert block == block[0..8] + block[8..16] + block[16..24] + block[24..32]
                      + block[32..48] + [block[48]] + [block[49]] + block[50..58];
    }
  }

  /** A refused block is refused for its exchange first, then for its side. */
  lemma DecodeErrorExactly(block: seq<Byte>)
    requires |block| == RECORD_SIZE
    ensures block[48] > 2 ==> Decode(block) == Err(BadExchange(block[48]))
    ensures block[48] <= 2 && block[49] > 1 ==> Decode(block) == Err(BadTakerSide(block[49]))
  {
    hide U64From;
  }

  // ---- Whole tapes

  function EncodeAll(ts: seq<NormalizedTrade>): seq<Byte> {
    if ts == [] then [] else Encode(ts[0]) + EncodeAll(ts[1..])
  }

  type Item = Result<NormalizedTrade, TapeError>

  /** The next item of a reader with `rest` still unread. */
  function NextItem(rest: seq<Byte>): Option<Item> {
    if rest == [] then None
    else if |rest| < RECORD_SIZE then Some(Err(Truncated(|rest|)))
    else Some(Decode(rest[..RECORD_SIZE]))
  }

  function AfterItem(rest: seq<Byte>): seq<Byte> {
    if |rest| < RECORD_SIZE then [] else rest[RECORD_SIZE..]
  }

  /** Everything a reader yields until it ends. */
  function Items(rest: seq<Byte>): seq<Item>
    decreases |rest|
  {
    if rest == [] then [] else [NextItem(rest).value] + Items(AfterItem(rest))
  }

  function Blocks(blocks: seq<seq<Byte>>): seq<Byte> {
    if blocks == [] then [] else blocks[0] + Blocks(blocks[1..])
  }

  function TailItems(tail: seq<Byte>): seq<Item> {
    if tail == [] then [] else [Err(Truncated(|tail|))]
  }

  function DecodeAll(blocks: seq<seq<Byte>>): (items: seq<Item>)
    requires forall i :: 0 <= i < |blocks| ==> |blocks[i]| == RECORD_SIZE
    ensures |items| == |blocks|
  {
    seq(|blocks|, i requires 0 <= i < |blocks| => Decode(blocks[i]))
  }

  lemma DecodeAllCons(blocks: seq<seq<Byte>>)
    requires blocks != [] && forall i :: 0 <= i < |blocks| ==> |blocks[i]| == RECORD_SIZE
    ensures DecodeAll(blocks) == [Decode(blocks[0])] + DecodeAll(blocks[1..])
  {
    hide Decode;
  }

  lemma FirstItem(block: seq<Byte>, rest: seq<Byte>)
    requires |block| == RECORD_SIZE
    ensures Items(block + rest) == [Decode(block)] + Items(rest)
  {
    hide Decode;
    assert (block + rest)[..RECORD_SIZE] == block && (block + rest)[RECORD_SIZE..] == rest;
  }

  /** Each item comes from its own block alone, whatever the other blocks hold, and a cut tail adds one
      error at the end. */
  lemma {:induction false} ItemsAreBlocks(blocks: seq<seq<Byte>>, tail: seq<Byte>)
    requires forall i :: 0 <= i < |blocks| ==> |blocks[i]| == RECORD_SIZE
    requires |tail| < RECORD_SIZE
    ensures Items(Blocks(blocks) + tail)
         == DecodeAll(blocks) + TailItems(tail)
  {
    hide Decode;
    if blocks == [] {
      assert Blocks(blocks) + tail == tail;
    } else {
      var more := blocks[1..];
      assert Blocks(blocks) + tail == blocks[0] + (Blocks(more) + tail);
      hide Items, Blocks, TailItems;
      FirstItem(blocks[0], Blocks(more) + tail);
      ItemsAreBlocks(more, tail);
      DecodeAllCons(blocks);
      hide DecodeAll;
    }
  }

  lemma {:induction false} EncodeAllBlocks(ts: seq<NormalizedTrade>)
    ensures EncodeAll(ts) == Blocks(seq(|ts|, i requires 0 <= i < |ts| => Encode(ts[i])))
  {
    hide Encode;
    if ts != [] {
      var blocks := seq(|ts|, i requires 0 <= i < |ts| => Encode(ts[i]));
      EncodeAllBlocks(ts[1..]);
      assert blocks[1..] == seq(|ts[1..]|, i requires 0 <= i < |ts[1..]| => Encode(ts[1..][i]));
    }
  }

  /** A tape of k whole records and a cut one yields the k trades, one error, then nothing. */
  lemma TapeRoundTrip(ts: seq<NormalizedTrade>, tail: seq<Byte>)
    requires |tail| < RECORD_SIZE
    ensures Items(EncodeAll(ts) + tail)
         == seq(|ts|, i requires 0 <= i < |ts| => Ok(ts[i])) + TailItems(tail)
    ensures NextItem([]) == None && AfterItem(tail) == []
  {
    var blocks := seq(|ts|, i requires 0 <= i < |ts| => Encode(ts[i]));
    EncodeAllBlocks(ts);
    ItemsAreBlocks(blocks, tail);
    forall i | 0 <= i < |ts|
      ensures Decode(blocks[i]) == Ok(ts[i])
    {
      DecodeEncode(ts[i]);
    }
  }

  lemma {:induction false} EncodeAllConcat(a: seq<NormalizedTrade>, b: seq<NormalizedTrade>)
    ensures EncodeAll(a + b) == EncodeAll(a) + EncodeAll(b)
  {
    hide Encode;
    if a == [] {
      assert a + b == b;
    } else {
      assert (a + b)[1..] == a[1..] + b;
      EncodeAllConcat(a[1..], b);
    }
  }
}

/** Recording trades to a file and reading them back. */
module Capture {
  import opened Wrappers
  import opened TapeFormat

  class CaptureFile {
    var bytes: seq<Byte>

    constructor ()
      ensures bytes == []
    {
      bytes := [];
    }
  }

  /** Capacity of the recorder's write buffer. */
  const BUFFER: nat := 8192

  /** A file a recorder may append to: empty, or opened by the header of this build. */
  predicate Appendable(bytes: seq<Byte>) {
    bytes == [] || (|bytes| >= 5 && bytes[..5] == HEADER)
  }

  function Started(bytes: seq<Byte>): seq<Byte> {
    if bytes == [] then HEADER else bytes
  }

  /** Why opening a non-empty file fails, if it does. */
  function OpenError(bytes: seq<Byte>): Option<TapeError> {
    if |bytes| < 5 then Some(HeaderTooShort) else ValidateHeader(bytes[..5])
  }

  /** A file is refused for the first thing wrong with it: no room for a header, the magic, the version. */
  lemma OpenErrorExactly(bytes: seq<Byte>)
    ensures |bytes| < 5 ==> OpenError(bytes) == Some(HeaderTooShort)
    ensures |bytes| >= 5 && bytes[..4] != HEADER[..4] ==> OpenError(bytes) == Some(BadMagic)
    ensures |bytes| >= 5 && bytes[..4] == HEADER[..4] ==>
              OpenError(bytes) == if bytes[4] != 1 then Some(BadVersion(bytes[4])) else None
  {
    if |bytes| >= 5 {
      assert bytes[..5][..4] == bytes[..4];
    }
  }

  /** Copies `bytes` into `buf` from index `at` on. */
  method CopyInto(buf: array<Byte>, at: nat, bytes: seq<Byte>)
    requires at + |bytes| <= buf.Length
    modifies buf
    ensures buf[..at + |bytes|] == old(buf[..at]) + bytes
    ensures buf[at + |bytes|..] == old(buf[at + |bytes|..])
  {
    for i := 0 to |bytes|
      invariant buf[..at] == old(buf[..at])
      invariant buf[at..at + i] == bytes[..i]
      invariant buf[at + |bytes|..] == old(buf[at + |bytes|..])
    {
      buf[at + i] := bytes[i];
      assert buf[at..at + i + 1] == buf[at..at + i] + [bytes[i]];
    }
    assert buf[..at + |bytes|] == buf[..at] + buf[at..at + |bytes|];
  }

  /** Lays a trade out field by field in a record-sized buffer. */
  method FillBlock(buf: array<Byte>, t: NormalizedTrade)
    requires buf.Length == RECORD_SIZE
    modifies buf
    ensures buf[..] == Encode(t)
  {
    hide U64Bytes, ExchangeByte, TakerSideByte;
    assert buf[..0] == [];
    CopyInto(buf, 0, U64Bytes(t.price));
    CopyInto(buf, 8, U64Bytes(t.qty));
    CopyInto(buf, 16, U64Bytes(t.tsExchangeNs));
    CopyInto(buf, 24, U64Bytes(t.tsRecvNs));
    CopyInto(buf, 32, t.symbol);
    CopyInto(buf, 48, [ExchangeByte(t.exchange)]);
    CopyInto(buf, 49, [TakerSideByte(t.takerSide)]);
    CopyInto(buf, 50, U64Bytes(t.sequence));
    assert buf[..RECORD_SIZE] == buf[..];
  }

  class TradeRecorder {
    const file: CaptureFile
    var pending: seq<Byte>

    /** What the file holds once the buffer is flushed. */
    ghost function Stored(): seq<Byte>
      reads this, file
    {
      file.bytes + pending
    }

    constructor (file: CaptureFile)
      ensures this.file == file && pending == []
    {
      this.file := file;
      pending := [];
    }

    static method Create(file: CaptureFile) returns (r: Result<TradeRecorder, TapeError>)
      modifies file
      ensures r.Ok? <==> Appendable(old(file.bytes))
      ensures r.Ok? ==> fresh(r.value) && r.value.file == file && r.value.Stored() == Started(old(file.bytes))
      ensures r.Err? ==> file.bytes == old(file.bytes) && OpenError(file.bytes) == Some(r.error)
    {
      if |file.bytes| == 0 {
        file.bytes := HEADER;
      } else {
        if |file.bytes| < 5 {
          return Err(HeaderTooShort);
        }
        HeaderAccepted(file.bytes[..5]);
        var invalid := ValidateHeader(file.bytes[..5]);
        if invalid.Some? {
          return Err(invalid.value);
        }
      }
      var recorder := new TradeRecorder(file);
      return Ok(recorder);
    }

    method Record(t: NormalizedTrade)
      modifies this, file
      ensures Stored() == old(Stored()) + Encode(t)
    {
      var buf := new Byte[RECORD_SIZE](_ => 0);
      FillBlock(buf, t);
      if |pending| + RECORD_SIZE > BUFFER {
        Flush();
      }
      pending := pending + buf[..];
    }

    method Flush()
      modifies this, file
      ensures pending == [] && file.bytes == old(Stored())
    {
      file.bytes := file.bytes + pending;
      pending := [];
    }
  }

  /** One capture session: every trade is recorded, the buffer is flushed now and then and at the end. */
  method RecordSession(file: CaptureFile, trades: seq<NormalizedTrade>, flushEvery: nat)
    returns (error: Option<TapeError>)
    modifies file
    ensures error == None <==> Appendable(old(file.bytes))
    ensures error == None ==> file.bytes == Started(old(file.bytes)) + EncodeAll(trades)
    ensures error != None ==> file.bytes == old(file.bytes)
  {
    hide Encode;
    var created := TradeRecorder.Create(file);
    if created.Err? {
      return Some(created.error);
    }
    var recorder := created.value;
    ghost var start := recorder.Stored();
    var sinceFlush := 0;
    assert trades[..0] == [];
    for i := 0 to |trades|
      invariant recorder.file == file && fresh(recorder)
      invariant recorder.Stored() == start + EncodeAll(trades[..i])
    {
      recorder.Record(trades[i]);
      EncodeAllConcat(trades[..i], [trades[i]]);
      assert trades[..i + 1] == trades[..i] + [trades[i]];
      sinceFlush := sinceFlush + 1;
      if sinceFlush >= flushEvery {
        recorder.Flush();
        sinceFlush := 0;
      }
    }
    assert trades[..|trades|] == trades;
    recorder.Flush();
    return None;
  }

  /** What one call to read does: hand over at most `limit` bytes, be interrupted, or fail. */
  datatype ReadEvent = Chunk(limit: nat) | Interrupted | Failed

  datatype ReadResult = Got(n: nat) | Retry | Error

  predicate NoFailures(script: seq<ReadEvent>) {
    forall i :: 0 <= i < |script| ==> script[i] != Failed
  }

  /** How many bytes one successful read hands over. */
  function ReadSize(script: seq<ReadEvent>, available: nat, room: nat): (n: nat)
    ensures n <= available && n <= room
    ensures room > 0 ==> (n == 0 <==> available == 0)
  {
    var limit :=
      if script == [] || !script[0].Chunk? then room else if script[0].limit == 0 then 1 else script[0].limit;
    var n := if limit < room then limit else room;
    if available < n then available else n
  }

  /** What filling a record's buffer comes to: how many bytes it took, and whether a read failed. */
  datatype Fill = Fill(got: nat, script: seq<ReadEvent>, failed: bool)

  function FillRecord(script: seq<ReadEvent>, available: nat, got: nat): (f: Fill)
    requires got <= RECORD_SIZE
    ensures got <= f.got <= RECORD_SIZE && f.got <= got + available
    ensures f.failed ==> f.got < RECORD_SIZE
    ensures !f.failed ==> f.got == if got + available < RECORD_SIZE then got + available else RECORD_SIZE
    ensures NoFailures(script) ==> !f.failed && NoFailures(f.script)
    decreases |script|, RECORD_SIZE - got
  {
    if got == RECORD_SIZE then Fill(got, script, false)
    else
      var left := if script == [] then [] else script[1..];
      if script != [] && script[0].Interrupted? then FillRecord(left, available, got)
      else if script != [] && script[0].Failed? then Fill(got, left, true)
      else
        var n := ReadSize(script, available, RECORD_SIZE - got);
        if n == 0 then Fill(got, left, false) else FillRecord(left, available - n, got + n)
  }

  class TradeReader {
    var rest: seq<Byte>
    var script: seq<ReadEvent>

    constructor (rest: seq<Byte>, script: seq<ReadEvent>)
      ensures this.rest == rest && this.script == script
    {
      this.rest, this.script := rest, script;
    }

    /** Opens a file that will be read in the pattern `script` describes, and in full chunks after it. */
    static method Open(file: CaptureFile, script: seq<ReadEvent>) returns (r: Result<TradeReader, TapeError>)
      ensures r.Ok? <==> |file.bytes| >= 5 && file.bytes[..5] == HEADER
      ensures r.Ok? ==> fresh(r.value) && r.value.rest == file.bytes[5..] && r.value.script == script
      ensures r.Err? ==> OpenError(file.bytes) == Some(r.error)
    {
      if |file.bytes| < 5 {
        return Err(HeaderTooShort);
      }
      HeaderAccepted(file.bytes[..5]);
      var invalid := ValidateHeader(file.bytes[..5]);
      if invalid.Some? {
        return Err(invalid.value);
      }
      var reader := new TradeReader(file.bytes[5..], script);
      return Ok(reader);
    }

    /** One read into `buf[from..]`: a non-empty chunk, or nothing at the end of the file. */
    method Read(buf: array<Byte>, from: nat) returns (r: ReadResult)
      requires from < buf.Length
      modifies this, buf
      ensures script == if old(script) == [] then [] else old(script)[1..]
      ensures old(script) != [] && old(script)[0] == Failed <==> r == Error
      ensures r == Retry ==> old(script) != []
      ensures !r.Got? ==> rest == old(rest) && buf[..] == old(buf[..])
      ensures r.Got? ==> r.n <= |old(rest)| && from + r.n <= buf.Length && (r.n == 0 <==> old(rest) == [])
      ensures r.Got? ==> r.n == ReadSize(old(script), |old(rest)|, buf.Length - from)
      ensures r == Retry <==> old(script) != [] && old(script)[0] == Interrupted
      ensures r.Got? ==> rest == old(rest)[r.n..]
      ensures r.Got? ==> buf[..from + r.n] == old(buf[..from]) + old(rest)[..r.n]
    {
      var limit := buf.Length;
      if script != [] {
        var event := script[0];
        script := script[1..];
        match event {
          case Interrupted => return Retry;
          case Failed => return Error;
          case Chunk(l) => limit := if l == 0 then 1 else l;
        }
      }
      var n := if limit < buf.Length - from then limit else buf.Length - from;
      if |rest| < n {
        n := |rest|;
      }
      CopyInto(buf, from, rest[..n]);
      rest := rest[n..];
      return Got(n);
    }

    /** Fills a record's buffer from as many reads as it takes; a failing one ends the attempt. */
    method FillBuffer(buf: array<Byte>) returns (got: nat, failed: bool)
      requires buf.Length == RECORD_SIZE
      modifies this, buf
      ensures Fill(got, script, failed) == FillRecord(old(script), |old(rest)|, 0)
      ensures got <= |old(rest)| && got <= RECORD_SIZE
      ensures buf[..got] == old(rest)[..got] && rest == old(rest)[got..]
    {
      hide ReadSize, NoFailures;
      got := 0;
      ghost var start := rest;
      ghost var f := FillRecord(script, |rest|, 0);
      while got < RECORD_SIZE
        invariant got <= RECORD_SIZE && got <= |start|
        invariant buf[..got] == start[..got] && rest == start[got..]
        invariant FillRecord(script, |rest|, got) == f
        decreases |script|, RECORD_SIZE - got
      {
        var r := Read(buf, got);
        match r {
          case Got(n) =>
            if n == 0 {
              break;
            }
            assert start[..got + n] == start[..got] + start[got..][..n];
            got := got + n;
          case Retry =>
          case Error => return got, true;
        }
      }
      failed := false;
    }

    /** Reads one record. When a read fails, the bytes taken before it are gone. */
    method Next() returns (item: Option<Item>)
      modifies this
      ensures var f := FillRecord(old(script), |old(rest)|, 0);
              && script == f.script && rest == old(rest)[f.got..]
              && item == if f.failed then Some(Err(ReadFailed)) else NextItem(old(rest))
      ensures NoFailures(old(script)) ==> NoFailures(script)
      ensures NoFailures(old(script)) ==> item == NextItem(old(rest)) && rest == AfterItem(old(rest))
      ensures !NoFailures(old(script)) ==>
                item == Some(Err(ReadFailed)) || (item == NextItem(old(rest)) && rest == AfterItem(old(rest)))
      ensures |rest| <= |old(rest)| && (item.Some? && item != Some(Err(ReadFailed)) ==> |rest| < |old(rest)|)
    {
      hide Decode, FillRecord, NoFailures;
      ghost var start := rest;
      var buf := new Byte[RECORD_SIZE](_ => 0);
      var got, failed := FillBuffer(buf);
      if failed {
        return Some(Err(ReadFailed));
      }
      assert got < RECORD_SIZE ==> |start| == got && rest == [];
      if got == 0 {
        return None;
      }
      if got != RECORD_SIZE {
        return Some(Err(Truncated(got)));
      }
      assert buf[..] == start[..RECORD_SIZE];
      return Some(Decode(buf[..]));
    }

    /** Reads to the end, in any pattern of short and interrupted reads. */
    method ReadAll() returns (items: seq<Item>)
      requires NoFailures(script)
      modifies this
      ensures items == Items(old(rest)) && rest == []
    {
      hide Decode, FillRecord, NoFailures;
      items := [];
      while true
        invariant NoFailures(script)
        invariant items + Items(rest) == Items(old(rest))
        decreases |rest|
      {
        ghost var before := rest;
        var item := Next();
        if item.None? {
          break;
        }
        assert Items(before) == [item.value] + Items(rest);
        items := items + [item.value];
      }
      assert items + [] == items;
    }
  }

  // ---- After a failing read

  lemma WholeIsNotTruncated(block: seq<Byte>)
    requires |block| == RECORD_SIZE
    ensures Decode(block).Err? ==> !Decode(block).error.Truncated?
  {
  }

  lemma ItemsAfterFirst(rest: seq<Byte>)
    requires |rest| > RECORD_SIZE
    ensures Items(rest) == [Decode(rest[..RECORD_SIZE])] + Items(rest[RECORD_SIZE..])
  {
    hide Decode;
  }

  predicate EndsWith(items: seq<Item>, item: Item) {
    items != [] && items[|items| - 1] == item
  }

  /** What a tape that is cut after `whole` records ends with, if there is anything past them. */
  lemma {:induction false} CutTapeEnds(rest: seq<Byte>, whole: nat)
    requires whole * RECORD_SIZE < |rest| < (whole + 1) * RECORD_SIZE
    ensures EndsWith(Items(rest), Err(Truncated(|rest| - whole * RECORD_SIZE)))
    decreases whole
  {
    if whole > 0 {
      var tail := rest[RECORD_SIZE..];
      ItemsAfterFirst(rest);
      hide Items, Decode;
      CutTapeEnds(tail, whole - 1);
    } else {
      hide Decode;
      assert AfterItem(rest) == [] && Items([]) == [];
    }
  }

  /** A tape of whole records ends with no cut one. */
  lemma {:induction false} WholeTapeEnds(rest: seq<Byte>, whole: nat)
    requires whole > 0 && |rest| == whole * RECORD_SIZE
    ensures forall n :: !EndsWith(Items(rest), Err(Truncated(n)))
    decreases whole
  {
    if whole > 1 {
      var tail := rest[RECORD_SIZE..];
      ItemsAfterFirst(rest);
      assert Items(tail) != [];
      hide Items, Decode;
      WholeTapeEnds(tail, whole - 1);
      forall n
        ensures !EndsWith(Items(rest), Err(Truncated(n)))
      {
        assert !EndsWith(Items(tail), Err(Truncated(n)));
      }
    } else {
      WholeIsNotTruncated(rest[..RECORD_SIZE]);
      hide Decode;
      assert rest[RECORD_SIZE..] == [] && Items([]) == [];
    }
  }

  /** Framing survives a failing read iff that read was the first of its record: what is left of a tape of
      whole records reads on as before only if no byte of the failed record had been taken. Otherwise the
      reader ends on a cut record the tape does not have. */
  lemma FramingSurvivesExactly(rest: seq<Byte>, whole: nat, got: nat)
    requires whole > 0 && |rest| == whole * RECORD_SIZE && got < RECORD_SIZE
    ensures Items(rest[got..]) == Items(rest) <==> got == 0
    ensures got > 0 ==> EndsWith(Items(rest[got..]), Err(Truncated(RECORD_SIZE - got)))
  {
    hide Items, EndsWith;
    if got == 0 {
      assert rest[0..] == rest;
    } else {
      WholeTapeEnds(rest, whole);
      CutTapeEnds(rest[got..], whole - 1);
    }
  }

  /** The file any number of sessions leave behind, starting from an empty one. */
  function AfterSessions(sessions: seq<seq<NormalizedTrade>>): seq<Byte> {
    if sessions == [] then []
    else Started(AfterSessions(sessions[..|sessions| - 1])) + EncodeAll(sessions[|sessions| - 1])
  }

  function AllTrades(sessions: seq<seq<NormalizedTrade>>): seq<NormalizedTrade> {
    if sessions == [] then [] else AllTrades(sessions[..|sessions| - 1]) + sessions[|sessions| - 1]
  }

  /** However a capture was split into sessions, the file opens and reads back as all its trades in order. */
  lemma {:induction false} SessionsReadBack(sessions: seq<seq<NormalizedTrade>>)
    requires sessions != []
    ensures var bytes, all := AfterSessions(sessions), AllTrades(sessions);
            && Appendable(bytes) && |bytes| >= 5 && bytes[..5] == HEADER
            && bytes[5..] == EncodeAll(all)
            && Items(bytes[5..]) == seq(|all|, i requires 0 <= i < |all| => Ok(all[i]))
  {
    var front, last := sessions[..|sessions| - 1], sessions[|sessions| - 1];
    var before := Started(AfterSessions(front));
    var all := AllTrades(sessions);
    EncodeAllConcat(AllTrades(front), last);
    if front != [] {
      SessionsReadBack(front);
    }
    hide Encode, Decode, Items, EncodeAll;
    assert before[..5] == HEADER && before[5..] == EncodeAll(AllTrades(front)) by {
      if front == [] {
        NoTrades();
      }
    }
    AppendAfterHeader(before, EncodeAll(last));
    hide AfterSessions, AllTrades, Started;
    TapeRoundTrip(all, []);
    assert EncodeAll(all) + [] == EncodeAll(all);
  }

  lemma SessionsAppendable(sessions: seq<seq<NormalizedTrade>>)
    ensures Appendable(AfterSessions(sessions))
  {
    if sessions != [] {
      SessionsReadBack(sessions);
    }
  }

  /** Records any number of sessions to a new file, each with its own flushing. */
  method RecordSessions(sessions: seq<seq<NormalizedTrade>>, flushEvery: seq<nat>) returns (file: CaptureFile)
    requires |flushEvery| == |sessions|
    ensures fresh(file) && file.bytes == AfterSessions(sessions)
  {
    file := new CaptureFile();
    assert sessions[..0] == [];
    hide EncodeAll, Started, Appendable;
    for k := 0 to |sessions|
      invariant fresh(file) && file.bytes == AfterSessions(sessions[..k])
    {
      SessionsAppendable(sessions[..k]);
      var error := RecordSession(file, sessions[k], flushEvery[k]);
      assert sessions[..k + 1][..k] == sessions[..k];
    }
    assert sessions[..|sessions|] == sessions;
  }

  /** Records sessions, then reads the file back in any pattern of short and interrupted reads: what comes out
      is every trade, in order. */
  method RecordAndReadBack(sessions: seq<seq<NormalizedTrade>>, flushEvery: seq<nat>, script: seq<ReadEvent>)
    returns (items: seq<Item>)
    requires sessions != [] && |flushEvery| == |sessions| && NoFailures(script)
    ensures var all := AllTrades(sessions);
            items == seq(|all|, i requires 0 <= i < |all| => Ok(all[i]))
  {
    hide AfterSessions, Items, AllTrades, NoFailures, EncodeAll, Appendable;
    SessionsReadBack(sessions);
    var file := RecordSessions(sessions, flushEvery);
    var reader := TradeReader.Open(file, script);
    items := reader.value.ReadAll();
  }

  lemma NoTrades()
    ensures EncodeAll([]) == [] && HEADER[..5] == HEADER && HEADER[5..] == []
  {
  }

  lemma AppendAfterHeader(before: seq<Byte>, more: seq<Byte>)
    requires |before| >= 5
    ensures (before + more)[..5] == before[..5] && (before + more)[5..] == before[5..] + more
  {
  }
}
