/** Swap-event logs of a block interval: deduplicated, ordered, decoded or rejected, and numbered within each block. */
module SwapEvents {
  import opened Market
  import opened StableSorts

  type Hash(==, !new, 0)

  type Contract(==, !new, 0)

  type Minute(==, !new, 0)

  type Byte = b: int | 0 <= b < 256

  datatype Topic = V3Swap | V2Swap | OtherTopic

  datatype Family = UniswapV3 | PancakeV3 | UniswapV2 | OtherFamily

  datatype Log = Log(blockNumber: nat, blockHash: Hash, txHash: Hash, txIndex: nat, logIndex: nat,
                     address: Contract, removed: bool, topics: seq<Topic>, data: seq<Byte>)

  datatype Identity = Identity(blockHash: Hash, txHash: Hash, logIndex: nat)

  function IdentityOf(log: Log): Identity { Identity(log.blockHash, log.txHash, log.logIndex) }

  datatype Row = Row(blockHash: Hash, minute: Minute)

  /** What was fixed before the logs are read: catalogue, verified tokens, canonical headers and the interval. */
  datatype Setting = Setting(pools: map<Contract, Family>, tokens: map<Contract, (Contract, Contract)>,
                             rows: map<nat, Row>, start: nat, end: nat, weth: Contract, usdc: Contract)
  {
    predicate Valid() {
      weth != usdc && forall b :: start <= b <= end ==> b in rows
    }
  }

  datatype Direction = SellWeth | BuyWeth

  /** Base volume in wei of WETH, quote volume in raw units of USDC. */
  datatype Trade = Trade(direction: Direction, base: nat, quote: nat)

  datatype Swap = Swap(blockNumber: nat, blockHash: Hash, txHash: Hash, txIndex: nat, logIndex: nat,
                       pool: Contract, minute: Minute, trade: Trade, ordinal: nat)

  datatype Reason = Removed | UnknownPool | OutOfInterval | HashMismatch | NoTokens | NoTopics | WrongTopic
    | ShortData | WrongTokens | Ambiguous | UnsupportedFamily

  /** A log is decoded or rejected; a V3 log without a price raises, which ends the run. */
  datatype Verdict = Decoded(swap: Swap) | Rejected(reason: Reason) | Raised

  // ---------------------------------------------------------------- decoding

  function Unsigned(bytes: seq<Byte>): nat {
    if bytes == [] then 0 else 256 * Unsigned(bytes[..|bytes| - 1]) + bytes[|bytes| - 1]
  }

  /** Two's complement: the first bit is the sign. */
  function Signed(bytes: seq<Byte>): int {
    if bytes == [] then 0
    else if bytes[0] < 128 then Unsigned(bytes)
    else Unsigned(bytes) - Modulus(|bytes|)
  }

  function Modulus(bytes: nat): nat {
    if bytes == 0 then 1 else 256 * Modulus(bytes - 1)
  }

  /** What the pool gained of each token, read as a trade. */
  function V3Trade(weth: int, usdc: int): Option<Trade> {
    if weth > 0 && usdc < 0 then Some(Trade(SellWeth, weth, -usdc))
    else if weth < 0 && usdc > 0 then Some(Trade(BuyWeth, -weth, usdc))
    else None
  }

  function V2Trade(wethIn: nat, usdcIn: nat, wethOut: nat, usdcOut: nat): Option<Trade> {
    if wethIn > 0 && usdcOut > 0 && wethOut == 0 && usdcIn == 0 then Some(Trade(SellWeth, wethIn, usdcOut))
    else if usdcIn > 0 && wethOut > 0 && usdcOut == 0 && wethIn == 0 then Some(Trade(BuyWeth, wethOut, usdcIn))
    else None
  }

  function Word(log: Log, i: nat): seq<Byte>
    requires 32 * (i + 1) <= |log.data|
  {
    log.data[32 * i..32 * (i + 1)]
  }

  function SwapOf(setting: Setting, log: Log, trade: Trade): Swap
    requires log.blockNumber in setting.rows
  {
    Swap(log.blockNumber, log.blockHash, log.txHash, log.txIndex, log.logIndex,
         log.address, setting.rows[log.blockNumber].minute, trade, 0)
  }

  function DecodeV3(setting: Setting, log: Log, token0: Contract, token1: Contract): Verdict
    requires log.blockNumber in setting.rows
  {
    if |log.data| < 160 then Rejected(ShortData)
    else if {token0, token1} != {setting.weth, setting.usdc} then Rejected(WrongTokens)
    else
      var amount0, amount1 := Signed(Word(log, 0)), Signed(Word(log, 1));
      match (if token0 == setting.usdc then V3Trade(amount1, amount0) else V3Trade(amount0, amount1))
      case None => Rejected(Ambiguous)
      case Some(trade) => if Unsigned(Word(log, 2)) == 0 then Raised else Decoded(SwapOf(setting, log, trade))
  }

  function DecodeV2(setting: Setting, log: Log, token0: Contract, token1: Contract): Verdict
    requires log.blockNumber in setting.rows
  {
    if |log.data| < 128 then Rejected(ShortData)
    else if {token0, token1} != {setting.weth, setting.usdc} then Rejected(WrongTokens)
    else
      var in0, in1 := Unsigned(Word(log, 0)), Unsigned(Word(log, 1));
      var out0, out1 := Unsigned(Word(log, 2)), Unsigned(Word(log, 3));
      match (if token0 == setting.usdc then V2Trade(in1, in0, out1, out0) else V2Trade(in0, in1, out0, out1))
      case None => Rejected(Ambiguous)
      case Some(trade) => Decoded(SwapOf(setting, log, trade))
  }

  function Classify(setting: Setting, log: Log): Verdict
    requires setting.Valid()
  {
    if log.removed then Rejected(Removed)
    else if log.address !in setting.pools then Rejected(UnknownPool)
    else if !(setting.start <= log.blockNumber <= setting.end) then Rejected(OutOfInterval)
    else if log.blockHash != setting.rows[log.blockNumber].blockHash then Rejected(HashMismatch)
    else if log.address !in setting.tokens then Rejected(NoTokens)
    else if log.topics == [] then Rejected(NoTopics)
    else
      var (token0, token1) := setting.tokens[log.address];
      match setting.pools[log.address]
      case OtherFamily => Rejected(UnsupportedFamily)
      case UniswapV2 => if log.topics[0] != V2Swap then Rejected(WrongTopic) else DecodeV2(setting, log, token0, token1)
      case _ => if log.topics[0] != V3Swap then Rejected(WrongTopic) else DecodeV3(setting, log, token0, token1)
  }

  /** A V2 log that is decoded means the same trade as its net amounts read by the V3 rule. */
  lemma V2AgreesWithV3(wethIn: nat, usdcIn: nat, wethOut: nat, usdcOut: nat)
    ensures V2Trade(wethIn, usdcIn, wethOut, usdcOut).Some? ==>
      V2Trade(wethIn, usdcIn, wethOut, usdcOut) == V3Trade(wethIn - wethOut, usdcIn - usdcOut)
    ensures V2Trade(wethIn, usdcIn, wethOut, usdcOut).None? <==>
      V3Trade(wethIn - wethOut, usdcIn - usdcOut).None? || (wethIn > 0 && wethOut > 0) || (usdcIn > 0 && usdcOut > 0)
  {
  }

  /** What every decoded swap satisfies. */
  predicate Sound(setting: Setting, s: Swap) {
    && s.pool in setting.pools
    && setting.start <= s.blockNumber <= setting.end
    && s.blockNumber in setting.rows
    && s.blockHash == setting.rows[s.blockNumber].blockHash
    && s.minute == setting.rows[s.blockNumber].minute
    && s.trade.base > 0 && s.trade.quote > 0
  }

  predicate SameEvent(log: Log, s: Swap) {
    && s.blockNumber == log.blockNumber && s.blockHash == log.blockHash && s.txHash == log.txHash
    && s.txIndex == log.txIndex && s.logIndex == log.logIndex && s.pool == log.address
  }

  lemma DecodedIsSound(setting: Setting, log: Log)
    requires setting.Valid() && Classify(setting, log).Decoded?
    ensures var s := Classify(setting, log).swap;
      Sound(setting, s) && SameEvent(log, s) && !log.removed
  {
  }

  // ---------------------------------------------------------------- what the words and trades are

  lemma {:induction false} ModulusIsPositive(n: nat)
    ensures Modulus(n) > 0
  {
    if n > 0 {
      ModulusIsPositive(n - 1);
    }
  }

  lemma WordModulus()
    ensures Modulus(32) == 0x1_0000000000000000_0000000000000000_0000000000000000_0000000000000000
  {
    assert Modulus(8) == 0x1_0000000000000000;
    assert Modulus(16) == 0x1_0000000000000000_0000000000000000;
    assert Modulus(24) == 0x1_0000000000000000_0000000000000000_0000000000000000;
  }

  lemma DropDigit(q: nat, r: nat, m: nat)
    requires r < 256 && m > 0
    ensures (256 * q + r) / (256 * m) == q / m
  {
    var d := q / m;
    assert q == m * d + q % m;
    assert 256 * q + r == (256 * m) * d + (256 * (q % m) + r);
    Quotient(256 * m, d, 256 * (q % m) + r);
  }

  lemma Quotient(m: nat, d: nat, r: nat)
    requires r < m
    ensures (m * d + r) / m == d
  {
    var q, rest := (m * d + r) / m, (m * d + r) % m;
    assert m * d + r == m * q + rest && 0 <= rest < m;
    MultiplesAreFar(m, d - q);
    assert m * (d - q) == m * d - m * q;
  }

  lemma MultiplesAreFar(m: int, k: int)
    requires m > 0
    ensures k != 0 ==> m * k >= m || m * k <= -m
  {
    if k > 0 {
      assert m * (k - 1) >= 0;
    } else if k < 0 {
      assert m * (-k - 1) >= 0;
    }
  }

  /** Big-endian: byte i is the digit of value 256 to the number of bytes behind it, and there is nothing above. */
  lemma {:induction false} UnsignedIsBigEndian(bytes: seq<Byte>, i: nat)
    requires i < |bytes|
    ensures Modulus(|bytes| - 1 - i) > 0
    ensures Unsigned(bytes) / Modulus(|bytes| - 1 - i) % 256 == bytes[i]
    ensures Unsigned(bytes) < Modulus(|bytes|)
    decreases |bytes|
  {
    var n := |bytes| - 1;
    UnsignedIsBelow(bytes);
    ModulusIsPositive(n - i);
    if i < n {
      var front := bytes[..n];
      UnsignedIsBigEndian(front, i);
      DigitStays(Unsigned(front), bytes[n], n - 1 - i);
      assert Unsigned(bytes) == 256 * Unsigned(front) + bytes[n];
      hide Modulus, Unsigned;
    } else {
      assert Modulus(0) == 1;
      LastDigit(bytes);
    }
  }

  lemma LastDigit(bytes: seq<Byte>)
    requires bytes != []
    ensures Unsigned(bytes) % 256 == bytes[|bytes| - 1]
  {
  }

  /** A digit below shifts the number and the place alike. */
  lemma DigitStays(q: nat, r: Byte, places: nat)
    ensures Modulus(places) > 0 && Modulus(places + 1) > 0
    ensures (256 * q + r) / Modulus(places + 1) == q / Modulus(places)
  {
    ModulusIsPositive(places);
    DropDigit(q, r, Modulus(places));
  }

  lemma {:induction false} UnsignedIsBelow(bytes: seq<Byte>)
    ensures Unsigned(bytes) < Modulus(|bytes|)
  {
    if bytes != [] {
      UnsignedIsBelow(bytes[..|bytes| - 1]);
    }
  }

  lemma SignedRange(bytes: seq<Byte>)
    requires |bytes| == 32
    ensures -HalfWord() <= Signed(bytes) < HalfWord()
    ensures Signed(bytes) == Unsigned(bytes) || Signed(bytes) == Unsigned(bytes) - 2 * HalfWord()
  {
    WordModulus();
    var q := Unsigned(bytes) / Modulus(31);
    UnsignedIsBigEndian(bytes, 0);
    assert Modulus(32) == 256 * Modulus(31);
  }

  /** 2 to the 255. */
  function HalfWord(): int {
    0x80000000_00000000_00000000_00000000_00000000_00000000_00000000_00000000
  }

  /** The word at the position of a token in the pool's pair. */
  function WordOf(setting: Setting, log: Log, token: Contract, first: nat): seq<Byte>
    requires log.address in setting.tokens && |log.data| >= 32 * (first + 2)
  {
    var at := if setting.tokens[log.address].0 == token then first else first + 1;
    log.data[32 * at..32 * at + 32]
  }

  /** A pool of the pair, in whichever order. */
  predicate OnPair(setting: Setting, log: Log) {
    log.address in setting.tokens
    && (setting.tokens[log.address] == (setting.weth, setting.usdc)
        || setting.tokens[log.address] == (setting.usdc, setting.weth))
  }

  /** A V3 log: the pool's gain of one token is positive and of the other negative. */
  predicate V3Moves(setting: Setting, log: Log) {
    && log.topics != [] && log.topics[0] == V3Swap && |log.data| >= 160 && OnPair(setting, log)
    && var weth, usdc := Signed(WordOf(setting, log, setting.weth, 0)), Signed(WordOf(setting, log, setting.usdc, 0));
    && ((weth > 0 && usdc < 0) || (weth < 0 && usdc > 0))
  }

  /** A V2 log: one token only comes in, and the other only goes out. */
  predicate V2Moves(setting: Setting, log: Log) {
    && log.topics != [] && log.topics[0] == V2Swap && |log.data| >= 128 && OnPair(setting, log)
    && var wethIn, usdcIn :=
         Unsigned(WordOf(setting, log, setting.weth, 0)), Unsigned(WordOf(setting, log, setting.usdc, 0));
    && var wethOut, usdcOut :=
         Unsigned(WordOf(setting, log, setting.weth, 2)), Unsigned(WordOf(setting, log, setting.usdc, 2));
    && (wethIn > 0 <==> usdcOut > 0) && (wethOut > 0 <==> usdcIn > 0) && (wethIn > 0 <==> wethOut == 0)
  }

  /** The trade says what the words of the log say: WETH into the pool is sold, and the volumes are what moved. */
  ghost predicate TradeOf(setting: Setting, log: Log, trade: Trade) {
    log.address in setting.pools &&
    match setting.pools[log.address]
    case OtherFamily => false
    case UniswapV2 =>
      && V2Moves(setting, log)
      && var wethIn, usdcIn :=
           Unsigned(WordOf(setting, log, setting.weth, 0)), Unsigned(WordOf(setting, log, setting.usdc, 0));
      && var wethOut, usdcOut :=
           Unsigned(WordOf(setting, log, setting.weth, 2)), Unsigned(WordOf(setting, log, setting.usdc, 2));
      && (trade.direction == SellWeth <==> wethIn > 0)
      && trade.base == wethIn + wethOut && trade.quote == usdcIn + usdcOut
    case _ =>
      && V3Moves(setting, log) && Unsigned(log.data[64..96]) > 0
      && var weth, usdc :=
           Signed(WordOf(setting, log, setting.weth, 0)), Signed(WordOf(setting, log, setting.usdc, 0));
      && (trade.direction == SellWeth <==> weth > 0)
      && trade.base == (if weth < 0 then -weth else weth) && trade.quote == (if usdc < 0 then -usdc else usdc)
  }

  lemma DecodedMeans(setting: Setting, log: Log)
    requires setting.Valid() && Classify(setting, log).Decoded?
    ensures TradeOf(setting, log, Classify(setting, log).swap.trade)
  {
    hide Signed, Unsigned;
  }

  // ---------------------------------------------------------------- which logs are decoded

  /** The checks in their order, each with the reason it gives. */
  const REASONS: seq<Reason> :=
    [Removed, UnknownPool, OutOfInterval, HashMismatch, NoTokens, NoTopics, UnsupportedFamily, WrongTopic, ShortData,
     WrongTokens, Ambiguous]

  predicate IsV2(setting: Setting, log: Log) {
    log.address in setting.pools && setting.pools[log.address] == UniswapV2
  }

  /** The log passes the check of this reason. */
  ghost predicate Passes(setting: Setting, log: Log, reason: Reason) {
    match reason
    case Removed => !log.removed
    case UnknownPool => log.address in setting.pools
    case OutOfInterval => setting.start <= log.blockNumber <= setting.end
    case HashMismatch =>
      log.blockNumber in setting.rows && log.blockHash == setting.rows[log.blockNumber].blockHash
    case NoTokens => log.address in setting.tokens
    case NoTopics => log.topics != []
    case UnsupportedFamily => log.address in setting.pools && setting.pools[log.address] != OtherFamily
    case WrongTopic => log.topics != [] && log.topics[0] == if IsV2(setting, log) then V2Swap else V3Swap
    case ShortData => |log.data| >= if IsV2(setting, log) then 128 else 160
    case WrongTokens => OnPair(setting, log)
    case Ambiguous => if IsV2(setting, log) then V2Moves(setting, log) else V3Moves(setting, log)
  }

  ghost predicate PassesAll(setting: Setting, log: Log, n: nat)
    requires n <= |REASONS|
  {
    forall k :: 0 <= k < n ==> Passes(setting, log, REASONS[k])
  }

  /** A log is refused for the first check that it fails. If it passes all, it is decoded, unless it is a V3 log without
      a price, which raises. */
  lemma VerdictIff(setting: Setting, log: Log)
    requires setting.Valid()
    ensures var verdict, n := Classify(setting, log), |REASONS|;
      var priced := IsV2(setting, log) || (|log.data| >= 96 && Unsigned(log.data[64..96]) > 0);
      && (forall k :: 0 <= k < n ==>
            (verdict == Rejected(REASONS[k]) <==>
               PassesAll(setting, log, k) && !Passes(setting, log, REASONS[k])))
      && (verdict.Decoded? <==> PassesAll(setting, log, n) && priced)
      && (verdict.Raised? <==> PassesAll(setting, log, n) && !priced)
  {
    hide Classify, Passes;
    if k :| 0 <= k < |REASONS| && PassesAll(setting, log, k) && !Passes(setting, log, REASONS[k]) {
      FirstFailureDecides(setting, log, k);
      ReasonsDiffer();
    } else {
      NoFailure(setting, log, |REASONS|);
      AllPassed(setting, log);
    }
  }

  /** A reason that is given is a check that fails. */
  lemma RefusedFails(setting: Setting, log: Log, reason: Reason)
    requires setting.Valid() && Classify(setting, log) == Rejected(reason)
    ensures !Passes(setting, log, reason)
  {
    hide Classify, Passes;
    VerdictIff(setting, log);
    var k := EveryReasonIsListed(reason);
  }

  lemma EveryReasonIsListed(reason: Reason) returns (k: nat)
    ensures k < |REASONS| && REASONS[k] == reason
  {
    k := match reason
      case Removed => 0 case UnknownPool => 1 case OutOfInterval => 2 case HashMismatch => 3 case NoTokens => 4
      case NoTopics => 5 case UnsupportedFamily => 6 case WrongTopic => 7 case ShortData => 8 case WrongTokens => 9
      case Ambiguous => 10;
  }

  lemma ReasonsDiffer()
    ensures forall j, k :: 0 <= j < k < |REASONS| ==> REASONS[j] != REASONS[k]
  {
  }

  lemma {:induction false} NoFailure(setting: Setting, log: Log, n: nat)
    requires n <= |REASONS|
    requires forall k :: 0 <= k < n && PassesAll(setting, log, k) ==> Passes(setting, log, REASONS[k])
    ensures PassesAll(setting, log, n)
  {
    hide Passes;
    if n > 0 {
      NoFailure(setting, log, n - 1);
    }
  }

  lemma FirstFailureDecides(setting: Setting, log: Log, k: nat)
    requires setting.Valid() && k < |REASONS| && PassesAll(setting, log, k) && !Passes(setting, log, REASONS[k])
    ensures Classify(setting, log) == Rejected(REASONS[k])
  {
    hide Signed, Unsigned;
    PassedChecks(setting, log, k);
  }

  lemma AllPassed(setting: Setting, log: Log)
    requires setting.Valid() && PassesAll(setting, log, |REASONS|)
    ensures var priced := IsV2(setting, log) || (|log.data| >= 96 && Unsigned(log.data[64..96]) > 0);
      if priced then Classify(setting, log).Decoded? else Classify(setting, log).Raised?
  {
    hide Signed, Unsigned;
    PassedChecks(setting, log, |REASONS|);
  }

  lemma PassedChecks(setting: Setting, log: Log, n: nat)
    requires n <= |REASONS| && PassesAll(setting, log, n)
    ensures n > 0 ==> Passes(setting, log, Removed)
    ensures n > 1 ==> Passes(setting, log, UnknownPool)
    ensures n > 2 ==> Passes(setting, log, OutOfInterval)
    ensures n > 3 ==> Passes(setting, log, HashMismatch)
    ensures n > 4 ==> Passes(setting, log, NoTokens)
    ensures n > 5 ==> Passes(setting, log, NoTopics)
    ensures n > 6 ==> Passes(setting, log, UnsupportedFamily)
    ensures n > 7 ==> Passes(setting, log, WrongTopic)
    ensures n > 8 ==> Passes(setting, log, ShortData)
    ensures n > 9 ==> Passes(setting, log, WrongTokens)
    ensures n > 10 ==> Passes(setting, log, Ambiguous)
  {
    hide Passes;
    assert forall k :: 0 <= k < n ==> Passes(setting, log, REASONS[k]);
    assert REASONS[0] == Removed && REASONS[1] == UnknownPool && REASONS[2] == OutOfInterval;
    assert REASONS[3] == HashMismatch && REASONS[4] == NoTokens && REASONS[5] == NoTopics;
    assert REASONS[6] == UnsupportedFamily && REASONS[7] == WrongTopic && REASONS[8] == ShortData;
    assert REASONS[9] == WrongTokens && REASONS[10] == Ambiguous;
  }

  // ---------------------------------------------------------------- deduplication

  ghost predicate Has(logs: seq<Log>, id: Identity) {
    exists l :: l in logs && IdentityOf(l) == id
  }

  lemma HasOneMore(logs: seq<Log>, log: Log, id: Identity)
    ensures Has(logs + [log], id) <==> Has(logs, id) || IdentityOf(log) == id
  {
    if Has(logs, id) {
      var l :| l in logs && IdentityOf(l) == id;
      assert l in logs + [log];
    }
    assert log in logs + [log];
  }

  /** The first log of every identity, in the order given. */
  ghost function Deduped(raw: seq<Log>): (kept: seq<Log>)
    ensures forall l :: l in kept ==> l in raw
  {
    if raw == [] then []
    else
      var earlier, log := raw[..|raw| - 1], raw[|raw| - 1];
      Deduped(earlier) + if Has(earlier, IdentityOf(log)) then [] else [log]
  }

  ghost predicate DistinctIdentities(logs: seq<Log>) {
    forall i, j :: 0 <= i < j < |logs| ==> IdentityOf(logs[i]) != IdentityOf(logs[j])
  }

  lemma {:induction false} DedupedKeepsEachIdentityOnce(raw: seq<Log>)
    ensures DistinctIdentities(Deduped(raw))
    ensures forall id :: Has(raw, id) <==> Has(Deduped(raw), id)
  {
    if raw != [] {
      var earlier, log := raw[..|raw| - 1], raw[|raw| - 1];
      assert raw == earlier + [log];
      DedupedKeepsEachIdentityOnce(earlier);
      forall id ensures Has(raw, id) <==> Has(Deduped(raw), id) {
        HasOneMore(earlier, log, id);
        HasOneMore(Deduped(earlier), log, id);
      }
    }
  }

  /** A log is kept exactly if it is the first of its identity. */
  lemma {:induction false} DedupedKeepsTheFirst(raw: seq<Log>, log: Log)
    ensures log in Deduped(raw) <==>
      exists i :: 0 <= i < |raw| && raw[i] == log && !Has(raw[..i], IdentityOf(log))
  {
    if raw != [] {
      var earlier, n := raw[..|raw| - 1], |raw| - 1;
      DedupedKeepsTheFirst(earlier, log);
      hide Has, IdentityOf;
      assert raw[..n] == earlier;
      var last := if Has(earlier, IdentityOf(raw[n])) then [] else [raw[n]];
      assert Deduped(raw) == Deduped(earlier) + last;
      hide Deduped;
      assert forall i :: 0 <= i < n ==> earlier[..i] == raw[..i] && earlier[i] == raw[i];
    }
  }

  method Deduplicate(raw: seq<Log>) returns (kept: seq<Log>)
    ensures kept == Deduped(raw)
  {
    var seen: set<Identity> := {};
    kept := [];
    for i := 0 to |raw|
      invariant kept == Deduped(raw[..i])
      invariant forall id :: id in seen <==> Has(raw[..i], id)
    {
      assert raw[..i + 1] == raw[..i] + [raw[i]];
      assert raw[..i + 1][..i] == raw[..i];
      var id := IdentityOf(raw[i]);
      if id !in seen {
        seen := seen + {id};
        kept := kept + [raw[i]];
      }
    }
    assert raw[..|raw|] == raw;
  }

  // ---------------------------------------------------------------- the pass over the ordered logs

  /** Block, then transaction, then log. */
  predicate Before(a: Log, b: Log) {
    || a.blockNumber < b.blockNumber
    || (a.blockNumber == b.blockNumber && a.txIndex < b.txIndex)
    || (a.blockNumber == b.blockNumber && a.txIndex == b.txIndex && a.logIndex < b.logIndex)
  }

  datatype Rejection = Rejection(log: Log, reason: Reason)

  datatype Pass = Pass(swaps: seq<Swap>, rejections: seq<Rejection>)

  /** The logs that are decoded, in order. */
  ghost function Accepted(setting: Setting, logs: seq<Log>): seq<Log>
    requires setting.Valid()
  {
    Filter((l: Log) => Classify(setting, l).Decoded?, logs)
  }

  ghost function Refused(setting: Setting, logs: seq<Log>): seq<Log>
    requires setting.Valid()
  {
    Filter((l: Log) => Classify(setting, l).Rejected?, logs)
  }

  /** The pass succeeds when no log raises; it lists the swap of each accepted log and the reason of each refused
      one. */
  ghost predicate IsPass(setting: Setting, logs: seq<Log>, pass: Pass)
    requires setting.Valid()
  {
    && (forall i :: 0 <= i < |logs| ==> !Classify(setting, logs[i]).Raised?)
    && |pass.swaps| == |Accepted(setting, logs)|
    && (forall i :: 0 <= i < |pass.swaps| ==> Decoded(pass.swaps[i]) == Classify(setting, Accepted(setting, logs)[i]))
    && |pass.rejections| == |Refused(setting, logs)|
    && (forall i :: 0 <= i < |pass.rejections| ==>
          pass.rejections[i].log == Refused(setting, logs)[i]
          && Rejected(pass.rejections[i].reason) == Classify(setting, pass.rejections[i].log))
  }

  lemma OneMoreLog(setting: Setting, logs: seq<Log>, log: Log)
    requires setting.Valid()
    ensures Accepted(setting, logs + [log]) ==
      Accepted(setting, logs) + if Classify(setting, log).Decoded? then [log] else []
    ensures Refused(setting, logs + [log]) ==
      Refused(setting, logs) + if Classify(setting, log).Rejected? then [log] else []
  {
    hide Classify;
    FilterAppends((l: Log) => Classify(setting, l).Decoded?, logs, [log]);
    FilterAppends((l: Log) => Classify(setting, l).Rejected?, logs, [log]);
    assert [log][1..] == [];
  }

  method DecodeAll(setting: Setting, logs: seq<Log>) returns (pass: Option<Pass>)
    requires setting.Valid()
    ensures pass.None? <==> exists i :: 0 <= i < |logs| && Classify(setting, logs[i]).Raised?
    ensures pass.Some? ==> IsPass(setting, logs, pass.value)
  {
    hide Classify, Accepted, Refused;
    var swaps: seq<Swap> := [];
    var rejections: seq<Rejection> := [];
    NoLogs(setting);
    for i := 0 to |logs|
      invariant IsPass(setting, logs[..i], Pass(swaps, rejections))
    {
      assert logs[..i + 1] == logs[..i] + [logs[i]];
      OneMoreLog(setting, logs[..i], logs[i]);
      match Classify(setting, logs[i])
      case Decoded(swap) => swaps := swaps + [swap];
      case Rejected(reason) => rejections := rejections + [Rejection(logs[i], reason)];
      case Raised => return None;
    }
    assert logs[..|logs|] == logs;
    pass := Some(Pass(swaps, rejections));
  }

  lemma NoLogs(setting: Setting)
    requires setting.Valid()
    ensures Accepted(setting, []) == [] && Refused(setting, []) == []
  {
  }

  // ---------------------------------------------------------------- numbering within a block

  function InBlock(swaps: seq<Swap>, block: nat, n: nat): nat
    requires n <= |swaps|
  {
    if n == 0 then 0 else InBlock(swaps, block, n - 1) + if swaps[n - 1].blockNumber == block then 1 else 0
  }

  ghost predicate Numbered(swaps: seq<Swap>, numbered: seq<Swap>) {
    && |numbered| == |swaps|
    && forall i :: 0 <= i < |swaps| ==>
        numbered[i] == swaps[i].(ordinal := InBlock(swaps, swaps[i].blockNumber, i))
  }

  function CountOf(counts: map<nat, nat>, block: nat): nat { if block in counts then counts[block] else 0 }

  method AssignOrdinals(swaps: seq<Swap>) returns (numbered: seq<Swap>)
    ensures Numbered(swaps, numbered)
  {
    var counts: map<nat, nat> := map[];
    numbered := [];
    assert forall b :: InBlock(swaps, b, 0) == 0;
    hide InBlock;
    for i := 0 to |swaps|
      invariant |numbered| == i
      invariant forall j :: 0 <= j < i ==> numbered[j] == swaps[j].(ordinal := InBlock(swaps, swaps[j].blockNumber, j))
      invariant forall b :: CountOf(counts, b) == InBlock(swaps, b, i)
    {
      var b := swaps[i].blockNumber;
      var ordinal := CountOf(counts, b);
      numbered := numbered + [swaps[i].(ordinal := ordinal)];
      counts := counts[b := ordinal + 1];
      OneMoreInBlock(swaps, i);
    }
  }

  lemma OneMoreInBlock(swaps: seq<Swap>, i: nat)
    requires i < |swaps|
    ensures InBlock(swaps, swaps[i].blockNumber, i + 1) == InBlock(swaps, swaps[i].blockNumber, i) + 1
    ensures forall b :: b != swaps[i].blockNumber ==> InBlock(swaps, b, i + 1) == InBlock(swaps, b, i)
  {
  }

  lemma {:induction false} InBlockGrows(swaps: seq<Swap>, block: nat, i: nat, n: nat)
    requires i <= n <= |swaps|
    ensures InBlock(swaps, block, i) <= InBlock(swaps, block, n)
  {
    if i < n {
      InBlockGrows(swaps, block, i, n - 1);
    }
  }

  /** Later swaps of a block have larger ordinals, all of them below the block's count. */
  lemma OrdinalsIncrease(swaps: seq<Swap>, numbered: seq<Swap>, i: nat, j: nat)
    requires Numbered(swaps, numbered) && i < j < |swaps|
    requires swaps[i].blockNumber == swaps[j].blockNumber
    ensures numbered[i].ordinal < numbered[j].ordinal < InBlock(swaps, swaps[i].blockNumber, |swaps|)
  {
    hide InBlock;
    OneMoreInBlock(swaps, i);
    OneMoreInBlock(swaps, j);
    InBlockGrows(swaps, swaps[i].blockNumber, i + 1, j);
    InBlockGrows(swaps, swaps[i].blockNumber, j + 1, |swaps|);
  }

  /** Every ordinal below the block's count is somebody's. */
  lemma {:induction false} OrdinalsAreDense(swaps: seq<Swap>, block: nat, k: nat, n: nat) returns (i: nat)
    requires n <= |swaps| && k < InBlock(swaps, block, n)
    ensures i < n && swaps[i].blockNumber == block && InBlock(swaps, block, i) == k
  {
    if swaps[n - 1].blockNumber == block && InBlock(swaps, block, n - 1) == k {
      i := n - 1;
    } else {
      i := OrdinalsAreDense(swaps, block, k, n - 1);
    }
  }

  // ---------------------------------------------------------------- the whole pipeline

  ghost function InOrder(raw: seq<Log>): seq<Log> { Sorted(Before, Deduped(raw)) }

  ghost predicate IsReport(setting: Setting, raw: seq<Log>, report: Pass)
    requires setting.Valid()
  {
    exists swaps ::
      IsPass(setting, InOrder(raw), Pass(swaps, report.rejections)) && Numbered(swaps, report.swaps)
  }

  method CollectSwaps(setting: Setting, raw: seq<Log>) returns (report: Option<Pass>)
    requires setting.Valid()
    ensures report.None? <==> exists l :: l in Deduped(raw) && Classify(setting, l).Raised?
    ensures report.Some? ==> IsReport(setting, raw, report.value)
  {
    hide Classify, IsPass, Numbered, Sorted, Deduped;
    var kept := Deduplicate(raw);
    var logs := Sorted(Before, kept);
    forall l ensures l in kept <==> l in logs {
      assert l in multiset(kept) <==> l in multiset(logs);
    }
    var pass := DecodeAll(setting, logs);
    if pass.None? {
      return None;
    }
    var swaps := AssignOrdinals(pass.value.swaps);
    assert pass.value == Pass(pass.value.swaps, pass.value.rejections);
    report := Some(Pass(swaps, pass.value.rejections));
  }

  lemma {:induction false} EachLogHasOneVerdict(setting: Setting, logs: seq<Log>)
    requires setting.Valid() && forall i :: 0 <= i < |logs| ==> !Classify(setting, logs[i]).Raised?
    ensures multiset(Accepted(setting, logs)) + multiset(Refused(setting, logs)) == multiset(logs)
  {
    hide Classify, Accepted, Refused;
    if logs == [] {
      NoLogs(setting);
    } else {
      var earlier, log := logs[..|logs| - 1], logs[|logs| - 1];
      assert logs == earlier + [log];
      EachLogHasOneVerdict(setting, earlier);
      OneMoreLog(setting, earlier, log);
    }
  }

  /** Each raw log repeats an earlier one, or is reported once: as a rejection with its reason, or as its swap. */
  lemma LogsAreAccountedFor(setting: Setting, raw: seq<Log>, report: Pass)
    requires setting.Valid() && IsReport(setting, raw, report)
    ensures var accepted, refused := Accepted(setting, InOrder(raw)), Refused(setting, InOrder(raw));
      && multiset(accepted) + multiset(refused) == multiset(Deduped(raw))
      && |report.swaps| == |accepted| && |report.rejections| == |refused|
      && (forall i :: 0 <= i < |accepted| ==>
        && SameEvent(accepted[i], report.swaps[i]) && Sound(setting, report.swaps[i])
        && TradeOf(setting, accepted[i], report.swaps[i].trade))
      && (forall i :: 0 <= i < |refused| ==>
        report.rejections[i].log == refused[i] && !Passes(setting, refused[i], report.rejections[i].reason))
    ensures |report.swaps| + |report.rejections| == |Deduped(raw)|
  {
    hide Classify, Sorted, Sound, SameEvent, Accepted, Refused, TradeOf, Passes;
    var logs := InOrder(raw);
    var swaps :| IsPass(setting, logs, Pass(swaps, report.rejections)) && Numbered(swaps, report.swaps);
    EachLogHasOneVerdict(setting, logs);
    var accepted := Accepted(setting, logs);
    forall i | 0 <= i < |accepted|
      ensures SameEvent(accepted[i], report.swaps[i]) && Sound(setting, report.swaps[i])
      ensures TradeOf(setting, accepted[i], report.swaps[i].trade)
    {
      DecodedIsSound(setting, accepted[i]);
      DecodedMeans(setting, accepted[i]);
      NumberingKeeps(setting, accepted[i], swaps[i], report.swaps[i].ordinal);
    }
    var refused := Refused(setting, logs);
    forall i | 0 <= i < |refused|
      ensures !Passes(setting, refused[i], report.rejections[i].reason)
    {
      RefusedFails(setting, refused[i], report.rejections[i].reason);
    }
    assert |multiset(accepted) + multiset(refused)| == |multiset(Deduped(raw))|;
  }

  lemma NumberingKeeps(setting: Setting, log: Log, s: Swap, ordinal: nat)
    requires Sound(setting, s) && SameEvent(log, s)
    ensures Sound(setting, s.(ordinal := ordinal)) && SameEvent(log, s.(ordinal := ordinal))
  {
  }

  lemma {:induction false} FilterKeepsOrder(logs: seq<Log>, p: Log -> bool)
    requires Ordered(Before, logs)
    ensures Ordered(Before, Filter(p, logs))
  {
    if logs != [] {
      FilterKeepsOrder(logs[1..], p);
      var rest := Filter(p, logs[1..]);
      FilterMembers(p, logs[1..]);
      forall j | 0 <= j < |rest| ensures !Before(rest[j], logs[0]) {
        assert rest[j] in logs[1..];
      }
    }
  }

  /** Swaps are reported in order of the chain, and ordinals count them within their block. */
  lemma OrdinalsFollowTheChain(setting: Setting, raw: seq<Log>, report: Pass, i: nat, j: nat)
    requires setting.Valid() && IsReport(setting, raw, report) && i < j < |report.swaps|
    ensures var a, b := report.swaps[i], report.swaps[j];
      && a.blockNumber <= b.blockNumber
      && (a.blockNumber == b.blockNumber ==>
            a.ordinal < b.ordinal && (a.txIndex < b.txIndex || (a.txIndex == b.txIndex && a.logIndex <= b.logIndex)))
  {
    hide Classify, Sorted, Sound, InBlock;
    var logs := InOrder(raw);
    var swaps :| IsPass(setting, logs, Pass(swaps, report.rejections)) && Numbered(swaps, report.swaps);
    LogsAreAccountedFor(setting, raw, report);
    SortedIsOrdered(Before, Deduped(raw));
    FilterKeepsOrder(logs, (l: Log) => Classify(setting, l).Decoded?);
    assert !Before(Accepted(setting, logs)[j], Accepted(setting, logs)[i]);
    if report.swaps[i].blockNumber == report.swaps[j].blockNumber {
      OrdinalsIncrease(swaps, report.swaps, i, j);
    }
  }

  /** The ordinals of a block with n swaps are exactly 0 to n - 1. */
  lemma OrdinalsAreTheBlocksNumbers(setting: Setting, raw: seq<Log>, report: Pass, block: nat, k: nat)
    requires setting.Valid() && IsReport(setting, raw, report)
    ensures k < InBlock(report.swaps, block, |report.swaps|) <==>
      exists i :: 0 <= i < |report.swaps| && report.swaps[i].blockNumber == block && report.swaps[i].ordinal == k
  {
    hide Classify, Sorted, IsPass, Deduped, Accepted, Refused;
    var swaps :| IsPass(setting, InOrder(raw), Pass(swaps, report.rejections)) && Numbered(swaps, report.swaps);
    var n := |swaps|;
    SameCounts(swaps, report.swaps, block, n);
    if k < InBlock(swaps, block, n) {
      var i := OrdinalsAreDense(swaps, block, k, n);
      assert report.swaps[i].blockNumber == block && report.swaps[i].ordinal == k;
    }
    if i: nat :| i < n && report.swaps[i].blockNumber == block && report.swaps[i].ordinal == k {
      InBlockGrows(swaps, block, i + 1, n);
    }
  }

  lemma {:induction false} SameCounts(swaps: seq<Swap>, numbered: seq<Swap>, block: nat, n: nat)
    requires Numbered(swaps, numbered) && n <= |swaps|
    ensures InBlock(numbered, block, n) == InBlock(swaps, block, n)
  {
    if n > 0 {
      SameCounts(swaps, numbered, block, n - 1);
    }
  }
}
