/** Swap log payloads (internal/aggregate/aggregate.go): hex text to 32-byte words, and three wire
    layouts for one swap. */
module SwapCodec {
  import opened Common
  import opened Text

  type Byte = b: nat | b < 256 witness 0

  datatype DecodeError = EmptyData | NotHex | NotWords | TooShort | UnknownTopic

  datatype Result<T> = Ok(value: T) | Err(error: DecodeError)

  const TOPIC_UNI_V2 := "0xd78ad95fa46c994b6551d0da85fc275fe613ce37657fb8d5e3d130840159d822"
  const TOPIC_UNI_V3 := "0xc42079f94a6350d7e6235f29174924f928cc2ac818eb64fed8004e115fbcca67"
  const TOPIC_AGNI := "0x19b47279256b2a23a1665c810c8d55a1758940ee09377d4f8d26497a3577dc83"
  const TOPIC_MOE_LB := "0xad7d6f97abf51ce18e17a38f4d70e975be9c0708474987bb3e26ad21bd93ca70"

  const WORD: nat := 32

  /** One swap's share of a bucket: gross volume per token, and net flow, positive when the token left
      the pool. */
  datatype SwapAmounts = SwapAmounts(vol0: int, vol1: int, netflow0: int, netflow1: int)

  // ---------- Words ----------

  function Pow256(k: nat): nat {
    if k == 0 then 1 else 256 * Pow256(k - 1)
  }

  /** A big-endian unsigned integer. */
  function DecodeUint(word: seq<Byte>): nat {
    if word == [] then 0 else 256 * DecodeUint(word[..|word| - 1]) + word[|word| - 1]
  }

  /** A two's-complement integer when the word has its 32 bytes. */
  function DecodeInt256(word: seq<Byte>): int {
    if |word| == WORD && word[0] >= 0x80 then DecodeUint(word) - Pow256(WORD) else DecodeUint(word)
  }

  /** Two packed uint128 values, token0 in the low half; a word of another length is (0, 0). */
  function SplitPackedAmounts(word: seq<Byte>): (int, int) {
    if |word| != WORD then (0, 0) else (DecodeUint(word[16..32]), DecodeUint(word[0..16]))
  }

  // ---------- Hex text ----------

  function HexValue(c: char): Option<Byte> {
    if '0' <= c <= '9' then Some(c as nat - '0' as nat)
    else if 'a' <= c <= 'f' then Some(c as nat - 'a' as nat + 10)
    else if 'A' <= c <= 'F' then Some(c as nat - 'A' as nat + 10)
    else None
  }

  function HexDecode(s: string): Option<seq<Byte>> {
    if s == [] then Some([])
    else if |s| == 1 then None
    else
      var a, b := HexValue(s[0]), HexValue(s[1]);
      if a.None? || b.None? || a.value >= 16 || b.value >= 16 then None else
        match HexDecode(s[2..]) case None => None case Some(r) => Some([16 * a.value + b.value] + r)
  }

  function Chunk(raw: seq<Byte>): seq<seq<Byte>>
    requires |raw| % WORD == 0
  {
    if raw == [] then [] else [raw[..WORD]] + Chunk(raw[WORD..])
  }

  function SplitWords(data: string): Result<seq<seq<Byte>>> {
    var h := TrimPrefix(TrimPrefix(TrimSpace(data), "0x"), "0X");
    if h == "" then Err(EmptyData) else
      match HexDecode(h)
      case None => Err(NotHex)
      case Some(raw) => if |raw| % WORD != 0 then Err(NotWords) else Ok(Chunk(raw))
  }

  // ---------- The three layouts ----------

  datatype Layout = UniV2 | UniV3 | MoeLB | Unknown

  /** Topics are compared lower-cased; Agni shares the V3 layout. */
  function LayoutOf(topic0: string): Layout {
    var t := ToLower(topic0);
    if t == TOPIC_UNI_V2 then UniV2
    else if t == TOPIC_UNI_V3 || t == TOPIC_AGNI then UniV3
    else if t == TOPIC_MOE_LB then MoeLB
    else Unknown
  }

  predicate IsSwapTopic(topic0: string) {
    !LayoutOf(topic0).Unknown?
  }

  function Abs(n: int): nat {
    if n < 0 then -n else n
  }

  function DecodeV2(w: seq<seq<Byte>>): Result<SwapAmounts> {
    if |w| < 4 then Err(TooShort) else
      var in0, in1, out0, out1 := DecodeUint(w[0]), DecodeUint(w[1]), DecodeUint(w[2]), DecodeUint(w[3]);
      Ok(SwapAmounts(in0 + out0, in1 + out1, out0 - in0, out1 - in1))
  }

  function DecodeV3(w: seq<seq<Byte>>): Result<SwapAmounts> {
    if |w| < 2 then Err(TooShort) else
      var a0, a1 := DecodeInt256(w[0]), DecodeInt256(w[1]);
      Ok(SwapAmounts(Abs(a0), Abs(a1), -a0, -a1))
  }

  function DecodeLB(w: seq<seq<Byte>>): Result<SwapAmounts> {
    if |w| < 3 then Err(TooShort) else
      var (in0, in1) := SplitPackedAmounts(w[1]);
      var (out0, out1) := SplitPackedAmounts(w[2]);
      Ok(SwapAmounts(in0 + out0, in1 + out1, out0 - in0, out1 - in1))
  }

  function DecodeWords(layout: Layout, w: seq<seq<Byte>>): Result<SwapAmounts> {
    match layout
    case UniV2 => DecodeV2(w)
    case UniV3 => DecodeV3(w)
    case MoeLB => DecodeLB(w)
    case Unknown => Err(UnknownTopic)
  }

  function DecodeSwap(topic0: string, data: string): Result<SwapAmounts> {
    match SplitWords(data)
    case Err(e) => Err(e)
    case Ok(words) => DecodeWords(LayoutOf(topic0), words)
  }

  // ---------- One abstract swap, and its three encodings ----------

  datatype Swap = Swap(in0: nat, out0: nat, in1: nat, out1: nat) {
    function Amounts(): SwapAmounts {
      SwapAmounts(in0 + out0, in1 + out1, out0 - in0, out1 - in1)
    }

    /** Each token moves one way. */
    predicate OneWay() {
      (in0 == 0 || out0 == 0) && (in1 == 0 || out1 == 0)
    }

    predicate Fits(bound: nat) {
      in0 < bound && out0 < bound && in1 < bound && out1 < bound
    }
  }

  function EncodeUint(n: nat, k: nat): seq<Byte> {
    if k == 0 then [] else EncodeUint(n / 256, k - 1) + [n % 256]
  }

  function EncodeInt256(n: int): seq<Byte> {
    EncodeUint(if n < 0 && n + Pow256(WORD) >= 0 then n + Pow256(WORD) else Abs(n), WORD)
  }

  function EncodePacked(amount0: nat, amount1: nat): seq<Byte> {
    EncodeUint(amount1, 16) + EncodeUint(amount0, 16)
  }

  function EncodeV2(s: Swap): seq<seq<Byte>> {
    [EncodeUint(s.in0, WORD), EncodeUint(s.in1, WORD), EncodeUint(s.out0, WORD), EncodeUint(s.out1, WORD)]
  }

  /** The pool's side of the trade: what came in less what went out. */
  function EncodeV3(s: Swap): seq<seq<Byte>> {
    [EncodeInt256(s.in0 - s.out0), EncodeInt256(s.in1 - s.out1)]
  }

  function EncodeLB(s: Swap, id: nat): seq<seq<Byte>> {
    [EncodeUint(id, WORD), EncodePacked(s.in0, s.in1), EncodePacked(s.out0, s.out1)]
  }

  function HexChar(n: nat): char
    requires n < 16
  {
    "0123456789abcdef"[n]
  }

  function HexEncode(raw: seq<Byte>): string {
    if raw == [] then [] else [HexChar(raw[0] / 16), HexChar(raw[0] % 16)] + HexEncode(raw[1..])
  }

  function Concat(words: seq<seq<Byte>>): seq<Byte> {
    if words == [] then [] else words[0] + Concat(words[1..])
  }

  /** Log data as the chain serves it. */
  function Payload(words: seq<seq<Byte>>): string {
    "0x" + HexEncode(Concat(words))
  }

  predicate Words(words: seq<seq<Byte>>) {
    forall w <- words :: |w| == WORD
  }

  // ---------- Reading back what was written ----------

  lemma {:induction false} UintRoundTrip(n: nat, k: nat)
    requires n < Pow256(k)
    ensures |EncodeUint(n, k)| == k && DecodeUint(EncodeUint(n, k)) == n
  {
    if k > 0 {
      UintRoundTrip(n / 256, k - 1);
      var w := EncodeUint(n, k);
      assert w[..|w| - 1] == EncodeUint(n / 256, k - 1);
    }
  }

  lemma Scale(a: nat, p: nat)
    ensures a * (256 * p) == 256 * (a * p) && (a + 1) * p == a * p + p
  {
  }

  /** The top bit of a word is its sign. */
  lemma TopBit(w: seq<Byte>)
    requires w != []
    ensures w[0] >= 128 <==> DecodeUint(w) >= 128 * Pow256(|w| - 1)
  {
  }

  lemma Int256RoundTrip(n: int)
    requires -128 * Pow256(WORD - 1) <= n < 128 * Pow256(WORD - 1)
    ensures |EncodeInt256(n)| == WORD && DecodeInt256(EncodeInt256(n)) == n
  {
    PowStep(WORD - 1);
    hide Pow256, EncodeUint, DecodeUint;
    var m: nat := if n < 0 then n + Pow256(WORD) else n;
    UintRoundTrip(m, WORD);
    TopBit(EncodeUint(m, WORD));
  }

  lemma PowStep(k: nat)
    ensures Pow256(k + 1) == 256 * Pow256(k) && Pow256(k) > 0
  {
    if k > 0 {
      PowStep(k - 1);
    }
  }

  lemma PackedRoundTrip(amount0: nat, amount1: nat)
    requires amount0 < Pow256(16) && amount1 < Pow256(16)
    ensures |EncodePacked(amount0, amount1)| == WORD
    ensures SplitPackedAmounts(EncodePacked(amount0, amount1)) == (amount0, amount1)
  {
    UintRoundTrip(amount0, 16);
    UintRoundTrip(amount1, 16);
    var w := EncodePacked(amount0, amount1);
    assert w[16..32] == EncodeUint(amount0, 16) && w[0..16] == EncodeUint(amount1, 16);
  }

  lemma HexCharReads(n: nat)
    requires n < 16
    ensures HexValue(HexChar(n)) == Some(n) && !IsSpace(HexChar(n)) && HexChar(n) != 'X' && HexChar(n) != 'x'
  {
  }

  lemma {:induction false} HexRoundTrip(raw: seq<Byte>)
    ensures HexDecode(HexEncode(raw)) == Some(raw) && |HexEncode(raw)| == 2 * |raw|
    ensures forall c <- HexEncode(raw) :: !IsSpace(c) && c != 'X' && c != 'x'
  {
    if raw != [] {
      HexRoundTrip(raw[1..]);
      HexCharReads(raw[0] / 16);
      HexCharReads(raw[0] % 16);
      var h := HexEncode(raw);
      assert h[2..] == HexEncode(raw[1..]);
      assert [16 * (raw[0] / 16) + raw[0] % 16] + raw[1..] == raw;
    }
  }

  lemma DigitCaseIsIgnored(c: char)
    ensures HexValue(c) == HexValue(LowerChar(c))
  {
  }

  /** Upper-case hex digits read as lower-case ones. */
  lemma {:induction false} HexCaseIsIgnored(s: string)
    ensures HexDecode(s) == HexDecode(ToLower(s))
    decreases |s|
  {
    hide HexValue, LowerChar;
    if |s| >= 2 {
      DigitCaseIsIgnored(s[0]);
      DigitCaseIsIgnored(s[1]);
      HexCaseIsIgnored(s[2..]);
      assert ToLower(s)[2..] == ToLower(s[2..]);
    }
  }

  lemma {:induction false} ChunkRoundTrip(words: seq<seq<Byte>>)
    requires Words(words)
    ensures |Concat(words)| == WORD * |words| && Chunk(Concat(words)) == words
  {
    if words != [] {
      ChunkRoundTrip(words[1..]);
      var raw := Concat(words);
      assert raw[..WORD] == words[0] && raw[WORD..] == Concat(words[1..]);
    }
  }

  lemma NothingToTrim(s: string)
    requires s != [] && !IsSpace(s[0]) && !IsSpace(s[|s| - 1])
    ensures TrimSpace(s) == s
  {
  }

  /** Any sequence of words survives the trip through log text. */
  lemma PayloadRoundTrip(words: seq<seq<Byte>>)
    requires words != [] && Words(words)
    ensures SplitWords(Payload(words)) == Ok(words)
  {
    hide HexEncode, HexDecode, HexChar, HexValue, Chunk, Concat, TrimSpace;
    var raw := Concat(words);
    var h := HexEncode(raw);
    ChunkRoundTrip(words);
    HexRoundTrip(raw);
    var s := "0x" + h;
    assert s[|s| - 1] == h[|h| - 1] && h[|h| - 1] in h;
    NothingToTrim(s);
    assert s[2..] == h;
    assert h[1] in h && !("0X" <= h);
  }

  // ---------- What the decoder promises ----------

  /** Of a V2 pool's Swap event. */
  predicate HasTopicV2(topic0: string) {
    ToLower(topic0) == "0xd78ad95fa46c994b6551d0da85fc275fe613ce37657fb8d5e3d130840159d822"
  }

  /** Of a V3 pool's, or an Agni pool's. */
  predicate HasTopicV3(topic0: string) {
    || ToLower(topic0) == "0xc42079f94a6350d7e6235f29174924f928cc2ac818eb64fed8004e115fbcca67"
    || ToLower(topic0) == "0x19b47279256b2a23a1665c810c8d55a1758940ee09377d4f8d26497a3577dc83"
  }

  /** Of a Liquidity Book pair's. */
  predicate HasTopicLB(topic0: string) {
    ToLower(topic0) == "0xad7d6f97abf51ce18e17a38f4d70e975be9c0708474987bb3e26ad21bd93ca70"
  }

  lemma LayoutOfTopic(topic0: string)
    ensures (LayoutOf(topic0) == UniV2 <==> HasTopicV2(topic0)) && (LayoutOf(topic0) == UniV3 <==> HasTopicV3(topic0))
    ensures LayoutOf(topic0) == MoeLB <==> HasTopicLB(topic0)
    ensures IsSwapTopic(topic0) <==> HasTopicV2(topic0) || HasTopicV3(topic0) || HasTopicLB(topic0)
  {
    assert TOPIC_UNI_V2 != TOPIC_UNI_V3 && TOPIC_UNI_V2 != TOPIC_AGNI && TOPIC_UNI_V2 != TOPIC_MOE_LB;
    assert TOPIC_UNI_V3 != TOPIC_MOE_LB && TOPIC_AGNI != TOPIC_MOE_LB;
  }

  /** A V2 payload decodes to the swap, whatever words follow. */
  lemma V2Decodes(s: Swap, topic0: string, extra: seq<seq<Byte>>)
    requires s.Fits(Pow256(WORD)) && Words(extra) && HasTopicV2(topic0)
    ensures DecodeSwap(topic0, Payload(EncodeV2(s) + extra)) == Ok(s.Amounts())
  {
    hide Pow256, EncodeUint, DecodeUint, LayoutOf, HasTopicV2, HasTopicV3, HasTopicLB, SplitWords, Payload;
    LayoutOfTopic(topic0);
    UintRoundTrip(s.in0, WORD);
    UintRoundTrip(s.in1, WORD);
    UintRoundTrip(s.out0, WORD);
    UintRoundTrip(s.out1, WORD);
    PayloadRoundTrip(EncodeV2(s) + extra);
  }

  /** A Liquidity Book payload decodes to the same amounts. */
  lemma LBDecodes(s: Swap, id: nat, topic0: string, extra: seq<seq<Byte>>)
    requires s.Fits(Pow256(16)) && id < Pow256(WORD) && Words(extra) && HasTopicLB(topic0)
    ensures DecodeSwap(topic0, Payload(EncodeLB(s, id) + extra)) == Ok(s.Amounts())
  {
    hide Pow256, EncodeUint, EncodePacked, SplitPackedAmounts, LayoutOf, HasTopicV2, HasTopicV3, HasTopicLB, SplitWords,
         Payload;
    LayoutOfTopic(topic0);
    UintRoundTrip(id, WORD);
    PackedRoundTrip(s.in0, s.in1);
    PackedRoundTrip(s.out0, s.out1);
    PayloadRoundTrip(EncodeLB(s, id) + extra);
  }

  /** A V3 payload carries only the difference, so it decodes to the swap exactly when each token moves
      one way. */
  lemma V3DecodesIff(s: Swap, topic0: string, extra: seq<seq<Byte>>)
    requires s.Fits(128 * Pow256(WORD - 1)) && Words(extra) && HasTopicV3(topic0)
    ensures DecodeSwap(topic0, Payload(EncodeV3(s) + extra))
            == Ok(SwapAmounts(Abs(s.in0 - s.out0), Abs(s.in1 - s.out1), s.out0 - s.in0, s.out1 - s.in1))
    ensures DecodeSwap(topic0, Payload(EncodeV3(s) + extra)) == Ok(s.Amounts()) <==> s.OneWay()
  {
    hide Pow256, EncodeInt256, DecodeInt256, LayoutOf, HasTopicV2, HasTopicV3, HasTopicLB, SplitWords, Payload;
    LayoutOfTopic(topic0);
    Int256RoundTrip(s.in0 - s.out0);
    Int256RoundTrip(s.in1 - s.out1);
    PayloadRoundTrip(EncodeV3(s) + extra);
  }

  /** The log is what a pool emits for the swap s: its layout's words under its topic, and any words after. A V3 event
      carries differences, so there each token must move one way. */
  ghost predicate Carries(topic0: string, data: string, s: Swap) {
    || (HasTopicV2(topic0) && s.Fits(Pow256(32))
        && exists extra | Words(extra) :: data == Payload(EncodeV2(s) + extra))
    || (HasTopicV3(topic0) && s.Fits(128 * Pow256(31)) && s.OneWay()
        && exists extra | Words(extra) :: data == Payload(EncodeV3(s) + extra))
    || (HasTopicLB(topic0) && s.Fits(Pow256(16))
        && exists extra, id: nat | Words(extra) && id < Pow256(32) :: data == Payload(EncodeLB(s, id) + extra))
  }

  /** All the layouts decode to the one swap. */
  lemma CarriedDecodes(topic0: string, data: string, s: Swap)
    requires Carries(topic0, data, s)
    ensures IsSwapTopic(topic0) && DecodeSwap(topic0, data) == Ok(s.Amounts())
  {
    hide Pow256, Payload, DecodeSwap, EncodeV2, EncodeV3, EncodeLB, HasTopicV2, HasTopicV3, HasTopicLB, LayoutOf;
    LayoutOfTopic(topic0);
    if HasTopicV2(topic0) && s.Fits(Pow256(32)) && exists extra | Words(extra) :: data == Payload(EncodeV2(s) + extra) {
      var extra :| Words(extra) && data == Payload(EncodeV2(s) + extra);
      V2Decodes(s, topic0, extra);
    } else if HasTopicV3(topic0) && s.OneWay() && exists extra | Words(extra) :: data == Payload(EncodeV3(s) + extra) {
      var extra :| Words(extra) && data == Payload(EncodeV3(s) + extra);
      V3DecodesIff(s, topic0, extra);
    } else {
      var extra, id: nat :| Words(extra) && id < Pow256(32) && data == Payload(EncodeLB(s, id) + extra);
      LBDecodes(s, id, topic0, extra);
    }
  }

  /** Net flow never exceeds gross volume, for any payload at all. */
  lemma NetWithinGross(topic0: string, data: string)
    ensures DecodeSwap(topic0, data).Ok? ==>
              var a := DecodeSwap(topic0, data).value;
              Abs(a.netflow0) <= a.vol0 && Abs(a.netflow1) <= a.vol1
  {
  }

  /** Words after the ones a layout reads never matter. */
  lemma TrailingWordsIgnored(topic0: string, words: seq<seq<Byte>>, extra: seq<seq<Byte>>)
    requires words != [] && Words(words) && Words(extra)
    requires DecodeSwap(topic0, Payload(words)).Ok?
    ensures DecodeSwap(topic0, Payload(words + extra)) == DecodeSwap(topic0, Payload(words))
  {
    hide LayoutOf, SplitWords, Payload, DecodeUint, DecodeInt256, SplitPackedAmounts;
    PayloadRoundTrip(words);
    PayloadRoundTrip(words + extra);
  }
}
