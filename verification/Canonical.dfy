/** The canonical string whose hash is committed on chain (internal/attest/attestor.go), and a decoder
    that inverts the printer. Strings are sequences of Unicode scalar values, so valid UTF-8. */
module Canonical {
  import opened Common
  import opened Text

  /** A bucket signal is keyed by its metric, an event signal by its reference. */
  datatype SignalKey = Metric(text: string) | Ref(text: string)

  datatype Canon = Canon(pool: string, signalType: int, key: SignalKey, score: int, ts: int)

  // ---------- The printer ----------

  function Digit(n: nat): char
    requires n < 16
  {
    "0123456789abcdef"[n]
  }

  function DecimalNat(n: nat): string {
    if n < 10 then [Digit(n)] else DecimalNat(n / 10) + [Digit(n % 10)]
  }

  function Decimal(n: int): string {
    if n < 0 then "-" + DecimalNat(-n) else DecimalNat(n)
  }

  function UnicodeEscape(n: nat): string
    requires n < 0x10000
  {
    ['\\', 'u', Digit(n / 0x1000), Digit(n / 0x100 % 16), Digit(n / 16 % 16), Digit(n % 16)]
  }

  /** encoding/json's escapes, with its HTML-safe ones. */
  function EscapeChar(c: char): string {
    if c == '"' || c == '\\' then ['\\', c]
    else if c == '\U{8}' then "\\b"
    else if c == '\U{C}' then "\\f"
    else if c == '\n' then "\\n"
    else if c == '\r' then "\\r"
    else if c == '\t' then "\\t"
    else if c < ' ' || c in {'<', '>', '&', '\U{2028}', '\U{2029}'} then UnicodeEscape(c as nat)
    else [c]
  }

  function Escape(s: string): string {
    if s == [] then [] else EscapeChar(s[0]) + Escape(s[1..])
  }

  function KeyName(k: SignalKey): string {
    if k.Metric? then ",\"metric\":" else ",\"ref\":"
  }

  const OPEN := "{\"pool\":\""
  const TYPE := "\",\"type\""
  const SCORE := ",\"score\""
  const TS := ",\"ts\""

  /** The string SignalHash and SignalHashEvent hash. */
  function Encode(c: Canon): string {
    OPEN + ToLower(c.pool) + TYPE + ":" + Decimal(c.signalType)
    + KeyName(c.key) + "\"" + Escape(c.key.text) + "\""
    + SCORE + ":" + Decimal(c.score) + TS + ":" + Decimal(c.ts) + "}"
  }

  // ---------- The decoder, from the right ----------

  function DigitValue(c: char): Option<nat> {
    if '0' <= c <= '9' then Some(c as nat - '0' as nat)
    else if 'a' <= c <= 'f' then Some(c as nat - 'a' as nat + 10)
    else None
  }

  function ParseNat(s: string): Option<nat> {
    if s == [] then None else
      var d := DigitValue(s[|s| - 1]);
      if d.None? || d.value >= 10 then None
      else if |s| == 1 then d
      else match ParseNat(s[..|s| - 1]) case None => None case Some(n) => Some(10 * n + d.value)
  }

  function ParseInt(s: string): Option<int> {
    var minus := s != [] && s[0] == '-';
    match ParseNat(if minus then s[1..] else s)
    case None => None
    case Some(n) => Some(if minus then 0 - n as int else n as int)
  }

  /** The position after the last occurrence of c; 0 when there is none. */
  function AfterLast(s: string, c: char): (i: nat)
    ensures i <= |s|
  {
    if s == [] then 0 else if s[|s| - 1] == c then |s| else AfterLast(s[..|s| - 1], c)
  }

  function StripSuffix(s: string, suffix: string): Option<string> {
    if |suffix| <= |s| && s[|s| - |suffix|..] == suffix then Some(s[..|s| - |suffix|]) else None
  }

  /** Splits `head + ":" + number`. */
  function TakeNumber(s: string): Option<(string, int)> {
    var i := AfterLast(s, ':');
    if i == 0 then None else
      match ParseInt(s[i..]) case None => None case Some(n) => Some((s[..i - 1], n))
  }

  /** The position after the last quote that no backslash precedes; 0 when there is none. */
  function AfterOpenQuote(s: string): (i: nat)
    ensures i <= |s|
  {
    if s == [] then 0
    else if s[|s| - 1] == '"' && (|s| == 1 || s[|s| - 2] != '\\') then |s|
    else AfterOpenQuote(s[..|s| - 1])
  }

  /** A code point below 0x10000 that is a character by itself. */
  function FromCode(n: nat): Option<char> {
    if n < 0xD800 || 0xE000 <= n < 0x10000 then Some(n as char) else None
  }

  /** One character off the front of an escaped text, with how much text it took. */
  function UnescapeChar(s: string): Option<(char, nat)>
    requires s != []
  {
    if s[0] != '\\' then Some((s[0], 1))
    else if |s| < 2 then None
    else match s[1]
      case '"' => Some(('"', 2))
      case '\\' => Some(('\\', 2))
      case 'b' => Some(('\U{8}', 2))
      case 'f' => Some(('\U{C}', 2))
      case 'n' => Some(('\n', 2))
      case 'r' => Some(('\r', 2))
      case 't' => Some(('\t', 2))
      case 'u' =>
        if |s| < 6 then None else
          var a, b, c, d := DigitValue(s[2]), DigitValue(s[3]), DigitValue(s[4]), DigitValue(s[5]);
          if a.None? || b.None? || c.None? || d.None? then None else
            (match FromCode(0x1000 * a.value + 0x100 * b.value + 16 * c.value + d.value)
             case None => None
             case Some(ch) => Some((ch, 6)))
      case _ => None
  }

  function Unescape(s: string): Option<string>
    decreases |s|
  {
    if s == [] then Some([]) else
      match UnescapeChar(s)
      case None => None
      case Some((c, k)) =>
        if k == 0 || k > |s| then None else
          match Unescape(s[k..]) case None => None case Some(r) => Some([c] + r)
  }

  /** The text and what stands before its opening quote, of `head + "\"" + escaped + "\""`. */
  function TakeText(s: string): Option<(string, string)> {
    if s == [] || s[|s| - 1] != '"' then None else
      var t := s[..|s| - 1];
      var i := AfterOpenQuote(t);
      if i == 0 then None else
        match Unescape(t[i..]) case None => None case Some(text) => Some((t[..i - 1], text))
  }

  function TakeKeyName(s: string, text: string): Option<(string, SignalKey)> {
    match StripSuffix(s, KeyName(Metric(text)))
    case Some(head) => Some((head, Metric(text)))
    case None =>
      match StripSuffix(s, KeyName(Ref(text)))
      case Some(head) => Some((head, Ref(text)))
      case None => None
  }

  /** A number with its field name, off the right end. */
  function TakeField(s: string, name: string): Option<(string, int)> {
    match TakeNumber(s)
    case None => None
    case Some((head, n)) => match StripSuffix(head, name) case None => None case Some(h) => Some((h, n))
  }

  function DecodeHead(s: string, key: SignalKey, score: int, ts: int): Option<Canon> {
    match TakeField(s, TYPE)
    case None => None
    case Some((head, signalType)) =>
      if OPEN <= head then Some(Canon(head[|OPEN|..], signalType, key, score, ts)) else None
  }

  function Decode(s: string): Option<Canon> {
    match StripSuffix(s, "}")
    case None => None
    case Some(s1) =>
      match TakeField(s1, TS)
      case None => None
      case Some((s2, ts)) =>
        match TakeField(s2, SCORE)
        case None => None
        case Some((s3, score)) =>
          match TakeText(s3)
          case None => None
          case Some((s4, text)) =>
            match TakeKeyName(s4, text)
            case None => None
            case Some((s5, key)) => DecodeHead(s5, key, score, ts)
  }

  // ---------- Each piece is inverted ----------

  lemma {:induction false} DecimalNatParses(n: nat)
    ensures ParseNat(DecimalNat(n)) == Some(n) && DecimalNat(n) != []
    ensures forall c <- DecimalNat(n) :: '0' <= c <= '9'
  {
    var s := DecimalNat(n);
    if n >= 10 {
      DecimalNatParses(n / 10);
      assert s[..|s| - 1] == DecimalNat(n / 10);
    }
  }

  lemma DecimalParses(n: int)
    ensures ParseInt(Decimal(n)) == Some(n) && ':' !in Decimal(n)
  {
    hide ParseInt, ParseNat, DecimalNat;
    var m: nat := if n < 0 then 0 - n else n;
    DecimalNatParses(m);
    SignIsRead(DecimalNat(m), m);
  }

  lemma SignIsRead(s: string, n: nat)
    requires ParseNat(s) == Some(n) && s != [] && forall c <- s :: '0' <= c <= '9'
    ensures ParseInt(s) == Some(n) && ParseInt("-" + s) == Some(0 - n) && ':' !in s && ':' !in "-" + s
  {
    hide ParseNat;
    assert s[0] in s;
    assert ("-" + s)[1..] == s;
  }

  lemma {:induction false} AfterLastIs(a: string, c: char, b: string)
    requires c !in b
    ensures AfterLast(a + [c] + b, c) == |a| + 1
    decreases |b|
  {
    var s := a + [c] + b;
    if b != [] {
      assert s[..|s| - 1] == a + [c] + b[..|b| - 1];
      assert b[|b| - 1] in b;
      AfterLastIs(a, c, b[..|b| - 1]);
    }
  }

  lemma FieldIsTaken(head: string, name: string, n: int)
    ensures TakeField(head + name + ":" + Decimal(n), name) == Some((head, n))
  {
    hide Decimal, ParseInt, AfterLast;
    var s := head + name + ":" + Decimal(n);
    DecimalParses(n);
    AfterLastIs(head + name, ':', Decimal(n));
    assert s[|head + name| + 1..] == Decimal(n);
    assert s[..|head + name|] == head + name;
    SuffixIsStripped(head, name);
  }

  lemma SuffixIsStripped(a: string, b: string)
    ensures StripSuffix(a + b, b) == Some(a)
  {
  }

  lemma HexDigit(n: nat)
    requires n < 16
    ensures DigitValue(Digit(n)) == Some(n)
  {
  }

  lemma HexSplit(n: nat)
    requires n < 0x10000
    ensures 0x1000 * (n / 0x1000) + 0x100 * (n / 0x100 % 16) + 16 * (n / 16 % 16) + n % 16 == n
  {
    var q, r := n / 16, n / 0x100;
    assert q / 16 == r && r / 16 == n / 0x1000;
    assert n == 16 * q + n % 16;
    assert q == 16 * r + q % 16;
    assert r == 16 * (n / 0x1000) + r % 16;
  }

  lemma CodeIsRead(n: nat, rest: string)
    requires n < 0xD800
    ensures UnescapeChar(UnicodeEscape(n) + rest) == Some((n as char, 6))
  {
    HexDigit(n / 0x1000);
    HexDigit(n / 0x100 % 16);
    HexDigit(n / 16 % 16);
    HexDigit(n % 16);
    HexSplit(n);
    FourDigits(n / 0x1000, n / 0x100 % 16, n / 16 % 16, n % 16, rest);
  }

  lemma FourDigits(a: nat, b: nat, c: nat, d: nat, rest: string)
    requires a < 16 && b < 16 && c < 16 && d < 16 && 0x1000 * a + 0x100 * b + 16 * c + d < 0xD800
    ensures var n := 0x1000 * a + 0x100 * b + 16 * c + d;
            UnescapeChar(['\\', 'u', Digit(a), Digit(b), Digit(c), Digit(d)] + rest) == Some((n as char, 6))
  {
    hide Digit, DigitValue;
    HexDigit(a);
    HexDigit(b);
    HexDigit(c);
    HexDigit(d);
  }

  predicate IsShort(c: char) {
    c in {'"', '\\', '\U{8}', '\U{C}', '\n', '\r', '\t'}
  }

  lemma ShortIsRead(c: char, rest: string)
    requires IsShort(c)
    ensures UnescapeChar(EscapeChar(c) + rest) == Some((c, |EscapeChar(c)|))
  {
  }

  lemma PlainIsRead(c: char, rest: string)
    requires !IsShort(c) && EscapeChar(c) == [c]
    ensures UnescapeChar(EscapeChar(c) + rest) == Some((c, |EscapeChar(c)|))
  {
  }

  lemma CodeOrPlain(c: char)
    requires !IsShort(c)
    ensures EscapeChar(c) == [c]
            || ((c as nat) < 0xD800 && EscapeChar(c) == UnicodeEscape(c as nat) && |EscapeChar(c)| == 6)
  {
  }

  lemma CharIsRead(c: char, rest: string)
    ensures UnescapeChar(EscapeChar(c) + rest) == Some((c, |EscapeChar(c)|))
  {
    hide EscapeChar, UnescapeChar, UnicodeEscape;
    if IsShort(c) {
      ShortIsRead(c, rest);
    } else {
      CodeOrPlain(c);
      if EscapeChar(c) == [c] {
        PlainIsRead(c, rest);
      } else {
        CodeIsRead(c as nat, rest);
      }
    }
  }

  lemma {:induction false} TextIsRead(s: string)
    ensures Unescape(Escape(s)) == Some(s)
  {
    if s != [] {
      CharIsRead(s[0], Escape(s[1..]));
      TextIsRead(s[1..]);
      assert Escape(s)[|EscapeChar(s[0])|..] == Escape(s[1..]);
      assert [s[0]] + s[1..] == s;
    }
  }

  /** A quote inside an escaped text always follows a backslash. */
  lemma {:induction false} QuotesAreEscaped(s: string)
    ensures forall i | 0 <= i < |Escape(s)| :: Escape(s)[i] == '"' ==> i > 0 && Escape(s)[i - 1] == '\\'
  {
    if s != [] {
      QuotesAreEscaped(s[1..]);
      var a, b := EscapeChar(s[0]), Escape(s[1..]);
      forall i | 0 <= i < |a + b| && (a + b)[i] == '"'
        ensures i > 0 && (a + b)[i - 1] == '\\'
      {
        assert i >= |a| ==> b[i - |a|] == '"';
        assert i < |a| ==> a[i] == '"';
      }
    }
  }

  lemma {:induction false} OpenQuoteIs(a: string, b: string)
    requires a != [] && a[|a| - 1] != '\\'
    requires forall i | 0 <= i < |b| :: b[i] == '"' ==> i > 0 && b[i - 1] == '\\'
    ensures AfterOpenQuote(a + "\"" + b) == |a| + 1
    decreases |b|
  {
    var s := a + "\"" + b;
    if b != [] {
      assert s[..|s| - 1] == a + "\"" + b[..|b| - 1];
      assert b[|b| - 1] == '"' ==> s[|s| - 2] == '\\';
      OpenQuoteIs(a, b[..|b| - 1]);
    }
  }

  lemma TextIsTaken(head: string, text: string)
    requires head != [] && head[|head| - 1] != '\\'
    ensures TakeText(head + "\"" + Escape(text) + "\"") == Some((head, text))
  {
    var s := head + "\"" + Escape(text) + "\"";
    var t := head + "\"" + Escape(text);
    assert s[..|s| - 1] == t;
    QuotesAreEscaped(text);
    OpenQuoteIs(head, Escape(text));
    assert t[|head| + 1..] == Escape(text) && t[..|head|] == head;
    TextIsRead(text);
  }

  lemma KeyNameIsTaken(head: string, key: SignalKey)
    ensures TakeKeyName(head + KeyName(key), key.text) == Some((head, key))
  {
    SuffixIsStripped(head, KeyName(key));
    var s := head + KeyName(key);
    if key.Ref? {
      assert s[|s| - 3] == 'f';
      assert KeyName(Metric(key.text))[|KeyName(Metric(key.text))| - 3] == 'c';
      assert StripSuffix(s, KeyName(Metric(key.text))).None?;
    }
  }

  /** The decoder inverts the printer on every signal, up to the case of the pool. */
  lemma DecodeInvertsEncode(c: Canon)
    ensures Decode(Encode(c)) == Some(c.(pool := ToLower(c.pool)))
  {
    hide Decimal, Escape, TakeField, TakeText, TakeKeyName, StripSuffix;
    var s0 := OPEN + ToLower(c.pool);
    var s5 := s0 + TYPE + ":" + Decimal(c.signalType);
    var s4 := s5 + KeyName(c.key);
    var s3 := s4 + "\"" + Escape(c.key.text) + "\"";
    var s2 := s3 + SCORE + ":" + Decimal(c.score);
    var s1 := s2 + TS + ":" + Decimal(c.ts);
    assert Encode(c) == s1 + "}";
    SuffixIsStripped(s1, "}");
    FieldIsTaken(s2, TS, c.ts);
    FieldIsTaken(s3, SCORE, c.score);
    TextIsTaken(s4, c.key.text);
    KeyNameIsTaken(s5, c.key);
    FieldIsTaken(s0, TYPE, c.signalType);
    assert s0[|OPEN|..] == ToLower(c.pool);
  }

  /** Equal strings come from equal signals: the same fields, the pools up to case, and never one keyed by
      a metric with one keyed by a reference. No pool, metric or reference is excluded. */
  lemma CanonicalIsInjective(x: Canon, y: Canon)
    requires Encode(x) == Encode(y)
    ensures ToLower(x.pool) == ToLower(y.pool)
    ensures x.signalType == y.signalType && x.key == y.key && x.score == y.score && x.ts == y.ts
  {
    DecodeInvertsEncode(x);
    DecodeInvertsEncode(y);
  }

  /** The documented compact form: the keys in their order, the two free texts in quotes. */
  lemma CanonicalForm(c: Canon)
    ensures Encode(c) == "{\"pool\":\"" + ToLower(c.pool) + "\",\"type\":" + Decimal(c.signalType)
                         + (if c.key.Metric? then ",\"metric\":\"" else ",\"ref\":\"") + Escape(c.key.text)
                         + "\",\"score\":" + Decimal(c.score) + ",\"ts\":" + Decimal(c.ts) + "}"
  {
    hide Decimal, Escape, ToLower;
    FormHead(ToLower(c.pool), Decimal(c.signalType));
    FormKey(c.key, Escape(c.key.text));
    FormTail(Decimal(c.score), Decimal(c.ts));
    var a := OPEN + ToLower(c.pool) + TYPE + ":" + Decimal(c.signalType);
    var b := KeyName(c.key) + "\"" + Escape(c.key.text);
    var d := "\"" + SCORE + ":" + Decimal(c.score) + TS + ":" + Decimal(c.ts) + "}";
    hide KeyName;
    assert Encode(c) == a + b + d;
  }

  lemma FormHead(pool: string, n: string)
    ensures OPEN + pool + TYPE + ":" + n == "{\"pool\":\"" + pool + "\",\"type\":" + n
  {
    assert TYPE + ":" == "\",\"type\":";
  }

  lemma FormKey(key: SignalKey, text: string)
    ensures KeyName(key) + "\"" + text == (if key.Metric? then ",\"metric\":\"" else ",\"ref\":\"") + text
  {
    assert KeyName(key) + "\"" == if key.Metric? then ",\"metric\":\"" else ",\"ref\":\"";
  }

  lemma FormTail(score: string, ts: string)
    ensures "\"" + SCORE + ":" + score + TS + ":" + ts + "}" == "\",\"score\":" + score + ",\"ts\":" + ts + "}"
  {
    assert "\"" + SCORE + ":" == "\",\"score\":" && TS + ":" == ",\"ts\":";
  }

  /** No character that JSON forbids in a string or that HTML gives a meaning is left as it is. */
  lemma {:induction false} EscapeIsSafe(s: string)
    ensures forall c <- Escape(s) :: c >= ' ' && c !in {'<', '>', '&', '\U{2028}', '\U{2029}'}
  {
    if s != [] {
      EscapeIsSafe(s[1..]);
      CharIsSafe(s[0]);
    }
  }

  /** And text with none of these, no quote and no backslash stands as it is. */
  lemma {:induction false} PlainTextIsKept(s: string)
    requires forall i | 0 <= i < |s| :: s[i] >= ' ' && s[i] !in {'"', '\\', '<', '>', '&', '\U{2028}', '\U{2029}'}
    ensures Escape(s) == s
  {
    if s != [] {
      PlainTextIsKept(s[1..]);
    }
  }

  /** Numbers are printed plainly: a minus sign for negative ones only, and no leading zero. */
  lemma {:induction false} NumbersArePlain(n: int)
    ensures Decimal(n) != [] && (Decimal(n)[0] == '-' <==> n < 0)
    ensures n >= 0 && Decimal(n)[0] == '0' ==> n == 0 && Decimal(n) == "0"
    ensures n < 0 ==> Decimal(n)[1..] == Decimal(-n)
    decreases if n < 0 then 1 - n else n
  {
    if n < 0 {
      NumbersArePlain(-n);
    } else if n >= 10 {
      NumbersArePlain(n / 10);
    }
  }

  lemma CharIsSafe(c: char)
    ensures forall e <- EscapeChar(c) :: e >= ' ' && e !in {'<', '>', '&', '\U{2028}', '\U{2029}'}
  {
    hide Digit;
    forall n: nat | n < 16
      ensures 'f' >= Digit(n) >= '0' && Digit(n) !in {'<', '>'}
    {
      DigitIsSafe(n);
    }
  }

  lemma DigitIsSafe(n: nat)
    requires n < 16
    ensures 'f' >= Digit(n) >= '0' && Digit(n) !in {'<', '>'}
  {
  }

  /** And the case of the pool never shows. */
  lemma PoolCaseIsIgnored(x: Canon, y: Canon)
    requires x == y.(pool := x.pool)
    ensures Encode(x) == Encode(y) <==> ToLower(x.pool) == ToLower(y.pool)
  {
    if Encode(x) == Encode(y) {
      CanonicalIsInjective(x, y);
    }
  }

  // ---------- The on-chain score ----------

  /** round(min(|z|, 655.35) * 100), at most 65535. */
  function ScoreFromZ(z: real): (score: nat)
    ensures score <= 65535
  {
    var abs := if z < 0.0 then -z else z;
    var capped := if abs < 655.35 then abs else 655.35;
    var scaled := (capped * 100.0 + 0.5).Floor;
    if scaled >= 65535 then 65535 else scaled
  }

  /** The score is the nearest hundredth of the magnitude, or the largest there is. */
  lemma ScoreIsNearest(z: real)
    ensures var abs := if z < 0.0 then -z else z;
            if abs < 655.345 then ScoreFromZ(z) as real - 0.5 <= 100.0 * abs < ScoreFromZ(z) as real + 0.5
            else ScoreFromZ(z) == 65535
  {
  }

  /** The score keeps the order of magnitudes and saturates exactly from 655.345 on. */
  lemma ScoreOrder(a: real, b: real)
    requires 0.0 <= a <= b
    ensures ScoreFromZ(a) <= ScoreFromZ(b) && ScoreFromZ(-b) == ScoreFromZ(b)
    ensures ScoreFromZ(b) == 65535 <==> b >= 655.345
  {
  }
}
