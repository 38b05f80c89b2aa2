// The command line the agent logs before it broadcasts a ruling. Quoting is
// shown to lose nothing: splitting the line at spaces and undoing the quoting
// gives back the argument vector, whatever the rationale says.
module Executor {
  import opened Wrappers

  const CAST_SEND := "send"
  const RESOLVE_DISPUTE_SIGNATURE := "resolveDispute(uint256,uint8,string)"
  const FLAG_RPC_URL := "--rpc-url"
  const FLAG_CHAIN_ID := "--chain-id"
  const FLAG_PRIVATE_KEY := "--private-key"
  const REDACTED := "***REDACTED***"

  datatype Decision = Decision(ruling: nat, rationale: string)

  datatype Config = Config(binary: string, rpcURL: string, chainID: string, escrow: string)

  function Digit(d: nat): char
    requires d < 10
  {
    "0123456789"[d]
  }

  function Decimal(n: nat): string {
    if n < 10 then [Digit(n)] else Decimal(n / 10) + [Digit(n % 10)]
  }

  function Args(e: Config, escrowID: nat, decision: Decision, key: string): seq<string> {
    [CAST_SEND, e.escrow, RESOLVE_DISPUTE_SIGNATURE, Decimal(escrowID), Decimal(decision.ruling), decision.rationale,
     FLAG_RPC_URL, e.rpcURL, FLAG_CHAIN_ID, e.chainID, FLAG_PRIVATE_KEY, key]
  }

  // ---- Quoting, as strconv.Quote documents it -----------------------------

  /** Which characters the library prints as themselves. */
  type Printable = char -> bool

  function HexDigit(d: nat): char
    requires d < 16
  {
    "0123456789abcdef"[d]
  }

  /** The last k hexadecimal digits of n. */
  function Hex(n: nat, k: nat): (s: string)
    ensures |s| == k
  {
    if k == 0 then "" else Hex(n / 16, k - 1) + [HexDigit(n % 16)]
  }

  function Short(c: char): Option<char> {
    match c as int
    case 7 => Some('a')
    case 8 => Some('b')
    case 12 => Some('f')
    case 10 => Some('n')
    case 13 => Some('r')
    case 9 => Some('t')
    case 11 => Some('v')
    case _ => None
  }

  function Escape(isPrint: Printable, c: char): string {
    if c == '"' || c == '\\' then ['\\', c]
    else if isPrint(c) then [c]
    else if Short(c).Some? then ['\\', Short(c).value]
    else if c < ' ' || c as int == 0x7f then ['\\', 'x'] + Hex(c as int, 2)
    else if c as int < 0x10000 then ['\\', 'u'] + Hex(c as int, 4)
    else ['\\', 'U'] + Hex(c as int, 8)
  }

  function Escapes(isPrint: Printable, s: string): string {
    if s == "" then "" else Escape(isPrint, s[0]) + Escapes(isPrint, s[1..])
  }

  predicate Special(c: char) {
    c == ' ' || c == '\t' || c == '\n' || c == '"' || c == '\'' || c == '\\'
  }

  predicate Ambiguous(arg: string) {
    arg == "" || exists i :: 0 <= i < |arg| && Special(arg[i])
  }

  function QuoteArg(isPrint: Printable, arg: string): string {
    if Ambiguous(arg) then "\"" + Escapes(isPrint, arg) + "\"" else arg
  }

  function Join(parts: seq<string>): string {
    if parts == [] then ""
    else if |parts| == 1 then parts[0]
    else parts[0] + " " + Join(parts[1..])
  }

  function QuoteAll(isPrint: Printable, parts: seq<string>): seq<string> {
    seq(|parts|, i requires 0 <= i < |parts| => QuoteArg(isPrint, parts[i]))
  }

  // ---- Reading it back ----------------------------------------------------

  function HexValue(c: char): Option<nat> {
    if '0' <= c <= '9' then Some(c as int - '0' as int)
    else if 'a' <= c <= 'f' then Some(c as int - 'a' as int + 10)
    else None
  }

  function ParseHex(s: string): Option<nat> {
    if s == "" then Some(0) else
      var high, low := ParseHex(s[..|s| - 1]), HexValue(s[|s| - 1]);
      if high.None? || low.None? then None else Some(16 * high.value + low.value)
  }

  predicate IsRune(n: nat) { n < 0xD800 || 0xE000 <= n < 0x11_0000 }

  function LongForm(c: char): nat {
    match c case 'x' => 2 case 'u' => 4 case 'U' => 8 case _ => 0
  }

  function ShortForm(c: char): Option<char> {
    match c
    case 'a' => Some(7 as char)
    case 'b' => Some(8 as char)
    case 'f' => Some(12 as char)
    case 'n' => Some(10 as char)
    case 'r' => Some(13 as char)
    case 't' => Some(9 as char)
    case 'v' => Some(11 as char)
    case '"' => Some('"')
    case '\\' => Some('\\')
    case _ => None
  }

  /** One possibly escaped character, and how much text it took. */
  function Unescape(s: string): (r: Option<(char, nat)>)
    requires s != ""
    ensures r.Some? ==> 0 < r.value.1 <= |s|
  {
    if s[0] != '\\' then Some((s[0], 1))
    else if |s| == 1 then None
    else if ShortForm(s[1]).Some? then Some((ShortForm(s[1]).value, 2))
    else
      var k := LongForm(s[1]);
      if k == 0 || |s| < 2 + k then None else
        match ParseHex(s[2..2 + k])
        case None => None
        case Some(n) => if IsRune(n) then Some((n as char, 2 + k)) else None
  }

  /** The rest of a quoted token, and what follows its closing quote. */
  function Unquote(s: string): (r: Option<(string, string)>)
    ensures r.Some? ==> |r.value.1| < |s|
    decreases |s|
  {
    if s == "" then None
    else if s[0] == '"' then Some(("", s[1..]))
    else
      match Unescape(s)
      case None => None
      case Some((c, k)) =>
        match Unquote(s[k..])
        case None => None
        case Some((t, rest)) => Some(([c] + t, rest))
  }

  function FirstSpace(s: string): (k: nat)
    ensures k <= |s| && (k < |s| ==> s[k] == ' ') && forall i | 0 <= i < k :: s[i] != ' '
  {
    if s == "" || s[0] == ' ' then 0 else 1 + FirstSpace(s[1..])
  }

  /** The first token, and what follows it. */
  function TakeToken(s: string): (r: Option<(string, string)>)
    ensures r.Some? ==> |r.value.1| < |s|
  {
    if s != "" && s[0] == '"' then Unquote(s[1..])
    else
      var k := FirstSpace(s);
      if k == 0 then None else Some((s[..k], s[k..]))
  }

  /** Splits at spaces, except inside quotes. */
  function Tokens(s: string): Option<seq<string>>
    decreases |s|
  {
    match TakeToken(s)
    case None => None
    case Some((t, rest)) =>
      if rest == "" then Some([t])
      else if rest[0] != ' ' then None
      else
        match Tokens(rest[1..])
        case None => None
        case Some(more) => Some([t] + more)
  }

  // ---- Nothing is lost ----------------------------------------------------

  function Pow16(k: nat): nat { if k == 0 then 1 else 16 * Pow16(k - 1) }

  lemma {:induction false} HexReadsBack(n: nat, k: nat)
    requires n < Pow16(k)
    ensures ParseHex(Hex(n, k)) == Some(n)
  {
    if k > 0 {
      HexReadsBack(n / 16, k - 1);
      assert Hex(n, k)[..k - 1] == Hex(n / 16, k - 1);
      HexDigitReadsBack(n % 16);
      assert n == 16 * (n / 16) + n % 16;
      hide HexDigit, HexValue;
    }
  }

  lemma HexDigitReadsBack(d: nat)
    requires d < 16
    ensures HexValue(HexDigit(d)) == Some(d)
  {}

  lemma LongFormReadsBack(c: char, form: char, tail: string)
    requires LongForm(form) > 0 && ShortForm(form).None? && c as int < Pow16(LongForm(form))
    ensures var k := LongForm(form); Unescape(['\\', form] + Hex(c as int, k) + tail) == Some((c, 2 + k))
  {
    var k := LongForm(form);
    var s := ['\\', form] + Hex(c as int, k) + tail;
    assert s[2..2 + k] == Hex(c as int, k);
    HexReadsBack(c as int, k);
  }

  lemma EscapeReadsBack(isPrint: Printable, c: char, tail: string)
    ensures var e := Escape(isPrint, c);
            e != "" && e[0] != '"' && Unescape(e + tail) == Some((c, |e|))
  {
    var n := c as int;
    var e := Escape(isPrint, c);
    assert Pow16(2) == 0x100 && Pow16(4) == 0x10000 && Pow16(8) == 0x1_0000_0000 by {
      assert Pow16(0) == 1 && Pow16(1) == 16 && Pow16(3) == 0x1000;
      assert Pow16(5) == 0x10_0000 && Pow16(6) == 0x100_0000 && Pow16(7) == 0x1000_0000;
    }
    if c == '"' || c == '\\' || isPrint(c) || Short(c).Some? {
    } else if c < ' ' || n == 0x7f {
      LongFormReadsBack(c, 'x', tail);
    } else if n < 0x10000 {
      LongFormReadsBack(c, 'u', tail);
    } else {
      LongFormReadsBack(c, 'U', tail);
    }
  }

  lemma {:induction false} QuotedReadsBack(isPrint: Printable, t: string, rest: string)
    ensures Unquote(Escapes(isPrint, t) + "\"" + rest) == Some((t, rest))
  {
    hide Escape, Unescape;
    var s := Escapes(isPrint, t) + "\"" + rest;
    if t == "" {
      assert s == "\"" + rest;
    } else {
      var e := Escape(isPrint, t[0]);
      var more := Escapes(isPrint, t[1..]) + "\"" + rest;
      assert s == e + more;
      EscapeReadsBack(isPrint, t[0], more);
      assert s[|e|..] == more;
      QuotedReadsBack(isPrint, t[1..], rest);
      assert t == [t[0]] + t[1..];
    }
  }

  lemma BareReadsBack(t: string, rest: string)
    requires !Ambiguous(t) && (rest == "" || rest[0] == ' ')
    ensures TakeToken(t + rest) == Some((t, rest))
  {
    var s := t + rest;
    assert !Special(t[0]) && s[0] == t[0];
    var k := FirstSpace(s);
    assert forall i | 0 <= i < |t| :: s[i] == t[i] && !Special(t[i]);
    assert rest != "" ==> s[|t|] == rest[0];
    assert k == |t|;
    assert s[..k] == t && s[k..] == rest;
  }

  lemma TokenReadsBack(isPrint: Printable, t: string, rest: string)
    requires rest == "" || rest[0] == ' '
    ensures TakeToken(QuoteArg(isPrint, t) + rest) == Some((t, rest))
  {
    hide Unquote, FirstSpace, Escapes, Special;
    if Ambiguous(t) {
      var inner := Escapes(isPrint, t) + "\"" + rest;
      QuotedReadsBack(isPrint, t, rest);
      assert QuoteArg(isPrint, t) + rest == "\"" + inner;
      assert ("\"" + inner)[1..] == inner;
    } else {
      BareReadsBack(t, rest);
    }
  }

  /** Tokenising a rendered command gives back its arguments, one for one. */
  lemma {:induction false} RenderingReadsBack(isPrint: Printable, parts: seq<string>)
    requires parts != []
    ensures Tokens(Join(QuoteAll(isPrint, parts))) == Some(parts)
    decreases |parts|
  {
    hide TakeToken, QuoteArg;
    var quoted := QuoteAll(isPrint, parts);
    if |parts| == 1 {
      TokenReadsBack(isPrint, parts[0], "");
      assert QuoteArg(isPrint, parts[0]) + "" == Join(quoted);
      assert parts == [parts[0]];
    } else {
      var rest := " " + Join(quoted[1..]);
      TokenReadsBack(isPrint, parts[0], rest);
      assert Join(quoted) == quoted[0] + rest;
      assert quoted[1..] == QuoteAll(isPrint, parts[1..]);
      RenderingReadsBack(isPrint, parts[1..]);
      assert rest[1..] == Join(quoted[1..]);
      assert parts == [parts[0]] + parts[1..];
    }
  }

  /** The logged line determines the argument vector. */
  lemma RenderingIsInjective(isPrint: Printable, a: seq<string>, b: seq<string>)
    requires a != [] && b != []
    ensures Join(QuoteAll(isPrint, a)) == Join(QuoteAll(isPrint, b)) <==> a == b
  {
    RenderingReadsBack(isPrint, a);
    RenderingReadsBack(isPrint, b);
  }

  // ---- What the arguments say ---------------------------------------------

  /** Decimal text read from the left, if it is nothing but digits. */
  function ReadDecimal(s: string, acc: nat): Option<nat> {
    if s == "" then Some(acc)
    else if '0' <= s[0] <= '9' then ReadDecimal(s[1..], 10 * acc + (s[0] as int - '0' as int))
    else None
  }

  function Value(s: string): Option<nat> { if s == "" then None else ReadDecimal(s, 0) }

  lemma DigitReads(d: nat)
    requires d < 10
    ensures '0' <= Digit(d) <= '9' && Digit(d) as int - '0' as int == d
  {}

  lemma {:induction false} ReadsOneMore(s: string, acc: nat, d: nat)
    requires d < 10
    ensures ReadDecimal(s + [Digit(d)], acc) ==
              match ReadDecimal(s, acc) case None => None case Some(n) => Some(10 * n + d)
    decreases |s|
  {
    DigitReads(d);
    if s == "" {
      assert s + [Digit(d)] == [Digit(d)] && [Digit(d)][1..] == "";
    } else {
      assert (s + [Digit(d)])[1..] == s[1..] + [Digit(d)];
      if '0' <= s[0] <= '9' { ReadsOneMore(s[1..], 10 * acc + (s[0] as int - '0' as int), d); }
    }
  }

  /** A rendered number reads back, and starts with a zero only if it is zero. */
  lemma {:induction false} DecimalReadsBack(n: nat)
    ensures Value(Decimal(n)) == Some(n) && Decimal(n) != ""
    ensures Decimal(n)[0] == '0' ==> n == 0
  {
    if n < 10 {
      DigitReads(n);
      ReadsOneMore("", 0, n);
      assert "" + [Digit(n)] == [Digit(n)];
    } else {
      DecimalReadsBack(n / 10);
      ReadsOneMore(Decimal(n / 10), 0, n % 10);
      assert n == 10 * (n / 10) + n % 10;
    }
  }

  lemma DecimalIsInjective(m: nat, n: nat)
    requires Decimal(m) == Decimal(n)
    ensures m == n
  {
    DecimalReadsBack(m);
    DecimalReadsBack(n);
  }

  /** tokens is the call cast is to make: this ruling on this escrow, with this
      rationale, sent to this contract on this chain. */
  predicate Encodes(tokens: seq<string>, e: Config, escrowID: nat, decision: Decision, key: string) {
    && |tokens| == 13 && tokens[0] == e.binary && tokens[1] == "send" && tokens[2] == e.escrow
    && tokens[3] == "resolveDispute(uint256,uint8,string)"
    && Value(tokens[4]) == Some(escrowID) && Value(tokens[5]) == Some(decision.ruling) && tokens[6] == decision.rationale
    && tokens[7] == "--rpc-url" && tokens[8] == e.rpcURL && tokens[9] == "--chain-id" && tokens[10] == e.chainID
    && tokens[11] == "--private-key" && tokens[12] == key
  }

  lemma ArgsEncode(e: Config, escrowID: nat, decision: Decision, key: string)
    ensures Encodes([e.binary] + Args(e, escrowID, decision, key), e, escrowID, decision, key)
  {
    DecimalReadsBack(escrowID);
    DecimalReadsBack(decision.ruling);
    hide Value, Decimal;
  }

  // ---- What the quoting looks like ----------------------------------------

  /** An argument is quoted exactly when it is empty or holds a space, a tab, a
      newline, a quote of either kind or a backslash. */
  lemma QuotedOnlyIfNeeded(isPrint: Printable, arg: string)
    ensures QuoteArg(isPrint, arg) == arg <==>
            arg != "" && forall i | 0 <= i < |arg| :: arg[i] !in {' ', '\t', '\n', '\"', '\'', '\\'}
    ensures var q := QuoteArg(isPrint, arg); q != arg ==> |q| >= 2 && q[0] == '\"' && q[|q| - 1] == '\"'
  {
    EscapesGrow(isPrint, arg);
  }

  lemma {:induction false} EscapesGrow(isPrint: Printable, s: string)
    ensures |Escapes(isPrint, s)| >= |s|
  {
    if s != "" { EscapesGrow(isPrint, s[1..]); }
  }

  /** The escapes strconv.Quote documents, for a printer of ASCII text. */
  lemma EscapesAsDocumented(isPrint: Printable, c: char)
    requires forall c: char | c < ' ' || c as int == 0x7f :: !isPrint(c)
    ensures Escape(isPrint, '\n') == "\\n" && Escape(isPrint, '\t') == "\\t" && Escape(isPrint, '\r') == "\\r"
    ensures Escape(isPrint, '\"') == "\\\"" && Escape(isPrint, '\\') == "\\\\"
    ensures Escape(isPrint, 1 as char) == "\\x01" && Escape(isPrint, 0x7f as char) == "\\x7f"
    ensures isPrint(c) && c != '\"' && c != '\\' ==> Escape(isPrint, c) == [c]
  {
    HexByte(1);
    HexByte(0x7f);
  }

  lemma HexByte(n: nat)
    requires n < 0x100
    ensures Hex(n, 2) == [HexDigit(n / 16), HexDigit(n % 16)]
  {
    assert Hex(n / 16 / 16, 0) == "";
    assert Hex(n / 16, 1) == [HexDigit(n / 16)];
  }

  /** Two logged lines agree only if they are for the same escrow, the same
      ruling and rationale, and the same chain, contract and binary. */
  lemma LineNamesTheRuling(isPrint: Printable, e: Config, id: nat, d: Decision, e': Config, id': nat, d': Decision)
    ensures Join(QuoteAll(isPrint, [e.binary] + Args(e, id, d, REDACTED))) == Join(QuoteAll(isPrint, [e'.binary] + Args(e', id', d', REDACTED)))
            <==> e == e' && id == id' && d == d'
  {
    var a, b := [e.binary] + Args(e, id, d, REDACTED), [e'.binary] + Args(e', id', d', REDACTED);
    RenderingIsInjective(isPrint, a, b);
    hide QuoteAll, Join;
    if a == b {
      assert a[0] == b[0] && a[2] == b[2] && a[4] == b[4] && a[5] == b[5] && a[6] == b[6] && a[8] == b[8] && a[10] == b[10];
      DecimalIsInjective(id, id');
      DecimalIsInjective(d.ruling, d'.ruling);
    }
  }

  /** The loop that quotes the arguments one by one. */
  method Render(isPrint: Printable, parts: seq<string>) returns (line: string)
    requires parts != []
    ensures Tokens(line) == Some(parts)
  {
    var quoted := new string[|parts|](_ => "");
    for i := 0 to |parts|
      invariant forall j | 0 <= j < i :: quoted[j] == QuoteArg(isPrint, parts[j])
    {
      quoted[i] := QuoteArg(isPrint, parts[i]);
    }
    line := Join(quoted[..]);
    assert quoted[..] == QuoteAll(isPrint, parts);
    RenderingReadsBack(isPrint, parts);
  }

  /** The command that runs, with only its last argument, the key, replaced. */
  lemma OnlyTheKeyIsRedacted(e: Config, escrowID: nat, decision: Decision, key: string)
    ensures Args(e, escrowID, decision, REDACTED) == Args(e, escrowID, decision, key)[11 := REDACTED]
  {}

  /** What is logged reads back as exactly the binary and the arguments that
      run, whatever the key, up to the placeholder in the key's place. */
  method RedactedCommand(isPrint: Printable, e: Config, escrowID: nat, decision: Decision) returns (line: string)
    ensures forall key :: Tokens(line) == Some([e.binary] + Args(e, escrowID, decision, key)[11 := REDACTED])
    ensures Tokens(line).Some? && Encodes(Tokens(line).value, e, escrowID, decision, "***REDACTED***")
  {
    ArgsEncode(e, escrowID, decision, REDACTED);
    line := Render(isPrint, [e.binary] + Args(e, escrowID, decision, REDACTED));
    forall key ensures Tokens(line) == Some([e.binary] + Args(e, escrowID, decision, key)[11 := REDACTED]) {
      OnlyTheKeyIsRedacted(e, escrowID, decision, key);
    }
  }
}
