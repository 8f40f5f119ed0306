/** The packet layer of the GDB stub (gdbstub.c): the byte-at-a-time parser of
    `gdb_read_byte`, and the encoders `memtox` and `put_packet_binary`.

    The format is that of the GDB Remote Serial Protocol, Appendix E, "Overview". */
module GdbPacket {

  newtype byte = b: int | 0 <= b < 256

  /** `sizeof(line_buf)`. */
  const MAX_PACKET_LENGTH := 4096

  const DOLLAR: byte := 0x24
  const HASH: byte := 0x23
  const STAR: byte := 0x2A
  const BRACE: byte := 0x7D
  const PLUS: byte := 0x2B
  const MINUS: byte := 0x2D
  const SPACE: byte := 0x20

  // ------------------------------------------------------------------ hexadecimal digits

  function FromHex(v: byte): (r: byte) {
    if 0x30 <= v <= 0x39 then v - 0x30
    else if 0x41 <= v <= 0x46 then v - 0x41 + 10
    else if 0x61 <= v <= 0x66 then v - 0x61 + 10
    else 0
  }

  function ToHex(v: byte): (r: byte)
    requires v < 16
    ensures IsHexDigit(r) && FromHex(r) == v
  {
    if v < 10 then v + 0x30 else v - 10 + 0x61
  }

  predicate IsHexDigit(v: byte) {
    0x30 <= v <= 0x39 || 0x41 <= v <= 0x46 || 0x61 <= v <= 0x66
  }

  /** `c ^ 0x20`. */
  function Flip(c: byte): (r: byte)
    ensures r as int == if (c as int / 32) % 2 == 0 then c as int + 32 else c as int - 32
  {
    if (c as int / 32) % 2 == 0 then (c as int + 32) as byte else (c as int - 32) as byte
  }

  lemma FlipTwice(c: byte)
    ensures Flip(Flip(c)) == c
  {}

  // ------------------------------------------------------------------ the parser on values

  datatype RSState = Idle | GetLine | GetLineEsc | GetLineRle | Chksum1 | Chksum2

  /** `line` is the part of `line_buf` below `line_buf_index`. `sent` is what went to
      `put_buffer`; `handled` holds the arguments of the calls of `gdb_handle_packet`. */
  datatype Parser = Parser(state: RSState, line: seq<byte>, sum: int, csum: int,
                           sent: seq<byte>, handled: seq<seq<byte>>)

  function Repeat(b: byte, n: nat): (r: seq<byte>)
    ensures |r| == n && forall i :: 0 <= i < n ==> r[i] == b
  {
    seq(n, _ => b)
  }

  function GetLineStep(p: Parser, ch: byte): (q: Parser) {
    if ch == BRACE then p.(state := GetLineEsc, sum := p.sum + ch as int)
    else if ch == STAR then p.(state := GetLineRle, sum := p.sum + ch as int)
    else if ch == HASH then p.(state := Chksum1)
    else if |p.line| >= MAX_PACKET_LENGTH - 1 then p.(state := Idle)
    else p.(line := p.line + [ch], sum := p.sum + ch as int)
  }

  function EscStep(p: Parser, ch: byte): (q: Parser) {
    if ch == HASH then p.(state := Chksum1)
    else if |p.line| >= MAX_PACKET_LENGTH - 1 then p.(state := Idle)
    else p.(line := p.line + [Flip(ch)], sum := p.sum + ch as int, state := GetLine)
  }

  predicate IsCount(ch: byte) {
    SPACE <= ch <= 126 && ch != HASH && ch != DOLLAR
  }

  function Count(ch: byte): (n: nat)
    requires IsCount(ch)
  {
    (ch - SPACE) as nat + 3
  }

  function RleStep(p: Parser, ch: byte): (q: Parser) {
    if !IsCount(ch) then p.(state := GetLine)
    else if |p.line| + Count(ch) >= MAX_PACKET_LENGTH - 1 then p.(state := Idle)
    else if |p.line| < 1 then p.(state := GetLine)
    else p.(line := p.line + Repeat(p.line[|p.line| - 1], Count(ch)), sum := p.sum + ch as int, state := GetLine)
  }

  function ChecksumStep(p: Parser, ch: byte): (q: Parser) {
    if !IsHexDigit(ch) then p.(state := GetLine)
    else if p.state.Chksum1? then p.(csum := FromHex(ch) as int * 16, state := Chksum2)
    else
      var csum := p.csum + FromHex(ch) as int;
      if csum != p.sum % 256 then p.(csum := csum, sent := p.sent + [MINUS], state := Idle)
      else p.(csum := csum, sent := p.sent + [PLUS], handled := p.handled + [p.line], state := Idle)
  }

  /** The reaction to one byte, while the machine is stopped and no reply is outstanding. */
  function Step(p: Parser, ch: byte): (q: Parser) {
    match p.state
    case Idle => if ch == DOLLAR then p.(line := [], sum := 0, state := GetLine) else p
    case GetLine => GetLineStep(p, ch)
    case GetLineEsc => EscStep(p, ch)
    case GetLineRle => RleStep(p, ch)
    case Chksum1 => ChecksumStep(p, ch)
    case Chksum2 => ChecksumStep(p, ch)
  }

  function Feed(p: Parser, bytes: seq<byte>): (q: Parser)
    decreases |bytes|
  {
    if bytes == [] then p else Feed(Step(p, bytes[0]), bytes[1..])
  }

  lemma {:induction false} FeedConcat(p: Parser, a: seq<byte>, b: seq<byte>)
    ensures Feed(p, a + b) == Feed(Feed(p, a), b)
    decreases |a|
  {
    if a == [] {
      assert a + b == b;
    } else {
      assert (a + b)[1..] == a[1..] + b;
      FeedConcat(Step(p, a[0]), a[1..], b);
    }
  }

  /** The line never fills the buffer, so there is always room for the terminator; and a
      half-read checksum is a multiple of 16 below 256, so that the `|=` of the low digit
      is an addition. */
  predicate InBounds(p: Parser) {
    && |p.line| < MAX_PACKET_LENGTH
    && (p.state.Chksum2? ==> p.csum % 16 == 0 && 0 <= p.csum <= 240)
  }

  /** Whatever bytes arrive, the buffer is never overrun, and bytes once accepted are
      answered for good: replies and handled packets are only ever appended. */
  lemma {:induction false} AnyStreamStaysInBounds(p: Parser, bytes: seq<byte>)
    requires InBounds(p)
    ensures InBounds(Feed(p, bytes))
    ensures p.sent <= Feed(p, bytes).sent && p.handled <= Feed(p, bytes).handled
    decreases |bytes|
  {
    if bytes != [] {
      AnyStreamStaysInBounds(Step(p, bytes[0]), bytes[1..]);
    }
  }

  // ------------------------------------------------------------------ the encoders on values

  function ByteSum(s: seq<byte>): (n: int) {
    if s == [] then 0 else ByteSum(s[..|s| - 1]) + s[|s| - 1] as int
  }

  /** `put_packet_binary` adds up values of type `char`, which is signed. */
  function SignedChar(b: byte): (v: int) {
    if b < 128 then b as int else b as int - 256
  }

  function SignedSum(s: seq<byte>): (n: int) {
    if s == [] then 0 else SignedSum(s[..|s| - 1]) + SignedChar(s[|s| - 1])
  }

  lemma {:induction false} SignedSumIsByteSum(s: seq<byte>)
    ensures SignedSum(s) % 256 == ByteSum(s) % 256
  {
    if s != [] {
      SignedSumIsByteSum(s[..|s| - 1]);
      SameModulo(SignedSum(s[..|s| - 1]), ByteSum(s[..|s| - 1]), SignedChar(s[|s| - 1]), s[|s| - 1] as int);
    }
  }

  lemma SameModulo(a: int, b: int, x: int, y: int)
    requires a % 256 == b % 256 && (x == y || x == y - 256)
    ensures (a + x) % 256 == (b + y) % 256
  {
  }

  lemma {:induction false} ByteSumConcat(a: seq<byte>, b: seq<byte>)
    ensures ByteSum(a + b) == ByteSum(a) + ByteSum(b)
  {
    if b == [] {
      assert a + b == a;
    } else {
      assert (a + b)[..|a + b| - 1] == a + b[..|b| - 1];
      ByteSumConcat(a, b[..|b| - 1]);
    }
  }

  function Footer(csum: int): (r: seq<byte>) {
    [HASH, ToHex(((csum / 16) % 16) as byte), ToHex((csum % 16) as byte)]
  }

  function Frame(buf: seq<byte>): (r: seq<byte>) {
    [DOLLAR] + buf + Footer(SignedSum(buf))
  }

  predicate IsSpecial(c: byte) {
    c == HASH || c == DOLLAR || c == STAR || c == BRACE
  }

  function Escape(mem: seq<byte>): (r: seq<byte>) {
    if mem == [] then []
    else Escape(mem[..|mem| - 1]) + EscapeByte(mem[|mem| - 1])
  }

  function EscapeByte(c: byte): (r: seq<byte>) {
    if IsSpecial(c) then [BRACE, Flip(c)] else [c]
  }

  // ------------------------------------------------------------------ what the parser accepts

  /** The elements of a packet: a plain byte, an escaped byte, a repeat count. */
  datatype Token = Lit(c: byte) | Esc(c: byte) | Run(count: byte)

  function TokenBytes(t: Token): (r: seq<byte>) {
    match t
    case Lit(c) => [c]
    case Esc(c) => [BRACE, Flip(c)]
    case Run(n) => [STAR, n]
  }

  function Bytes(ts: seq<Token>): (r: seq<byte>) {
    if ts == [] then [] else Bytes(ts[..|ts| - 1]) + TokenBytes(ts[|ts| - 1])
  }

  /** What a token adds to the line read so far. */
  function Add(line: seq<byte>, t: Token): (r: seq<byte>) {
    match t
    case Lit(c) => line + [c]
    case Esc(c) => line + [c]
    case Run(n) => if IsCount(n) && line != [] then line + Repeat(line[|line| - 1], Count(n)) else line
  }

  /** Well formed after the line read so far, and fits into the buffer. */
  predicate Fits(line: seq<byte>, t: Token) {
    match t
    case Lit(c) => c != BRACE && c != STAR && c != HASH && |line| < MAX_PACKET_LENGTH - 1
    case Esc(c) => Flip(c) != HASH && |line| < MAX_PACKET_LENGTH - 1
    case Run(n) => IsCount(n) && line != [] && |line| + Count(n) < MAX_PACKET_LENGTH - 1
  }

  function Expand(ts: seq<Token>): (line: seq<byte>) {
    if ts == [] then [] else Add(Expand(ts[..|ts| - 1]), ts[|ts| - 1])
  }

  predicate Legal(ts: seq<Token>) {
    ts == [] || (Legal(ts[..|ts| - 1]) && Fits(Expand(ts[..|ts| - 1]), ts[|ts| - 1]))
  }

  lemma FeedTwo(p: Parser, a: byte, b: byte)
    ensures Feed(p, [a, b]) == Step(Step(p, a), b) && ByteSum([a, b]) == a as int + b as int
    ensures Feed(p, [a]) == Step(p, a) && ByteSum([a]) == a as int
  {
    assert [a, b][1..] == [b] && [a, b][..1] == [a] && [a][..0] == [];
    assert ByteSum([a]) == ByteSum([]) + a as int;
    assert Feed(Step(p, a), [b]) == Step(Step(p, a), b);
  }

  lemma FeedToken(p: Parser, t: Token)
    requires p.state.GetLine? && Fits(p.line, t)
    ensures Feed(p, TokenBytes(t)) == p.(line := Add(p.line, t), sum := p.sum + ByteSum(TokenBytes(t)))
  {
    match t {
      case Lit(c) => FeedTwo(p, c, c);
      case Esc(c) => FeedTwo(p, BRACE, Flip(c)); FlipTwice(c);
      case Run(n) => FeedTwo(p, STAR, n);
    }
  }

  /** The parser in the middle of a packet. */
  function Reading(p: Parser, line: seq<byte>, sum: int): Parser {
    p.(state := GetLine, line := line, sum := sum)
  }

  lemma {:induction false} FeedTokens(p: Parser, ts: seq<Token>)
    requires Legal(ts)
    ensures Feed(Reading(p, [], 0), Bytes(ts)) == Reading(p, Expand(ts), ByteSum(Bytes(ts)))
  {
    if ts != [] {
      var init, t := ts[..|ts| - 1], ts[|ts| - 1];
      FeedTokens(p, init);
      FeedConcat(Reading(p, [], 0), Bytes(init), TokenBytes(t));
      ByteSumConcat(Bytes(init), TokenBytes(t));
      FeedToken(Reading(p, Expand(init), ByteSum(Bytes(init))), t);
    }
  }

  /** The end of a packet: `#` and two hexadecimal digits. */
  lemma FeedFooter(p: Parser, hi: byte, lo: byte)
    requires p.state.GetLine? && IsHexDigit(hi) && IsHexDigit(lo)
    ensures var csum, q := FromHex(hi) as int * 16 + FromHex(lo) as int, Feed(p, [HASH, hi, lo]);
            && q.state == Idle
            && if csum == p.sum % 256
               then q.sent == p.sent + [PLUS] && q.handled == p.handled + [p.line]
               else q.sent == p.sent + [MINUS] && q.handled == p.handled
  {
    assert [HASH, hi, lo][1..] == [hi, lo];
    FeedTwo(Step(p, HASH), hi, lo);
  }

  /** A packet is acknowledged and handled when its two checksum digits are those of the
      sum of its bytes modulo 256, and refused otherwise. This covers run-length encoded
      packets: what is handled is the expansion. */
  lemma PacketAccepted(p: Parser, ts: seq<Token>, hi: byte, lo: byte)
    requires p.state.Idle? && Legal(ts) && IsHexDigit(hi) && IsHexDigit(lo)
    ensures var q := Feed(p, [DOLLAR] + Bytes(ts) + [HASH, hi, lo]);
            && q.state == Idle
            && if FromHex(hi) as int * 16 + FromHex(lo) as int == ByteSum(Bytes(ts)) % 256
               then q.sent == p.sent + [PLUS] && q.handled == p.handled + [Expand(ts)]
               else q.sent == p.sent + [MINUS] && q.handled == p.handled
  {
    var body, footer := Bytes(ts), [HASH, hi, lo];
    assert [DOLLAR] + body + footer == [DOLLAR] + (body + footer);
    FeedConcat(p, [DOLLAR], body + footer);
    FeedTwo(p, DOLLAR, DOLLAR);
    FeedConcat(Reading(p, [], 0), body, footer);
    FeedTokens(p, ts);
    FeedFooter(Reading(p, Expand(ts), ByteSum(body)), hi, lo);
  }

  lemma FooterDigits(csum: int)
    ensures var f := Footer(csum);
            IsHexDigit(f[1]) && IsHexDigit(f[2]) && FromHex(f[1]) as int * 16 + FromHex(f[2]) as int == csum % 256
  {}

  // ------------------------------------------------------------------ the encoders meet the parser

  function Tokens(mem: seq<byte>): (ts: seq<Token>)
    ensures |ts| == |mem|
  {
    if mem == [] then []
    else Tokens(mem[..|mem| - 1]) + [if IsSpecial(mem[|mem| - 1]) then Esc(mem[|mem| - 1]) else Lit(mem[|mem| - 1])]
  }

  lemma TokensInit(mem: seq<byte>)
    requires mem != []
    ensures Tokens(mem)[..|mem| - 1] == Tokens(mem[..|mem| - 1])
  {
  }

  lemma {:induction false} EscapedBytes(mem: seq<byte>)
    ensures Bytes(Tokens(mem)) == Escape(mem)
  {
    if mem != [] {
      TokensInit(mem);
      EscapedBytes(mem[..|mem| - 1]);
    }
  }

  lemma {:induction false} EscapedExpand(mem: seq<byte>)
    ensures Expand(Tokens(mem)) == mem
  {
    if mem != [] {
      TokensInit(mem);
      EscapedExpand(mem[..|mem| - 1]);
      assert mem == mem[..|mem| - 1] + [mem[|mem| - 1]];
    }
  }

  lemma LegalExtends(ts: seq<Token>, t: Token)
    requires Legal(ts) && Fits(Expand(ts), t)
    ensures Legal(ts + [t])
  {
    assert (ts + [t])[..|ts|] == ts;
  }

  lemma {:induction false} EscapedLegal(mem: seq<byte>)
    requires |mem| < MAX_PACKET_LENGTH
    ensures Legal(Tokens(mem))
  {
    if mem != [] {
      var init, ts := mem[..|mem| - 1], Tokens(mem);
      TokensInit(mem);
      EscapedLegal(init);
      EscapedExpand(init);
      assert ts == ts[..|mem| - 1] + [ts[|mem| - 1]];
      LegalExtends(Tokens(init), ts[|mem| - 1]);
    }
  }

  lemma {:induction false} IdleIgnores(p: Parser, bytes: seq<byte>)
    requires p.state.Idle? && DOLLAR !in bytes
    ensures Feed(p, bytes) == p
    decreases |bytes|
  {
    if bytes != [] {
      IdleIgnores(p, bytes[1..]);
    }
  }

  lemma {:induction false} EscapeHidesDollar(mem: seq<byte>)
    ensures DOLLAR !in Escape(mem)
  {
    if mem != [] {
      EscapeHidesDollar(mem[..|mem| - 1]);
    }
  }

  /** Round trip, for every payload that fits the buffer: escaping with `memtox`, framing
      with `put_packet_binary` and feeding the bytes to an idle parser hands over exactly
      the payload and acknowledges it. */
  lemma RoundTrip(p: Parser, mem: seq<byte>)
    requires p.state.Idle? && |mem| < MAX_PACKET_LENGTH
    ensures var q := Feed(p, Frame(Escape(mem)));
            q.state == Idle && q.sent == p.sent + [PLUS] && q.handled == p.handled + [mem]
  {
    EscapedBytes(mem);
    EscapedExpand(mem);
    EscapedLegal(mem);
    var body := Escape(mem);
    SignedSumIsByteSum(body);
    FooterDigits(SignedSum(body));
    var f := Footer(SignedSum(body));
    assert f == [HASH, f[1], f[2]];
    PacketAccepted(p, Tokens(mem), f[1], f[2]);
  }

  lemma {:induction false} EscapePrefix(mem: seq<byte>, k: nat)
    requires k < |mem|
    ensures Escape(mem[..k]) + EscapeByte(mem[k]) <= Escape(mem)
  {
    if k < |mem| - 1 {
      EscapePrefix(mem[..|mem| - 1], k);
      assert mem[..|mem| - 1][..k] == mem[..k];
    }
  }

  lemma Overrun(p: Parser, c: byte, tail: seq<byte>)
    requires p.state.GetLine? && |p.line| == MAX_PACKET_LENGTH - 1 && DOLLAR !in tail
    ensures var q := Feed(p, EscapeByte(c) + tail);
            q.state == Idle && q.sent == p.sent && q.handled == p.handled
  {
    FeedConcat(p, EscapeByte(c), tail);
    FeedTwo(p, BRACE, Flip(c));
    FeedTwo(p, c, c);
    IdleIgnores(Feed(p, EscapeByte(c)), tail);
  }

  lemma FrameSplits(mem: seq<byte>, n: nat) returns (tail: seq<byte>)
    requires n < |mem|
    ensures Frame(Escape(mem)) == [DOLLAR] + (Escape(mem[..n]) + (EscapeByte(mem[n]) + tail))
    ensures DOLLAR !in tail
  {
    EscapePrefix(mem, n);
    EscapeHidesDollar(mem);
    var a, b, body := Escape(mem[..n]), EscapeByte(mem[n]), Escape(mem);
    FooterDigits(SignedSum(body));
    var rest, f := body[|a + b|..], Footer(SignedSum(body));
    assert body == a + b + rest;
    tail := rest + f;
    Regroup([DOLLAR], a, b, rest, f);
  }

  lemma Regroup(x: seq<byte>, a: seq<byte>, b: seq<byte>, c: seq<byte>, d: seq<byte>)
    ensures x + (a + b + c) + d == x + (a + (b + (c + d)))
  {
  }

  /** One byte more and the whole packet is dropped without any reply: the bound of
      `RoundTrip` is exact. */
  lemma TooLongIsDropped(p: Parser, mem: seq<byte>)
    requires p.state.Idle? && |mem| >= MAX_PACKET_LENGTH
    ensures var q := Feed(p, Frame(Escape(mem)));
            q.state == Idle && q.sent == p.sent && q.handled == p.handled
  {
    var n: nat :| n == MAX_PACKET_LENGTH - 1;
    var head := Escape(mem[..n]);
    var tail := FrameSplits(mem, n);
    FeedConcat(p, [DOLLAR], head + (EscapeByte(mem[n]) + tail));
    FeedTwo(p, DOLLAR, DOLLAR);
    FeedConcat(Reading(p, [], 0), head, EscapeByte(mem[n]) + tail);
    EscapedBytes(mem[..n]);
    EscapedExpand(mem[..n]);
    EscapedLegal(mem[..n]);
    FeedTokens(p, Tokens(mem[..n]));
    Overrun(Reading(p, mem[..n], ByteSum(head)), mem[n], tail);
  }

  // ------------------------------------------------------------------ the stub itself

  /** What `gdb_read_byte` does first: deal with the answer to the last packet sent, and
      stop a machine that is running. */
  datatype Stub = Stub(parser: Parser, lastPacket: seq<byte>, vmRunning: bool)

  function Receive(s: Stub, ch: byte): (r: Stub) {
    var resent := if s.lastPacket != [] && ch == MINUS then s.parser.sent + s.lastPacket else s.parser.sent;
    var last := if ch == PLUS || ch == DOLLAR then [] else s.lastPacket;
    if s.lastPacket != [] && ch != DOLLAR then s.(parser := s.parser.(sent := resent), lastPacket := last)
    else if s.vmRunning then s.(lastPacket := last, vmRunning := false)
    else s.(lastPacket := last, parser := Step(s.parser, ch))
  }

  function ReceiveAll(s: Stub, bytes: seq<byte>): (r: Stub)
    decreases |bytes|
  {
    if bytes == [] then s else ReceiveAll(Receive(s, bytes[0]), bytes[1..])
  }

  lemma {:induction false} ReceiveIsFeed(s: Stub, bytes: seq<byte>)
    requires !s.vmRunning && s.lastPacket == []
    ensures ReceiveAll(s, bytes) == s.(parser := Feed(s.parser, bytes))
    decreases |bytes|
  {
    if bytes != [] {
      ReceiveIsFeed(Receive(s, bytes[0]), bytes[1..]);
    }
  }

  /** The round trip through the whole stub: also when a reply is still outstanding, since
      the `$` of a new packet abandons it. */
  lemma StubRoundTrip(s: Stub, mem: seq<byte>)
    requires !s.vmRunning && s.parser.state.Idle? && |mem| < MAX_PACKET_LENGTH
    ensures var r := ReceiveAll(s, Frame(Escape(mem)));
            && r.parser.state == Idle
            && r.parser.sent == s.parser.sent + [PLUS]
            && r.parser.handled == s.parser.handled + [mem]
            && r.lastPacket == []
  {
    var frame := Frame(Escape(mem));
    ReceiveIsFeed(Receive(s, DOLLAR), frame[1..]);
    RoundTrip(s.parser, mem);
  }

  class GdbServer {
    var state: RSState
    const lineBuf: array<byte>
    var lineBufIndex: nat
    var lineSum: int
    var lineCsum: int
    var lastPacket: seq<byte>
    var vmRunning: bool
    var sent: seq<byte>
    var handled: seq<seq<byte>>

    ghost predicate Valid()
      reads this, lineBuf
    {
      lineBuf.Length == MAX_PACKET_LENGTH && lineBufIndex < MAX_PACKET_LENGTH && InBounds(View().parser)
    }

    function View(): Stub
      requires lineBufIndex <= lineBuf.Length
      reads this, lineBuf
    {
      Stub(Parser(state, lineBuf[..lineBufIndex], lineSum, lineCsum, sent, handled), lastPacket, vmRunning)
    }

    constructor ()
      ensures Valid() && fresh(lineBuf)
      ensures View() == Stub(Parser(Idle, [], 0, 0, [], []), [], true)
    {
      state := Idle;
      lineBuf := new byte[MAX_PACKET_LENGTH];
      lineBufIndex, lineSum, lineCsum := 0, 0, 0;
      lastPacket, vmRunning, sent, handled := [], true, [], [];
    }

    method ReadByte(ch: byte)
      requires Valid()
      modifies this, lineBuf
      ensures Valid() && View() == Receive(old(View()), ch)
    {
      if lastPacket != [] {
        if ch == MINUS {
          sent := sent + lastPacket;
        }
        if ch == PLUS || ch == DOLLAR {
          lastPacket := [];
        }
        if ch != DOLLAR {
          return;
        }
      }
      if vmRunning {
        vmRunning := false;
        return;
      }
      match state {
        case Idle =>
          if ch == DOLLAR {
            lineBufIndex, lineSum, state := 0, 0, GetLine;
          }
        case GetLine => ReadPlain(ch);
        case GetLineEsc => ReadEscaped(ch);
        case GetLineRle => ReadRepeat(ch);
        case Chksum1 => ReadChecksum(ch);
        case Chksum2 => ReadChecksum(ch);
      }
    }

    method ReadPlain(ch: byte)
      requires Valid() && state.GetLine?
      modifies this, lineBuf
      ensures Valid() && View() == old(View()).(parser := GetLineStep(old(View()).parser, ch))
    {
      if ch == BRACE {
        state, lineSum := GetLineEsc, lineSum + ch as int;
      } else if ch == STAR {
        state, lineSum := GetLineRle, lineSum + ch as int;
      } else if ch == HASH {
        state := Chksum1;
      } else if lineBufIndex >= lineBuf.Length - 1 {
        state := Idle;
      } else {
        lineBuf[lineBufIndex] := ch;
        lineBufIndex, lineSum := lineBufIndex + 1, lineSum + ch as int;
      }
    }

    method ReadEscaped(ch: byte)
      requires Valid() && state.GetLineEsc?
      modifies this, lineBuf
      ensures Valid() && View() == old(View()).(parser := EscStep(old(View()).parser, ch))
    {
      if ch == HASH {
        state := Chksum1;
      } else if lineBufIndex >= lineBuf.Length - 1 {
        state := Idle;
      } else {
        lineBuf[lineBufIndex] := Flip(ch);
        lineBufIndex, lineSum, state := lineBufIndex + 1, lineSum + ch as int, GetLine;
      }
    }

    method ReadRepeat(ch: byte)
      requires Valid() && state.GetLineRle?
      modifies this, lineBuf
      ensures Valid() && View() == old(View()).(parser := RleStep(old(View()).parser, ch))
    {
      if ch < SPACE || ch == HASH || ch == DOLLAR || ch > 126 {
        state := GetLine;
      } else {
        var repeat := (ch - SPACE) as int + 3;
        if lineBufIndex + repeat >= lineBuf.Length - 1 {
          state := Idle;
        } else if lineBufIndex < 1 {
          state := GetLine;
        } else {
          var last := lineBuf[lineBufIndex - 1];
          forall k | lineBufIndex <= k < lineBufIndex + repeat {
            lineBuf[k] := last;
          }
          lineBufIndex, lineSum, state := lineBufIndex + repeat, lineSum + ch as int, GetLine;
        }
      }
    }

    method ReadChecksum(ch: byte)
      requires Valid() && (state.Chksum1? || state.Chksum2?)
      modifies this, lineBuf
      ensures Valid() && View() == old(View()).(parser := ChecksumStep(old(View()).parser, ch))
      ensures old(state).Chksum1? && state.Chksum2? ==> lineBuf[lineBufIndex] == 0
    {
      if !IsHexDigit(ch) {
        state := GetLine;
      } else if state.Chksum1? {
        lineBuf[lineBufIndex] := 0;
        lineCsum, state := FromHex(ch) as int * 16, Chksum2;
      } else {
        lineCsum := lineCsum + FromHex(ch) as int;
        if lineCsum != lineSum % 256 {
          sent, state := sent + [MINUS], Idle;
        } else {
          sent, handled, state := sent + [PLUS], handled + [lineBuf[..lineBufIndex]], Idle;
        }
      }
    }

    /** `put_packet_binary`, in system emulation: the packet is sent once and kept until it
        is acknowledged. */
    method PutPacketBinary(buf: seq<byte>)
      requires Valid()
      modifies this`lastPacket, this`sent
      ensures Valid() && lastPacket == Frame(buf) && sent == old(sent) + Frame(buf)
    {
      lastPacket := [DOLLAR] + buf;
      var csum, i := 0, 0;
      while i < |buf|
        invariant 0 <= i <= |buf| && csum == SignedSum(buf[..i])
      {
        csum := csum + SignedChar(buf[i]);
        assert buf[..i + 1][..i] == buf[..i];
        i := i + 1;
      }
      assert buf[..i] == buf;
      lastPacket := lastPacket + [HASH, ToHex(((csum / 16) % 16) as byte), ToHex((csum % 16) as byte)];
      sent := sent + lastPacket;
    }
  }

  /** `memtox`: append the escaped form of `mem` to `buf`. */
  method MemToX(buf: seq<byte>, mem: seq<byte>) returns (r: seq<byte>)
    ensures r == buf + Escape(mem)
  {
    r := buf;
    var i := 0;
    while i < |mem|
      invariant 0 <= i <= |mem| && r == buf + Escape(mem[..i])
    {
      var c := mem[i];
      assert mem[..i + 1][..i] == mem[..i];
      if c == HASH || c == DOLLAR || c == STAR || c == BRACE {
        r := r + [BRACE, Flip(c)];
      } else {
        r := r + [c];
      }
      i := i + 1;
    }
    assert mem[..i] == mem;
  }

  // ------------------------------------------------------------------ hexadecimal memory dumps

  function Hex(mem: seq<byte>): (r: seq<byte>)
    ensures |r| == 2 * |mem|
  {
    if mem == [] then []
    else Hex(mem[..|mem| - 1]) + [ToHex(mem[|mem| - 1] / 16), ToHex(mem[|mem| - 1] % 16)]
  }

  lemma {:induction false} HexAt(mem: seq<byte>, i: nat)
    requires i < |mem|
    ensures Hex(mem)[2 * i] == ToHex(mem[i] / 16) && Hex(mem)[2 * i + 1] == ToHex(mem[i] % 16)
  {
    if i < |mem| - 1 {
      HexAt(mem[..|mem| - 1], i);
    }
  }

  /** `memtohex`, with its terminator. */
  method MemToHex(buf: seq<byte>, mem: seq<byte>) returns (r: seq<byte>)
    ensures r == buf + Hex(mem) + [0]
  {
    r := buf;
    var i := 0;
    while i < |mem|
      invariant 0 <= i <= |mem| && r == buf + Hex(mem[..i])
    {
      assert mem[..i + 1][..i] == mem[..i];
      r := r + [ToHex(mem[i] / 16)];
      r := r + [ToHex(mem[i] % 16)];
      i := i + 1;
    }
    assert mem[..i] == mem;
    r := r + [0];
  }

  /** `hextomem` reads back what `memtohex` wrote, for every `len` up to its length. Digits
      that are no hexadecimal digits count as zero. */
  method HexToMem(mem: seq<byte>, buf: seq<byte>, len: nat) returns (r: seq<byte>)
    requires 2 * len <= |buf|
    ensures |r| == |mem| + len && r[..|mem|] == mem
    ensures forall k :: 0 <= k < len ==> r[|mem| + k] == FromHex(buf[2 * k]) * 16 + FromHex(buf[2 * k + 1])
    ensures forall src: seq<byte> :: len <= |src| && Hex(src) <= buf ==> r == mem + src[..len]
  {
    r := mem;
    var i := 0;
    while i < len
      invariant 0 <= i <= len && |r| == |mem| + i && r[..|mem|] == mem
      invariant forall k :: 0 <= k < i ==> r[|mem| + k] == FromHex(buf[2 * k]) * 16 + FromHex(buf[2 * k + 1])
    {
      var b := FromHex(buf[2 * i]) * 16 + FromHex(buf[2 * i + 1]);
      r := r + [b];
      i := i + 1;
    }
    forall src: seq<byte> | len <= |src| && Hex(src) <= buf ensures r == mem + src[..len] {
      forall k | 0 <= k < len ensures r[|mem| + k] == src[k] {
        HexAt(src, k);
      }
    }
  }
}
