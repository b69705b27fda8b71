/** The SMTP commands from which `generate_packets` chooses. */
module Templates {
  import opened Bytes
  import opened Tokens
  import opened Random
  import Scanner

  /** A literal all of whose characters are ASCII. */
  type Line = s: string | forall i | 0 <= i < |s| :: s[i] < 128 as char

  function Then(a: Line, b: Line): Line { a + b }

  const HELO: Line := "HELO my.domain\r\n"
  const EHLO_IPV4: Line := "EHLO [127.0.0.1]\r\n"
  const EHLO_IPV6: Line := Then("EHLO IPv6:2001:0db8:85a3:", "0000:0000:8a2e:0370:7334\r\n")
  const MAIL_IPV6: Line := Then("MAIL FROM:<user@[IPv6:::", "ffff:7f00:1]>\r\n")
  const RCPT: Line := "RCPT TO:<postmaster@localhost>\r\n"
  const DATA: Line := "DATA\r\n"
  const HEADER_FROM: Line := "From: \"User Name\" <username@gmail.com>\r\n"
  const HEADER_TO: Line := "To: \"John Smith\" <john@example.com>\r\n"
  const SUBJECT_AND_BODY: Line := "Subject: This is a test\r\n\r\ncontent\r\n"
  const MESSAGE: Line := Then(HEADER_FROM, Then(HEADER_TO, SUBJECT_AND_BODY))
  const END_OF_DATA: Line := ".\r\n"
  const RSET: Line := "RSET\r\n"
  const VRFY: Line := "VRFY user\r\n"
  const EXPN: Line := "EXPN mailing-list\r\n"
  const QUIT: Line := "QUIT\r\n"
  const ATRN: Line := "ATRN localhost,my.domain\r\n"
  const AUTH: Line := "AUTH PLAIN\r\n"
  const AUTH_DATA: Line := "AHRlc3QAdGVzdA==\r\n"
  const BDAT: Line := "BDAT 10\r\n"
  const CHUNK_A: Line := "AAAAAAAAAA"
  const BDAT_LAST: Line := "BDAT 10 LAST\r\n"
  const CHUNK_B: Line := "BBBBBBBBBB"
  const MAIL_8BIT: Line := Then("MAIL FROM:<user@localhost> ", "BODY=8BITMIME\r\n")
  const MAIL_BINARY: Line := Then("MAIL FROM:<user@localhost> ", "BODY=BINARYMIME\r\n")
  const AUTH_INLINE: Line := "AUTH PLAIN AHRlc3QAdGVzdA==\r\n"
  const SIZE: Line := "SIZE 1000\r\n"
  const MAIL_SIZE: Line := Then("MAIL FROM:<yaboi@localhost> ", "SIZE=1234\r\n")

  function Template(k: nat): (lines: seq<Line>)
    requires k <= 17
    ensures 1 <= |lines| <= 4
  {
    match k
    case 0 => [HELO]
    case 1 => [EHLO_IPV4]
    case 2 => [EHLO_IPV6]
    case 3 => [MAIL_IPV6]
    case 4 => [RCPT]
    case 5 => [DATA, MESSAGE, END_OF_DATA]
    case 6 => [RSET]
    case 7 => [VRFY]
    case 8 => [EXPN]
    case 9 => [QUIT]
    case 10 => [ATRN]
    case 11 => [AUTH, AUTH_DATA, ATRN]
    case 12 => [BDAT, CHUNK_A, BDAT_LAST, CHUNK_B]
    case 13 => [MAIL_8BIT]
    case 14 => [MAIL_BINARY]
    case 15 => [AUTH_INLINE]
    case 16 => [SIZE]
    case _ => [MAIL_SIZE]
  }

  predicate EndsLine(s: string) { |s| >= 2 && s[|s| - 2] == '\r' && s[|s| - 1] == '\n' }

  lemma {:induction false} TemplateSizes(k: nat)
    requires k <= 17
    ensures |Template(k)| == if k == 12 then 4 else if k == 5 || k == 11 then 3 else 1
  {
  }

  /** Every line is an SMTP line with its end, but for the two chunks of BDAT, which are of the size announced in
      front of them (section 2 of RFC 3030). */
  lemma {:induction false} LinesEnd(k: nat, i: nat)
    requires k <= 17 && i < |Template(k)|
    ensures EndsLine(Template(k)[i]) <==> !(k == 12 && i in {1, 3})
    ensures k == 12 && i in {1, 3} ==> |Template(k)[i]| == 10
  {
    if k == 12 {
      ChunksEnd(i);
    } else if k <= 9 {
      FirstLinesEnd(k, i);
    } else {
      LastLinesEnd(k, i);
    }
  }

  lemma {:induction false} ChunksEnd(i: nat)
    requires i < |Template(12)|
    ensures EndsLine(Template(12)[i]) <==> i !in {1, 3}
    ensures i in {1, 3} ==> |Template(12)[i]| == 10
  {
  }

  lemma {:induction false} FirstLinesEnd(k: nat, i: nat)
    requires k <= 9 && i < |Template(k)|
    ensures EndsLine(Template(k)[i])
  {
  }

  lemma {:induction false} LastLinesEnd(k: nat, i: nat)
    requires 10 <= k <= 17 && k != 12 && i < |Template(k)|
    ensures EndsLine(Template(k)[i])
  {
  }

  /** The packets parsed from the lines of a template. */
  ghost predicate ParsedFrom(packets: seq<seq<Token>>, lines: seq<Line>) {
    && |packets| == |lines|
    && forall i | 0 <= i < |lines| :: Scanner.Parse(Ascii(lines[i])) == Ok(packets[i])
  }

  /** The packets that the lines parse to. */
  lemma {:induction false} PacketsOf(lines: seq<Line>) returns (packets: seq<seq<Token>>)
    ensures ParsedFrom(packets, lines)
  {
    packets := [];
    for i := 0 to |lines|
      invariant |packets| == i
      invariant forall k | 0 <= k < i :: Scanner.Parse(Ascii(lines[k])) == Ok(packets[k])
    {
      Scanner.ParseOutcome(Ascii(lines[i]));
      packets := packets + [Scanner.Parse(Ascii(lines[i])).value];
    }
  }

  method ParseLines(lines: seq<Line>) returns (packets: seq<seq<Token>>)
    ensures ParsedFrom(packets, lines)
    ensures forall p | p in packets :: Canonical(p)
  {
    packets := [];
    for i := 0 to |lines|
      invariant |packets| == i
      invariant forall k | 0 <= k < i :: Scanner.Parse(Ascii(lines[k])) == Ok(packets[k])
      invariant forall p | p in packets :: Canonical(p)
    {
      var text := Ascii(lines[i]);
      Scanner.ParseOutcome(text);
      Scanner.ParsePrints(text);
      var parsed := Scanner.FromStr(text);
      packets := packets + [parsed.value];
    }
  }

  /** `generate_packets`: one of eighteen templates, every line of which parses. */
  method GeneratePackets(rand: Rand) returns (packets: seq<seq<Token>>)
    modifies rand
    ensures ParsedFrom(packets, Template(rand.Draw(old(rand.pos), 0, 17)))
    ensures rand.pos == old(rand.pos) + 1
    ensures 1 <= |packets| <= 4
    ensures forall p | p in packets :: Canonical(p)
  {
    var k := rand.Between(0, 17);
    packets := ParseLines(Template(k));
  }
}
