/** The tokenizer: three ordered scanners and the loop over them. */
module Scanner {
  import opened Bytes
  import opened Tokens

  function ScanSpace(s: seq<Byte>): Option<Token> {
    var n := Run(s, IsSpace);
    if n == 0 then None else Some(Whitespace(s[..n]))
  }

  function ScanNumber(s: seq<Byte>): Option<Token> {
    var sign := if s != [] && IsSign(s[0]) then 1 else 0;
    var n := Run(s[sign..], IsDigit);
    if n == 0 then None else Some(Number(s[..sign + n]))
  }

  function ScanText(s: seq<Byte>): Option<Token> {
    if s == [] || !IsAscii(s[0]) then None else Some(Text(s[..1 + Run(s[1..], IsTextTail)]))
  }

  /** The first scanner that succeeds wins. */
  function Scan(s: seq<Byte>): (r: Option<Token>)
    ensures r.Some? ==> 0 < |r.value.data| <= |s| && r.value.data == s[..|r.value.data|]
  {
    if ScanSpace(s).Some? then ScanSpace(s)
    else if ScanNumber(s).Some? then ScanNumber(s)
    else ScanText(s)
  }

  function Parse(s: seq<Byte>): Result<seq<Token>, Byte>
    decreases |s|
  {
    if s == [] then Ok([]) else
    match Scan(s)
    case None => Err(s[0])
    case Some(t) =>
      match Parse(s[|t.data|..])
      case Err(b) => Err(b)
      case Ok(ts) => Ok([t] + ts)
  }

  /** The result of a parse, given the tokens read so far and the parse of what remains. */
  function Prepend(ts: seq<Token>, r: Result<seq<Token>, Byte>): Result<seq<Token>, Byte> {
    match r
    case Err(b) => Err(b)
    case Ok(us) => Ok(ts + us)
  }

  lemma {:induction false} ParseStart(s: seq<Byte>)
    ensures Parse(s) == Prepend([], Parse(s[0..]))
  {
    assert s[0..] == s;
    if Parse(s).Ok? {
      assert [] + Parse(s).value == Parse(s).value;
    }
  }

  lemma {:induction false} PrependTwice(ts: seq<Token>, us: seq<Token>, r: Result<seq<Token>, Byte>)
    ensures Prepend(ts, Prepend(us, r)) == Prepend(ts + us, r)
  {
    if r.Ok? {
      Associative(ts, us, r.value);
    }
  }

  lemma {:induction false} ParseOnce(s: seq<Byte>)
    requires s != []
    ensures match Scan(s)
            case None => Parse(s) == Err(s[0])
            case Some(t) => Parse(s) == Prepend([t], Parse(s[|t.data|..]))
  {
  }

  lemma {:induction false} ParseStep(s: seq<Byte>, cursor: nat, stream: seq<Token>)
    requires cursor < |s| && Parse(s) == Prepend(stream, Parse(s[cursor..]))
    ensures match Scan(s[cursor..])
            case None => Parse(s) == Err(s[cursor])
            case Some(t) =>
              && cursor + |t.data| <= |s|
              && Parse(s) == Prepend(stream + [t], Parse(s[cursor + |t.data|..]))
  {
    var rest := s[cursor..];
    ParseOnce(rest);
    if Scan(rest).Some? {
      var t := Scan(rest).value;
      assert rest[|t.data|..] == s[cursor + |t.data|..];
      PrependTwice(stream, [t], Parse(rest[|t.data|..]));
    }
  }

  lemma {:induction false} ParseEnd(s: seq<Byte>, stream: seq<Token>)
    requires Parse(s) == Prepend(stream, Parse(s[|s|..]))
    ensures Parse(s) == Ok(stream)
  {
    assert stream + [] == stream;
  }

  method TryParseWhitespace(data: seq<Byte>) returns (r: Option<Token>)
    ensures r == ScanSpace(data)
  {
    var len := 0;
    for i := 0 to |data|
      invariant len == i
      invariant forall k | 0 <= k < i :: IsSpace(data[k])
    {
      if data[i] in {32, 9, 10, 0x0b, 0x0c, 13} {
        len := len + 1;
      } else {
        break;
      }
    }
    RunIs(data, IsSpace, len);
    if len == 0 {
      r := None;
    } else {
      r := Some(Whitespace(data[0..len]));
    }
  }

  method TryParseNumber(data: seq<Byte>) returns (r: Option<Token>)
    ensures r == ScanNumber(data)
  {
    var sign, len := 0, 0;
    if |data| > 0 && (data[0] == PLUS || data[0] == DASH) {
      sign := 1;
    }
    var digits := data[sign..];
    for i := 0 to |digits|
      invariant len == i
      invariant forall k | 0 <= k < i :: IsDigit(digits[k])
    {
      if IsDigit(digits[i]) {
        len := len + 1;
      } else {
        break;
      }
    }
    RunIs(digits, IsDigit, len);
    if len == 0 {
      r := None;
    } else {
      r := Some(Number(data[0..sign + len]));
    }
  }

  const BLACKLIST: set<Byte> := {32, 9, 10, 0x0b, 0x0c, 13, PLUS, DASH, 48, 49, 50, 51, 52, 53, 54, 55, 56, 57}

  method TryParseText(data: seq<Byte>) returns (r: Option<Token>)
    ensures r == ScanText(data)
  {
    var len := 0;
    for i := 0 to |data|
      invariant len == i
      invariant i > 0 ==> IsAscii(data[0])
      invariant forall k | 1 <= k < i :: IsTextTail(data[k])
    {
      if data[i] >= 0x80 || (data[i] in BLACKLIST && len > 0) {
        break;
      } else {
        len := len + 1;
      }
    }
    if len == 0 {
      r := None;
    } else {
      var tail := data[1..];
      assert forall k | 0 <= k < len - 1 :: tail[k] == data[k + 1] && IsTextTail(tail[k]);
      RunIs(tail, IsTextTail, len - 1);
      r := Some(Text(data[0..len]));
    }
  }

  /** The scanner cascade in the body of the loop of `from_str`. */
  method NextToken(data: seq<Byte>) returns (token: Option<Token>)
    ensures token == Scan(data)
  {
    token := TryParseWhitespace(data);
    if token == None {
      token := TryParseNumber(data);
    }
    if token == None {
      token := TryParseText(data);
    }
  }

  /** `TokenStream::from_str`. */
  method FromStr(s: seq<Byte>) returns (r: Result<seq<Token>, Byte>)
    ensures r == Parse(s)
  {
    var stream: seq<Token>, cursor := [], 0;
    ParseStart(s);
    while cursor < |s|
      invariant 0 <= cursor <= |s|
      invariant Parse(s) == Prepend(stream, Parse(s[cursor..]))
      decreases |s| - cursor
    {
      ParseStep(s, cursor, stream);
      var token := NextToken(s[cursor..]);
      if token == None {
        return Err(s[cursor]);
      }
      cursor := cursor + |token.value.data|;
      stream := stream + [token.value];
    }
    ParseEnd(s, stream);
    r := Ok(stream);
  }

  /** `Packet::deserialize_content` for token streams. The UTF-8 validator is a parameter, of which
      only RFC 3629 section 3 is used: every ASCII string is valid UTF-8. */
  method DeserializeContent(buffer: seq<Byte>, validUtf8: seq<Byte> -> bool) returns (r: Option<seq<Token>>)
    requires forall b | AllAscii(b) :: validUtf8(b)
    ensures AllAscii(buffer) ==> r.Some? && Ok(r.value) == Parse(buffer)
    ensures !AllAscii(buffer) ==> r == None
  {
    ParseOutcome(buffer);
    if !validUtf8(buffer) {
      return None;
    }
    var parsed := FromStr(buffer);
    r := match parsed case Ok(ts) => Some(ts) case Err(_) => None;
  }

  // ---------- What one scan guarantees ----------

  lemma {:induction false} ScanShape(s: seq<Byte>)
    requires Scan(s).Some?
    ensures Scanned(Scan(s).value)
  {
    var t := Scan(s).value;
    RunIsLongest(s, IsSpace);
    if t.Number? {
      var sign := if IsSign(s[0]) then 1 else 0;
      RunIsLongest(s[sign..], IsDigit);
      assert forall i | sign <= i < |t.data| :: t.data[i] == s[sign..][i - sign];
    } else if t.Text? {
      RunIsLongest(s[1..], IsTextTail);
      assert !IsSpace(s[0]) && !IsDigit(s[0]);
      assert forall i | 1 <= i < |t.data| :: t.data[i] == s[1..][i - 1];
    }
  }

  lemma {:induction false} ScanFails(s: seq<Byte>)
    requires s != []
    ensures Scan(s).None? <==> !IsAscii(s[0])
  {
    if Scan(s).Some? {
      ScanShape(s);
      assert s[0] == Scan(s).value.data[0];
    }
  }

  /** A scanned token printed before a byte string is scanned back, unless the string's first byte
      continues it or turns a lone sign into a number. */
  lemma {:induction false} ScanBack(t: Token, rest: seq<Byte>)
    requires Scanned(t)
    requires rest != [] ==> match t
                            case Whitespace(_) => !IsSpace(rest[0])
                            case Number(_) => !IsDigit(rest[0])
                            case _ => !IsTextTail(rest[0]) && (LoneSign(t) ==> !IsDigit(rest[0]))
    ensures Scan(t.data + rest) == Some(t)
  {
    var s := t.data + rest;
    var n := |t.data|;
    assert s[..n] == t.data && s[0] == t.data[0];
    match t
    case Constant(_) =>
    case Whitespace(d) =>
      RunIs(s, IsSpace, n);
    case Number(d) =>
      assert !IsSpace(s[0]);
      var sign := if IsSign(s[0]) then 1 else 0;
      var tail := s[sign..];
      assert forall i | 0 <= i < n - sign :: tail[i] == d[i + sign];
      RunIs(tail, IsDigit, n - sign);
    case Text(d) =>
      assert IsTextByte(s[0]);
      var sign := if IsSign(s[0]) then 1 else 0;
      assert n == 1 || s[1] == d[1];
      assert s[sign..] != [] ==> s[sign..][0] == s[sign];
      assert ScanNumber(s) == None;
      var tail := s[1..];
      assert forall i | 0 <= i < n - 1 :: tail[i] == d[i + 1];
      RunIs(tail, IsTextTail, n - 1);
  }

  /** Two consecutive scans leave a border that Separates. */
  lemma {:induction false} ScanTwice(s: seq<Byte>)
    requires Scan(s).Some?
    requires Scan(s[|Scan(s).value.data|..]).Some?
    ensures Separates(Scan(s).value, Scan(s[|Scan(s).value.data|..]).value)
  {
    var a := Scan(s).value;
    var n := |a.data|;
    var rest := s[n..];
    var b := Scan(rest).value;
    ScanShape(s);
    ScanShape(rest);
    assert b.data[0] == rest[0] == s[n];
    RunIsLongest(s, IsSpace);
    if a.Number? {
      var sign := if IsSign(s[0]) then 1 else 0;
      RunIsLongest(s[sign..], IsDigit);
      assert s[sign..][n - sign] == s[n];
      assert !IsDigit(s[n]);
    } else if a.Text? {
      RunIsLongest(s[1..], IsTextTail);
      assert s[1..][n - 1] == s[n];
      assert !IsTextTail(s[n]);
      if LoneSign(a) {
        assert s[1..][0] == s[1];
      }
    }
  }

  // ---------- The tokenizer as a bijection ----------

  lemma {:induction false} CanonicalCons(t: Token, ts: seq<Token>)
    requires Scanned(t) && Canonical(ts)
    requires ts != [] ==> Separates(t, ts[0])
    ensures Canonical([t] + ts)
  {
    var u := [t] + ts;
    forall i, j | 0 <= i && j == i + 1 && j < |u|
      ensures Separates(u[i], u[j])
    {
      if i > 0 {
        assert Separates(ts[i - 1], ts[j - 1]);
      }
    }
  }

  lemma {:induction false} ParsePrints(s: seq<Byte>)
    requires Parse(s).Ok?
    ensures Canonical(Parse(s).value)
    ensures Flatten(Parse(s).value) == s
    decreases |s|
  {
    if s != [] {
      var t := Scan(s).value;
      var rest := s[|t.data|..];
      ParsePrints(rest);
      ScanShape(s);
      if rest != [] {
        ScanTwice(s);
      }
      var ts := Parse(rest).value;
      assert Parse(s).value == [t] + ts;
      assert ts != [] ==> ts[0] == Scan(rest).value;
      CanonicalCons(t, ts);
    }
  }

  lemma {:induction false} CanonicalTail(ts: seq<Token>)
    requires Canonical(ts) && ts != []
    ensures Canonical(ts[1..])
  {
    var u := ts[1..];
    forall i, j | 0 <= i && j == i + 1 && j < |u|
      ensures Separates(u[i], u[j])
    {
      assert u[i] == ts[i + 1] && u[j] == ts[j + 1];
    }
  }

  lemma {:induction false} PrintParses(ts: seq<Token>)
    requires Canonical(ts)
    ensures Parse(Flatten(ts)) == Ok(ts)
  {
    if ts != [] {
      var rest := Flatten(ts[1..]);
      CanonicalTail(ts);
      PrintParses(ts[1..]);
      assert Scanned(ts[0]);
      if |ts| > 1 {
        var u := ts[1];
        assert Scanned(u) && Separates(ts[0], u);
        assert ts[1..][0] == u;
        assert rest[0] == u.data[0];
      }
      ScanBack(ts[0], rest);
      var s := Flatten(ts);
      assert s == ts[0].data + rest;
      assert s[|ts[0].data|..] == rest;
      assert ts == [ts[0]] + ts[1..];
    }
  }

  /** Parsing what a token list prints gives the list back exactly when the list is canonical. */
  lemma {:induction false} PrintParseIff(ts: seq<Token>)
    ensures Parse(Flatten(ts)) == Ok(ts) <==> Canonical(ts)
  {
    if Canonical(ts) {
      PrintParses(ts);
    }
    if Parse(Flatten(ts)) == Ok(ts) {
      ParsePrints(Flatten(ts));
    }
  }

  lemma {:induction false} AsciiBehind(s: seq<Byte>, n: nat)
    requires n <= |s| && AllAscii(s[..n])
    ensures AllAscii(s) <==> AllAscii(s[n..])
    ensures Run(s, IsAscii) == n + Run(s[n..], IsAscii)
    ensures Run(s, IsAscii) < |s| ==> s[Run(s, IsAscii)] == s[n..][Run(s[n..], IsAscii)]
  {
    var rest := s[n..];
    assert s == s[..n] + rest;
    var m, k := Run(s, IsAscii), Run(rest, IsAscii);
    RunIsLongest(s, IsAscii);
    RunIsLongest(rest, IsAscii);
    assert forall i | 0 <= i < n :: s[..n][i] == s[i];
    assert forall i | n <= i < |s| :: s[i] == rest[i - n];
    if m < |s| {
      assert rest[m - n] == s[m];
    }
    if n + k < |s| {
      assert rest[k] == s[n + k];
    }
  }

  /** `from_str` succeeds exactly on ASCII; otherwise it reports the first byte at or above 0x80. */
  lemma {:induction false} ParseOutcome(s: seq<Byte>)
    ensures Parse(s).Ok? <==> AllAscii(s)
    ensures Parse(s).Err? ==> Run(s, IsAscii) < |s| && Parse(s).error == s[Run(s, IsAscii)]
    decreases |s|
  {
    if s != [] {
      ScanFails(s);
      if Scan(s).Some? {
        var n := |Scan(s).value.data|;
        var rest := s[n..];
        ScanShape(s);
        assert AllAscii(s[..n]);
        AsciiBehind(s, n);
        ParseOutcome(rest);
      }
    }
  }

  /** Every ASCII string is printed by exactly one canonical token list, the one that parsing returns. */
  lemma {:induction false} ParseIsUniqueInverse(s: seq<Byte>, ts: seq<Token>)
    requires AllAscii(s)
    ensures Parse(s).Ok?
    ensures Canonical(ts) && Flatten(ts) == s <==> ts == Parse(s).value
  {
    ParseOutcome(s);
    ParsePrints(s);
    PrintParseIff(ts);
  }

  // ---------- Compositionality ----------

  lemma {:induction false} CanonicalConcat(a: seq<Token>, b: seq<Token>)
    requires Canonical(a) && Canonical(b) && a != [] && b != []
    ensures Canonical(a + b) <==> Separates(a[|a| - 1], b[0])
  {
    var ts := a + b;
    if Canonical(ts) {
      assert Separates(ts[|a| - 1], ts[|a|]);
    }
    if Separates(a[|a| - 1], b[0]) {
      forall i, j | 0 <= i && j == i + 1 && j < |ts|
        ensures Separates(ts[i], ts[j])
      {
        if i >= |a| {
          assert Separates(b[i - |a|], b[j - |a|]);
        }
      }
    }
  }

  /** Parsing distributes over a concatenation exactly when the two tokens that meet there Separate. */
  lemma {:induction false} ParseConcatIff(a: seq<Byte>, b: seq<Byte>)
    requires AllAscii(a) && AllAscii(b) && a != [] && b != []
    ensures Parse(a).Ok? && Parse(a).value != [] && Parse(b).Ok? && Parse(b).value != []
    ensures var x, y := Parse(a).value, Parse(b).value;
            Parse(a + b) == Ok(x + y) <==> Separates(x[|x| - 1], y[0])
  {
    ParseOutcome(a);
    ParseOutcome(b);
    ParsePrints(a);
    ParsePrints(b);
    var x, y := Parse(a).value, Parse(b).value;
    FlattenConcat(x, y);
    PrintParseIff(x + y);
    CanonicalConcat(x, y);
  }

  lemma {:induction false} FlattenEnds(ts: seq<Token>)
    requires ts != [] && forall t | t in ts :: Scanned(t)
    ensures var s := Flatten(ts);
            s != []
            && (IsSpace(s[0]) <==> ts[0].Whitespace?)
            && (IsSpace(s[|s| - 1]) <==> ts[|ts| - 1].Whitespace?)
  {
    var n := |ts| - 1;
    var t := ts[n];
    assert Scanned(ts[0]) && Scanned(t);
    assert ts == ts[..n] + [t];
    FlattenConcat(ts[..n], [t]);
    assert Flatten([t]) == t.data;
    assert t.data[|t.data| - 1] in t.data && ts[0].data[0] in ts[0].data;
  }

  lemma {:induction false} SpaceEdges(s: seq<Byte>)
    requires s != [] && Parse(s).Ok?
    ensures var ts := Parse(s).value;
            ts != []
            && (ts[0].Whitespace? <==> IsSpace(s[0]))
            && (ts[|ts| - 1].Whitespace? <==> IsSpace(s[|s| - 1]))
  {
    ParsePrints(s);
    FlattenEnds(Parse(s).value);
  }

  /** Cutting at a whitespace edge never changes the tokens. */
  lemma {:induction false} ParseConcatAtSpace(a: seq<Byte>, b: seq<Byte>)
    requires AllAscii(a) && AllAscii(b) && a != [] && b != []
    requires IsSpace(a[|a| - 1]) != IsSpace(b[0])
    ensures Parse(a).Ok? && Parse(b).Ok?
    ensures Parse(a + b) == Ok(Parse(a).value + Parse(b).value)
  {
    ParseConcatIff(a, b);
    SpaceEdges(a);
    SpaceEdges(b);
    var x, y := Parse(a).value, Parse(b).value;
    assert Separates(x[|x| - 1], y[0]);
  }
}
