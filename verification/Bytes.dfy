/** Bytes, the character classes of the tokenizer, and the small wrappers shared by all modules. */
module Bytes {

  type Byte = b: int | 0 <= b < 256

  datatype Option<+T> = None | Some(value: T)

  datatype Result<+T, +E> = Ok(value: T) | Err(error: E)

  const PLUS: Byte := 43
  const DASH: Byte := 45

  predicate IsSpace(b: Byte) { b == 32 || 9 <= b <= 13 }

  predicate IsDigit(b: Byte) { 48 <= b <= 57 }

  predicate IsSign(b: Byte) { b == PLUS || b == DASH }

  predicate IsAscii(b: Byte) { b < 0x80 }

  /** A byte that may stand anywhere in the data of a valid text token. */
  predicate IsTextByte(b: Byte) { IsAscii(b) && !IsSpace(b) && !IsDigit(b) }

  /** A byte with which the text scanner carries on once it has taken its first byte. */
  predicate IsTextTail(b: Byte) { IsTextByte(b) && !IsSign(b) }

  predicate AllAscii(s: seq<Byte>) { forall b | b in s :: IsAscii(b) }

  function Min(a: int, b: int): int { if a < b then a else b }

  function Max(a: int, b: int): int { if a < b then b else a }

  /** Length of the longest prefix of s whose bytes all satisfy p. */
  function Run(s: seq<Byte>, p: Byte -> bool): (n: nat)
    ensures n <= |s|
  {
    if s == [] || !p(s[0]) then 0 else 1 + Run(s[1..], p)
  }

  lemma {:induction false} RunIsLongest(s: seq<Byte>, p: Byte -> bool)
    ensures forall i | 0 <= i < Run(s, p) :: p(s[i])
    ensures Run(s, p) < |s| ==> !p(s[Run(s, p)])
  {
    if s != [] && p(s[0]) {
      var rest := s[1..];
      RunIsLongest(rest, p);
      assert forall i | 1 <= i < |s| :: s[i] == rest[i - 1];
    }
  }

  /** A prefix of bytes that satisfy p, ended by the end of the string or a byte that does not, is the run. */
  lemma {:induction false} RunIs(s: seq<Byte>, p: Byte -> bool, n: nat)
    requires n <= |s|
    requires forall i | 0 <= i < n :: p(s[i])
    requires n < |s| ==> !p(s[n])
    ensures Run(s, p) == n
  {
    RunIsLongest(s, p);
  }

  /** The bytes of an ASCII literal. */
  function Ascii(s: string): (r: seq<Byte>)
    requires forall i | 0 <= i < |s| :: s[i] < 128 as char
    ensures |r| == |s| && AllAscii(r)
    ensures forall i | 0 <= i < |s| :: r[i] == s[i] as int
  {
    if s == "" then [] else [s[0] as int] + Ascii(s[1..])
  }

  lemma {:induction false} Associative<T>(a: seq<T>, b: seq<T>, c: seq<T>)
    ensures (a + b) + c == a + (b + c)
  {
  }
}
