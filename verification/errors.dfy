/** The client's error codes and the text `errorString` makes of an operating-system error. */
module Errors {

  /** `Error`: the result of every client operation. */
  datatype Error = Ok | NotConnected | SocketError | ArgumentError

  predicate IsLineEnd(c: char)
  {
    c == '\n' || c == '\r'
  }

  /** The message with every trailing newline and carriage return removed. */
  function TrimLineEnds(s: string): (r: string)
    ensures r <= s
    ensures forall i :: |r| <= i < |s| ==> IsLineEnd(s[i])
    ensures r == [] || !IsLineEnd(r[|r| - 1])
  {
    if s != [] && IsLineEnd(s[|s| - 1]) then TrimLineEnds(s[..|s| - 1]) else s
  }

  /** The three properties of `TrimLineEnds` determine it: a prefix that leaves only line ends
      behind and does not itself end in one is the trimmed message. */
  lemma {:induction false} TrimLineEndsIsUnique(s: string, t: string)
    requires t <= s
    requires forall i :: |t| <= i < |s| ==> IsLineEnd(s[i])
    requires t == [] || !IsLineEnd(t[|t| - 1])
    ensures t == TrimLineEnds(s)
  {
    if |t| < |s| {
      var p := s[..|s| - 1];
      assert IsLineEnd(s[|s| - 1]);
      assert t <= p;
      TrimLineEndsIsUnique(p, t);
    } else {
      assert t == s;
    }
  }

  /** Trimming twice is trimming once. */
  lemma TrimLineEndsIsIdempotent(s: string)
    ensures TrimLineEnds(TrimLineEnds(s)) == TrimLineEnds(s)
  {
  }

  function DigitChar(d: nat): char
    requires d < 10
  {
    (('0' as int) + d) as char
  }

  predicate IsDigit(c: char)
  {
    '0' <= c <= '9'
  }

  function DigitValue(c: char): nat
    requires IsDigit(c)
  {
    (c as int) - ('0' as int)
  }

  /** The decimal digits of `n`, most significant first, with no leading zero. */
  function NatDigits(n: nat): (r: string)
    ensures |r| > 0
    ensures forall i :: 0 <= i < |r| ==> IsDigit(r[i])
    ensures r[0] == '0' <==> n == 0
  {
    if n < 10 then [DigitChar(n)] else NatDigits(n / 10) + [DigitChar(n % 10)]
  }

  /** `std::to_string` of an integer: a minus sign for negative values, then the digits. */
  function DecimalString(n: int): (r: string)
    ensures |r| > 0
  {
    if n < 0 then ['-'] + NatDigits(-n) else NatDigits(n)
  }

  /** Reads a string of decimal digits. */
  function ParseNat(s: string): nat
    requires forall i :: 0 <= i < |s| ==> IsDigit(s[i])
  {
    if s == [] then 0 else 10 * ParseNat(s[..|s| - 1]) + DigitValue(s[|s| - 1])
  }

  function ParseDecimal(s: string): int
    requires s != []
    requires s[0] == '-' ==> forall i :: 1 <= i < |s| ==> IsDigit(s[i])
    requires s[0] != '-' ==> forall i :: 0 <= i < |s| ==> IsDigit(s[i])
  {
    if s[0] == '-' then -(ParseNat(s[1..]) as int) else ParseNat(s)
  }

  lemma {:induction false} NatDigitsRoundTrip(n: nat)
    ensures ParseNat(NatDigits(n)) == n
  {
    var r := NatDigits(n);
    if n >= 10 {
      NatDigitsRoundTrip(n / 10);
      assert r[..|r| - 1] == NatDigits(n / 10);
    }
  }

  /** The code appended to an error message can be read back exactly. */
  lemma {:induction false} DecimalStringRoundTrip(n: int)
    ensures var r := DecimalString(n);
            (r[0] == '-' <==> n < 0) && ParseDecimal(r) == n
  {
    var r := DecimalString(n);
    if n < 0 {
      NatDigitsRoundTrip(-n);
      assert r[1..] == NatDigits(-n);
    } else {
      NatDigitsRoundTrip(n);
    }
  }

  /** What `errorString` puts around the code. */
  const CodeOpen: string := " ("
  const CodeClose: string := ")"

  /** What `errorString(code)` returns when the system describes `code` as `systemText`. */
  function ErrorText(code: int, systemText: string): string
  {
    TrimLineEnds(systemText) + CodeOpen + DecimalString(code) + CodeClose
  }

  /** `errorString`: drops trailing line ends one at a time, then appends the code in parentheses. */
  method ErrorString(code: int, systemText: string) returns (result: string)
    ensures result == ErrorText(code, systemText)
  {
    result := systemText;
    while |result| > 0 && IsLineEnd(result[|result| - 1])
      invariant TrimLineEnds(result) == TrimLineEnds(systemText)
      decreases |result|
    {
      result := result[..|result| - 1];
    }
    result := result + CodeOpen + DecimalString(code) + CodeClose;
  }

  /** The text splits back into the trimmed system message and the code. */
  lemma {:induction false} ErrorTextParts(code: int, systemText: string)
    ensures var t := ErrorText(code, systemText);
            var m := TrimLineEnds(systemText);
            t[..|m|] == m && t[|m|..|m| + 2] == CodeOpen && t[|t| - 1] == ')'
            && ParseDecimal(t[|m| + 2..|t| - 1]) == code
  {
    var m := TrimLineEnds(systemText);
    var d := DecimalString(code);
    SplitAroundCode(m, d);
    DecimalStringRoundTrip(code);
  }

  lemma SplitAroundCode(m: string, d: string)
    ensures var t := m + CodeOpen + d + CodeClose;
            t[..|m|] == m && t[|m|..|m| + 2] == CodeOpen && t[|t| - 1] == ')' && t[|m| + 2..|t| - 1] == d
  {
    var t := m + CodeOpen + d + CodeClose;
    assert |CodeOpen| == 2 && |CodeClose| == 1 && CodeClose[0] == ')';
    assert t == m + (CodeOpen + (d + CodeClose));
  }
}
