/** String helpers with the semantics of the .NET string operations the core uses. */
module Text {

  /** string.Join: the items with `sep` between neighbours. */
  function Join(sep: string, xs: seq<string>): string
  {
    if |xs| == 0 then ""
    else if |xs| == 1 then xs[0]
    else Join(sep, xs[..|xs| - 1]) + sep + xs[|xs| - 1]
  }

  /** The items, each followed by `sep`. */
  function Terminated(sep: string, xs: seq<string>): string
  {
    if |xs| == 0 then "" else Terminated(sep, xs[..|xs| - 1]) + xs[|xs| - 1] + sep
  }

  /** Joining one more item adds exactly one separator. */
  lemma JoinSnoc(sep: string, xs: seq<string>, x: string)
    requires |xs| > 0
    ensures Join(sep, xs + [x]) == Join(sep, xs) + sep + x
  {
    assert (xs + [x])[..|xs|] == xs;
  }

  /** Terminating every item is joining them and then adding one separator more. */
  lemma {:induction false} TerminatedIsJoinedPlusSep(sep: string, xs: seq<string>)
    requires |xs| > 0
    ensures Terminated(sep, xs) == Join(sep, xs) + sep
  {
    if |xs| > 1 {
      var init := xs[..|xs| - 1];
      TerminatedIsJoinedPlusSep(sep, init);
      JoinSnoc(sep, init, xs[|xs| - 1]);
      assert init + [xs[|xs| - 1]] == xs;
    }
  }

  /** A terminated list followed by one more item, without a separator, is the joined
      list. */
  lemma TerminatedThenLast(sep: string, xs: seq<string>, x: string)
    ensures Terminated(sep, xs) + x == Join(sep, xs + [x])
  {
    if |xs| == 0 {
      assert xs + [x] == [x];
    } else {
      TerminatedIsJoinedPlusSep(sep, xs);
      JoinSnoc(sep, xs, x);
    }
  }

  /** Concatenation is associative; stated once so that callers need not re-derive it by
      extensionality inside a large proof context. */
  lemma ConcatAssoc<T>(a: seq<T>, b: seq<T>, c: seq<T>)
    ensures a + b + c == a + (b + c)
  {
  }

  /** char.ToUpperInvariant restricted to ASCII letters. */
  function UpperChar(c: char): char
  {
    if 'a' <= c <= 'z' then (c as int - 32) as char else c
  }

  /** string.ToUpper on ASCII text. */
  function Upper(s: string): string
  {
    seq(|s|, i requires 0 <= i < |s| => UpperChar(s[i]))
  }

  predicate IsDigit(c: char) { '0' <= c <= '9' }

  predicate AllDigits(s: string) { forall i :: 0 <= i < |s| ==> IsDigit(s[i]) }

  /** char.IsWhiteSpace on the characters a number may be padded with. */
  predicate IsWhite(c: char) { c == ' ' || '\t' <= c <= '\r' }

  function TrimStart(s: string): (r: string)
    ensures |r| <= |s| && (r == [] || !IsWhite(r[0]))
  {
    if s != [] && IsWhite(s[0]) then TrimStart(s[1..]) else s
  }

  function TrimEnd(s: string): (r: string)
    ensures |r| <= |s| && (r == [] || !IsWhite(r[|r| - 1]))
  {
    if s != [] && IsWhite(s[|s| - 1]) then TrimEnd(s[..|s| - 1]) else s
  }

  /** string.Trim: white space removed at both ends. */
  function Trim(s: string): string { TrimEnd(TrimStart(s)) }

  lemma TrimKeepsUnpadded(s: string)
    requires s != [] && !IsWhite(s[0]) && !IsWhite(s[|s| - 1])
    ensures Trim(s) == s
  {
  }

  function DigitChar(d: nat): (c: char)
    requires d < 10
    ensures IsDigit(c) && c as int - '0' as int == d
  {
    ('0' as int + d) as char
  }

  /** The decimal digits of n, most significant first, without leading zeros. */
  function NatText(n: nat): (r: string)
    ensures |r| > 0 && AllDigits(r)
    ensures n > 0 ==> r[0] != '0'
  {
    if n < 10 then [DigitChar(n)] else NatText(n / 10) + [DigitChar(n % 10)]
  }

  /** The number a string of decimal digits denotes. */
  function DigitsValue(s: string): nat
    requires AllDigits(s)
  {
    if s == [] then 0 else DigitsValue(s[..|s| - 1]) * 10 + (s[|s| - 1] as int - '0' as int)
  }

  lemma {:induction false} NatTextRoundTrip(n: nat)
    ensures DigitsValue(NatText(n)) == n
  {
    if n >= 10 {
      NatTextRoundTrip(n / 10);
      var s := NatText(n);
      assert s[..|s| - 1] == NatText(n / 10);
    }
  }

  /** Int32.ToString / Int64.ToString in the invariant culture. */
  function IntText(n: int): (r: string)
  {
    if n < 0 then "-" + NatText(-n) else NatText(n)
  }

  /** n in decimal, left-padded with zeros to at least `width` digits. */
  function Padded(n: nat, width: nat): (r: string)
    ensures |r| >= width && AllDigits(r)
  {
    var s := NatText(n);
    if |s| >= width then s else ZeroPad(width - |s|) + s
  }

  function ZeroPad(k: nat): (r: string)
    ensures |r| == k && AllDigits(r)
  {
    if k == 0 then [] else ['0'] + ZeroPad(k - 1)
  }
}
