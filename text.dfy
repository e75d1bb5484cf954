/**
 * The string operations of the .NET base library that the cache and the
 * failover logic rely on: integer formatting and parsing, Split, Trim,
 * character removal and ordinal case-insensitive comparison.
 */
module Text {
  import opened Wrappers

  const Int32Min: int := -0x8000_0000
  const Int32Max: int := 0x7FFF_FFFF

  predicate IsDigit(c: char) { '0' <= c <= '9' }

  predicate AllDigits(s: string) { forall i :: 0 <= i < |s| ==> IsDigit(s[i]) }

  function DigitChar(d: nat): (c: char)
    requires d < 10
    ensures IsDigit(c)
  {
    ('0' as int + d) as char
  }

  function DigitValue(c: char): (d: nat)
    requires IsDigit(c)
    ensures d < 10 && DigitChar(d) == c
  {
    c as int - '0' as int
  }

  /** Decimal digits of `n`, most significant first, without leading zeros. */
  function NatToString(n: nat): (s: string)
    ensures |s| >= 1 && AllDigits(s)
    ensures s[0] == '0' ==> n == 0
    decreases n
  {
    if n < 10 then [DigitChar(n)] else NatToString(n / 10) + [DigitChar(n % 10)]
  }

  /** Int32.ToString() / interpolation of an integer: an optional minus sign and the digits. */
  function IntToString(n: int): (s: string)
    ensures |s| >= 1 && IsDigit(s[|s| - 1])
    ensures s[0] == '-' || IsDigit(s[0])
  {
    if n < 0 then "-" + NatToString(-n) else NatToString(n)
  }

  /** The value of a run of decimal digits. */
  function DigitsValue(s: string): nat
    requires AllDigits(s)
  {
    if s == [] then 0 else DigitsValue(s[..|s| - 1]) * 10 + DigitValue(s[|s| - 1])
  }

  /** The white space the integer parser skips around the number (NumberStyles.Integer). */
  predicate IsParseWhite(c: char) { c == ' ' || '\t' <= c <= '\r' }

  function TrimParseWhite(s: string): string
  {
    TrimEndWhere(TrimStartWhere(s, false), false)
  }

  /**
   * Int32.Parse / TryParse with the default style, over unbounded integers:
   * optional surrounding white space, an optional sign, at least one digit.
   */
  function ParseInteger(s: string): (r: Option<int>)
  {
    var t := TrimParseWhite(s);
    if |t| > 0 && (t[0] == '-' || t[0] == '+') then
      var d := t[1..];
      if |d| > 0 && AllDigits(d) then
        Some(if t[0] == '-' then -(DigitsValue(d) as int) else DigitsValue(d))
      else None
    else if |t| > 0 && AllDigits(t) then
      Some(DigitsValue(t))
    else None
  }

  /** Int32.TryParse: a parse that also fails outside the 32-bit range. */
  function TryParseInt32(s: string): (r: Option<int>)
    ensures r.Some? ==> Int32Min <= r.value <= Int32Max && ParseInteger(s) == r
    ensures r.None? ==> ParseInteger(s).None? || !(Int32Min <= ParseInteger(s).value <= Int32Max)
  {
    match ParseInteger(s)
    case Some(n) => if Int32Min <= n <= Int32Max then Some(n) else None
    case None => None
  }

  lemma {:induction false} DigitsValueOfNatToString(n: nat)
    ensures DigitsValue(NatToString(n)) == n
    decreases n
  {
    var s := NatToString(n);
    if n < 10 {
      assert s[..|s| - 1] == [];
    } else {
      DigitsValueOfNatToString(n / 10);
      assert s[..|s| - 1] == NatToString(n / 10);
    }
  }

  /** Formatting an integer and parsing it back gives the integer. */
  lemma {:induction false} ParseIntegerOfIntToString(n: int)
    ensures ParseInteger(IntToString(n)) == Some(n)
  {
    var s := IntToString(n);
    NotWhiteAtEnds(s, false);
    if n < 0 {
      DigitsValueOfNatToString(-n);
      assert s[1..] == NatToString(-n);
    } else {
      DigitsValueOfNatToString(n);
    }
  }

  lemma TryParseInt32OfIntToString(n: int)
    requires Int32Min <= n <= Int32Max
    ensures TryParseInt32(IntToString(n)) == Some(n)
  {
    ParseIntegerOfIntToString(n);
  }

  /** Char.IsWhiteSpace: the Unicode separators and the control characters U+0009..U+000D, U+0085. */
  predicate IsWhiteSpace(c: char)
  {
    c == ' ' || ('\t' <= c <= '\r') || c == '\U{85}' || c == '\U{A0}' || c == '\U{1680}'
    || ('\U{2000}' <= c <= '\U{200A}') || c == '\U{2028}' || c == '\U{2029}' || c == '\U{202F}'
    || c == '\U{205F}' || c == '\U{3000}'
  }

  /** The white-space test selected by `general`: Char.IsWhiteSpace, or the parser's narrower set. */
  predicate White(c: char, general: bool)
  {
    if general then IsWhiteSpace(c) else IsParseWhite(c)
  }

  /** String.IsNullOrWhiteSpace for a non-null string. */
  predicate IsNullOrWhiteSpace(s: string)
  {
    forall i :: 0 <= i < |s| ==> IsWhiteSpace(s[i])
  }

  function TrimStartWhere(s: string, general: bool): string
  {
    if |s| > 0 && White(s[0], general) then TrimStartWhere(s[1..], general) else s
  }

  function TrimEndWhere(s: string, general: bool): string
  {
    if |s| > 0 && White(s[|s| - 1], general) then TrimEndWhere(s[..|s| - 1], general) else s
  }

  /** String.Trim(): removes leading and trailing white space. */
  function Trim(s: string): (r: string)
    ensures exists i, j :: 0 <= i <= j <= |s| && r == s[i..j]
                           && (forall k :: 0 <= k < i ==> IsWhiteSpace(s[k]))
                           && (forall k :: j <= k < |s| ==> IsWhiteSpace(s[k]))
    ensures |r| > 0 ==> !IsWhiteSpace(r[0]) && !IsWhiteSpace(r[|r| - 1])
    ensures IsNullOrWhiteSpace(s) <==> r == []
  {
    TrimIsInfix(s);
    TrimEndsNotWhite(s, true);
    TrimEmptyIffWhite(s);
    TrimStartWhere(TrimEndWhere(s, true), true)
  }

  /** Trimming keeps the characters between a white prefix and a white suffix. */
  lemma TrimIsInfix(s: string)
    ensures exists i, j :: 0 <= i <= j <= |s| && TrimStartWhere(TrimEndWhere(s, true), true) == s[i..j]
                           && (forall k :: 0 <= k < i ==> IsWhiteSpace(s[k]))
                           && (forall k :: j <= k < |s| ==> IsWhiteSpace(s[k]))
  {
    var j := EndIndex(s, true);
    var i := StartIndex(s[..j], true);
    assert s[..j][i..] == s[i..j];
    forall k | 0 <= k < i
      ensures IsWhiteSpace(s[k])
    {
      assert s[..j][k] == s[k];
    }
  }

  /** How many leading characters TrimStartWhere drops. */
  function StartIndex(s: string, general: bool): (i: nat)
    ensures i <= |s| && TrimStartWhere(s, general) == s[i..]
    ensures forall k :: 0 <= k < i ==> White(s[k], general)
    ensures i < |s| ==> !White(s[i], general)
  {
    if |s| > 0 && White(s[0], general) then
      var i := 1 + StartIndex(s[1..], general);
      assert forall k :: 1 <= k < i ==> s[k] == s[1..][k - 1];
      i
    else 0
  }

  /** Where TrimEndWhere cuts the string. */
  function EndIndex(s: string, general: bool): (j: nat)
    ensures j <= |s| && TrimEndWhere(s, general) == s[..j]
    ensures forall k :: j <= k < |s| ==> White(s[k], general)
    ensures j > 0 ==> !White(s[j - 1], general)
  {
    if |s| > 0 && White(s[|s| - 1], general) then
      var j := EndIndex(s[..|s| - 1], general);
      assert forall k :: j <= k < |s| - 1 ==> s[k] == s[..|s| - 1][k];
      j
    else |s|
  }

  lemma TrimEndsNotWhite(s: string, general: bool)
    ensures var r := TrimStartWhere(TrimEndWhere(s, general), general);
            |r| > 0 ==> !White(r[0], general) && !White(r[|r| - 1], general)
  {
    var j := EndIndex(s, general);
    var i := StartIndex(s[..j], general);
  }

  lemma TrimEmptyIffWhite(s: string)
    ensures IsNullOrWhiteSpace(s) <==> TrimStartWhere(TrimEndWhere(s, true), true) == []
  {
    var j := EndIndex(s, true);
    var i := StartIndex(s[..j], true);
    if TrimStartWhere(TrimEndWhere(s, true), true) == [] {
      assert i == j;
      forall k | 0 <= k < |s|
        ensures IsWhiteSpace(s[k])
      {
        if k < j {
          assert s[..j][k] == s[k];
        }
      }
    }
  }

  /** A string whose first and last characters are not white space is left alone by trimming. */
  lemma NotWhiteAtEnds(s: string, general: bool)
    requires |s| > 0 && !White(s[0], general) && !White(s[|s| - 1], general)
    ensures TrimStartWhere(s, general) == s && TrimEndWhere(s, general) == s
  {
  }

  /** String.Replace(c.ToString(), ""): every occurrence of `c` removed. */
  function Remove(s: string, c: char): (r: string)
    ensures forall k :: 0 <= k < |r| ==> r[k] != c
    ensures (forall k :: 0 <= k < |s| ==> s[k] != c) ==> r == s
  {
    if s == [] then []
    else (if s[0] == c then [] else [s[0]]) + Remove(s[1..], c)
  }

  /** Replace drops only `c`: every other character keeps its number of occurrences. */
  lemma {:induction false} RemoveKeepsOthers(s: string, c: char)
    ensures multiset(Remove(s, c)) == multiset(s)[c := 0]
  {
    if s != [] {
      RemoveKeepsOthers(s[1..], c);
      assert s == [s[0]] + s[1..];
    }
  }

  /** String.Split(sep): the pieces between occurrences of `sep`, empty pieces included. */
  function Split(s: string, sep: char): (r: seq<string>)
    ensures |r| >= 1
  {
    if s == [] then [[]]
    else
      var rest := Split(s[1..], sep);
      if s[0] == sep then [[]] + rest else [[s[0]] + rest[0]] + rest[1..]
  }

  /** A string without the separator comes back as the single piece. */
  lemma {:induction false} SplitWithoutSeparator(s: string, sep: char)
    requires forall k :: 0 <= k < |s| ==> s[k] != sep
    ensures Split(s, sep) == [s]
    decreases |s|
  {
    if s != [] {
      SplitWithoutSeparator(s[1..], sep);
      assert [s[0]] + s[1..] == s;
    }
  }

  /** Splitting `a + [sep] + b` where `a` has no separator yields `a` followed by the pieces of `b`. */
  lemma {:induction false} SplitAtFirstSeparator(a: string, b: string, sep: char)
    requires forall k :: 0 <= k < |a| ==> a[k] != sep
    ensures Split(a + [sep] + b, sep) == [a] + Split(b, sep)
    decreases |a|
  {
    if a == [] {
      assert a + [sep] + b == [sep] + b;
      assert ([sep] + b)[1..] == b;
    } else {
      SplitAtFirstSeparator(a[1..], b, sep);
      var s := a + [sep] + b;
      assert s[1..] == a[1..] + [sep] + b;
      assert [a[0]] + a[1..] == a;
    }
  }

  /** ToUpperInvariant restricted to the ASCII letters. */
  function ToUpperAscii(c: char): char
  {
    if 'a' <= c <= 'z' then (c as int - 32) as char else c
  }

  /** String.Equals(a, b, StringComparison.OrdinalIgnoreCase) with ASCII case folding. */
  predicate EqualsIgnoreCase(a: string, b: string)
  {
    |a| == |b| && forall k :: 0 <= k < |a| ==> ToUpperAscii(a[k]) == ToUpperAscii(b[k])
  }

  lemma EqualsIgnoreCaseReflexive(a: string)
    ensures EqualsIgnoreCase(a, a)
  {
  }

  lemma EqualsIgnoreCaseLength(a: string, b: string)
    requires EqualsIgnoreCase(a, b)
    ensures |a| == |b|
  {
  }

  /** "host port": a host and a port joined by one space, as the arbiter table stores a master. */
  function HostAndPort(host: string, port: int): string
  {
    host + " " + IntToString(port)
  }

  /** A number's text holds only digits and the minus sign. */
  lemma IntToStringLacks(n: int, c: char)
    requires c != '-' && !IsDigit(c)
    ensures forall k :: 0 <= k < |IntToString(n)| ==> IntToString(n)[k] != c
  {
    var p := IntToString(n);
    if n < 0 {
      assert forall k :: 1 <= k < |p| ==> p[k] == NatToString(-n)[k - 1];
    }
  }

  /** A text without the separator, the separator and a number split back into the text and the number's text. */
  lemma SplitBeforeNumber(a: string, n: int, sep: char)
    requires sep != '-' && !IsDigit(sep)
    requires forall k :: 0 <= k < |a| ==> a[k] != sep
    ensures Split(a + [sep] + IntToString(n), sep) == [a, IntToString(n)]
  {
    IntToStringLacks(n, sep);
    SplitAtFirstSeparator(a, IntToString(n), sep);
    SplitWithoutSeparator(IntToString(n), sep);
  }

  /** A host without spaces splits back off its port. */
  lemma SplitHostAndPort(host: string, port: int)
    requires forall k :: 0 <= k < |host| ==> host[k] != ' '
    ensures Split(HostAndPort(host, port), ' ') == [host, IntToString(port)]
  {
    SplitBeforeNumber(host, port, ' ');
  }

  /** "host:port", as a client reports the address of its reader or writer. */
  function EndpointAddress(host: string, port: int): (r: string)
    ensures (forall k :: 0 <= k < |host| ==> host[k] != ':') ==>
              var parts := Split(r, ':');
              |parts| == 2 && parts[0] == host && ParseInteger(parts[1]) == Some(port)
  {
    if forall k :: 0 <= k < |host| ==> host[k] != ':' then
      SplitBeforeNumber(host, port, ':');
      ParseIntegerOfIntToString(port);
      host + ":" + IntToString(port)
    else host + ":" + IntToString(port)
  }

  /** Removing one character leaves any other absent character absent. */
  lemma RemoveKeepsAbsent(s: string, c: char, d: char)
    requires d !in s
    ensures d !in Remove(s, c)
  {
    RemoveKeepsOthers(s, c);
    assert multiset(s)[d] == 0;
  }

  /** Trimming keeps an absent character absent. */
  lemma TrimKeepsAbsent(s: string, d: char)
    requires d !in s
    ensures d !in Trim(s)
  {
    var i, j :| 0 <= i <= j <= |s| && Trim(s) == s[i..j];
    assert forall k :: 0 <= k < j - i ==> s[i..j][k] == s[i + k];
  }

  /** "host port" ends in a digit, so it is never null or white space. */
  lemma HostAndPortNotWhiteSpace(host: string, port: int)
    ensures !IsNullOrWhiteSpace(HostAndPort(host, port))
  {
    var s := HostAndPort(host, port);
    var p := IntToString(port);
    assert s[|s| - 1] == p[|p| - 1];
  }

  /** Every character of "host port" is white space only at the separator, when the host has none. */
  lemma HostAndPortWhiteOnlyAtSeparator(host: string, port: int)
    requires forall k :: 0 <= k < |host| ==> !IsWhiteSpace(host[k])
    ensures var s := HostAndPort(host, port);
            forall k :: 0 <= k < |s| && k != |host| ==> !IsWhiteSpace(s[k])
  {
    var s := HostAndPort(host, port);
    var p := IntToString(port);
    assert forall k :: 0 <= k < |p| ==> !IsWhiteSpace(p[k]) by {
      if port < 0 {
        assert forall k :: 1 <= k < |p| ==> p[k] == NatToString(-port)[k - 1];
      }
    }
    assert forall k :: |host| < k < |s| ==> s[k] == p[k - |host| - 1];
  }

  /** A record "host port" whose host is non-empty and free of white space survives Trim and the removal of line breaks unchanged. */
  lemma CleanHostAndPort(host: string, port: int)
    requires |host| > 0 && forall k :: 0 <= k < |host| ==> !IsWhiteSpace(host[k])
    ensures Trim(Remove(Remove(HostAndPort(host, port), '\r'), '\n')) == HostAndPort(host, port)
  {
    var s := HostAndPort(host, port);
    HostAndPortWhiteOnlyAtSeparator(host, port);
    assert forall k :: 0 <= k < |s| ==> s[k] != '\r' && s[k] != '\n' by {
      assert IsWhiteSpace('\r') && IsWhiteSpace('\n');
    }
    assert Remove(Remove(s, '\r'), '\n') == s;
    assert !IsWhiteSpace(s[0]) && !IsWhiteSpace(s[|s| - 1]);
    NotWhiteAtEnds(s, true);
  }
}
