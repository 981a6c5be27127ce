/** String routines the frontend and backend rely on: JavaScript's `trim`, Python's
    `strip`/`lstrip`, `find`/`rfind`, `split`/`join`, ASCII lower-casing, and decimal
    formatting and parsing of integers. */
module Text {
  import opened Common

  /** The ASCII characters both `String.prototype.trim` and `str.strip()` remove. */
  const Whitespace: set<char> := {' ', '\t', '\n', '\r', 11 as char, 12 as char}

  /** Python's `s.lstrip(cs)`: drops the longest prefix made of characters in `cs`. */
  function LStrip(s: string, cs: set<char>): (r: string)
    ensures |r| <= |s| && r == s[|s| - |r|..]
    ensures forall i :: 0 <= i < |s| - |r| ==> s[i] in cs
    ensures r == [] || r[0] !in cs
  {
    if |s| > 0 && s[0] in cs then LStrip(s[1..], cs) else s
  }

  /** Python's `s.rstrip(cs)`: drops the longest suffix made of characters in `cs`. */
  function RStrip(s: string, cs: set<char>): (r: string)
    ensures |r| <= |s| && r == s[..|r|]
    ensures forall i :: |r| <= i < |s| ==> s[i] in cs
    ensures r == [] || r[|r| - 1] !in cs
  {
    if |s| > 0 && s[|s| - 1] in cs then RStrip(s[..|s| - 1], cs) else s
  }

  /** Python's `s.strip(cs)`. */
  function Strip(s: string, cs: set<char>): (r: string)
    ensures r == [] <==> forall i :: 0 <= i < |s| ==> s[i] in cs
    ensures r != [] ==> r[0] !in cs && r[|r| - 1] !in cs
    ensures |r| <= |s|
  {
    var l := LStrip(s, cs);
    var r := RStrip(l, cs);
    r
  }

  /** JavaScript's `s.trim()` and Python's `s.strip()` on the modelled whitespace. */
  function Trim(s: string): string
  {
    Strip(s, Whitespace)
  }

  /** A string is blank when trimming leaves nothing: the falsy result of `s.trim()`. */
  predicate IsBlank(s: string)
  {
    forall i :: 0 <= i < |s| ==> s[i] in Whitespace
  }

  /** Trimming leaves a non-empty string exactly when some character is not whitespace. */
  lemma TrimEmptyIffBlank(s: string)
    ensures Trim(s) == [] <==> IsBlank(s)
    ensures Trim(s) != [] <==> exists i :: 0 <= i < |s| && s[i] !in Whitespace
  {
  }

  /** Stripping a padded core gives back the core, whatever padding surrounds it. */
  lemma {:induction false} StripPadded(pre: string, core: string, post: string, cs: set<char>)
    requires forall i :: 0 <= i < |pre| ==> pre[i] in cs
    requires forall i :: 0 <= i < |post| ==> post[i] in cs
    requires core != [] && core[0] !in cs && core[|core| - 1] !in cs
    ensures Strip(pre + core + post, cs) == core
  {
    LStripPadded(pre, core + post, cs);
    assert LStrip(pre + core + post, cs) == core + post by {
      assert pre + core + post == pre + (core + post);
    }
    RStripPadded(core, post, cs);
  }

  lemma {:induction false} LStripPadded(pre: string, rest: string, cs: set<char>)
    requires forall i :: 0 <= i < |pre| ==> pre[i] in cs
    requires rest != [] && rest[0] !in cs
    ensures LStrip(pre + rest, cs) == rest
    decreases |pre|
  {
    if pre != [] {
      assert (pre + rest)[1..] == pre[1..] + rest;
      LStripPadded(pre[1..], rest, cs);
    } else {
      assert pre + rest == rest;
    }
  }

  lemma {:induction false} RStripPadded(rest: string, post: string, cs: set<char>)
    requires forall i :: 0 <= i < |post| ==> post[i] in cs
    requires rest != [] && rest[|rest| - 1] !in cs
    ensures RStrip(rest + post, cs) == rest
    decreases |post|
  {
    if post != [] {
      var p := post[..|post| - 1];
      assert (rest + post)[..|rest + post| - 1] == rest + p;
      RStripPadded(rest, p, cs);
    } else {
      assert rest + post == rest;
    }
  }

  /** Python's `s.find(c)` / JavaScript's `indexOf`: the first index of `c`, or -1. */
  function Find(s: string, c: char): (r: int)
    ensures -1 <= r < |s|
    ensures r == -1 <==> c !in s
    ensures r >= 0 ==> s[r] == c && c !in s[..r]
  {
    if |s| == 0 then -1
    else if s[0] == c then 0
    else
      var k := Find(s[1..], c);
      if k == -1 then -1
      else
        assert s[..k + 1] == [s[0]] + s[1..][..k];
        k + 1
  }

  /** Searching a concatenation finds the first part's occurrence if it has one, and
      otherwise the second part's, shifted by the first part's length. */
  lemma {:induction false} FindConcat(a: string, b: string, c: char)
    ensures c in a ==> Find(a + b, c) == Find(a, c)
    ensures c !in a ==> Find(a + b, c) == (if c in b then |a| + Find(b, c) else -1)
    decreases |a|
  {
    if a != [] {
      assert (a + b)[1..] == a[1..] + b;
      FindConcat(a[1..], b, c);
    } else {
      assert a + b == b;
    }
  }

  /** Python's `s.rfind(c)`: the last index of `c`, or -1. */
  function RFind(s: string, c: char): (r: int)
    ensures -1 <= r < |s|
    ensures r == -1 <==> c !in s
    ensures r >= 0 ==> s[r] == c && c !in s[r + 1..]
  {
    if |s| == 0 then -1
    else if s[|s| - 1] == c then |s| - 1
    else
      var k := RFind(s[..|s| - 1], c);
      assert k >= 0 ==> s[k + 1..] == s[..|s| - 1][k + 1..] + [s[|s| - 1]];
      k
  }

  /** Python's `s.split(sep)` for a one-character separator. */
  function Split(s: string, sep: char): (parts: seq<string>)
    ensures |parts| >= 1
    ensures forall i :: 0 <= i < |parts| ==> sep !in parts[i]
    decreases |s|
  {
    var k := Find(s, sep);
    if k == -1 then [s] else [s[..k]] + Split(s[k + 1..], sep)
  }

  /** Python's `sep.join(parts)`. */
  function Join(parts: seq<string>, sep: string): (r: string)
    ensures parts != [] ==> |parts[0]| <= |r| && r[..|parts[0]|] == parts[0]
    ensures parts != [] ==> |r| >= |parts[0]| + (|parts| - 1) * |sep|
  {
    if |parts| == 0 then ""
    else if |parts| == 1 then parts[0]
    else parts[0] + sep + Join(parts[1..], sep)
  }

  /** Splitting and re-joining on the same separator gives back the original string. */
  lemma {:induction false} JoinSplit(s: string, sep: char)
    ensures Join(Split(s, sep), [sep]) == s
    decreases |s|
  {
    var k := Find(s, sep);
    if k != -1 {
      var rest := s[k + 1..];
      var tail := Split(rest, sep);
      JoinSplit(rest, sep);
      var parts := [s[..k]] + tail;
      assert Split(s, sep) == parts;
      assert |parts| >= 2 && parts[0] == s[..k] && parts[1..] == tail;
      assert Join(parts, [sep]) == s[..k] + [sep] + Join(tail, [sep]);
      assert s == s[..k] + [sep] + rest;
    }
  }

  /** Cutting `a + [sep] + b` at `sep` cuts `a` and `b` separately. */
  lemma {:induction false} SplitConcat(a: string, b: string, sep: char)
    ensures Split(a + [sep] + b, sep) == Split(a, sep) + Split(b, sep)
    decreases |a|
  {
    if sep !in a {
      SplitHead(a, b, sep);
      assert Split(a, sep) == [a];
    } else {
      var k := Find(a, sep);
      var head, rest := a[..k], a[k + 1..];
      assert a + [sep] + b == head + [sep] + (rest + [sep] + b);
      SplitHead(head, rest + [sep] + b, sep);
      SplitConcat(rest, b, sep);
      ConsConcat(head, Split(rest, sep), Split(b, sep));
    }
  }

  /** Regrouping a cons with a concatenation, stated once so that sequences of strings
      need no element-wise comparison. */
  lemma ConsConcat<T>(h: T, x: seq<T>, y: seq<T>)
    ensures [h] + (x + y) == ([h] + x) + y
  {
  }

  /** A first part without `sep` is split off whole. */
  lemma SplitHead(head: string, tail: string, sep: char)
    requires sep !in head
    ensures Split(head + [sep] + tail, sep) == [head] + Split(tail, sep)
  {
    var s := head + [sep] + tail;
    assert s == head + ([sep] + tail);
    assert Find([sep] + tail, sep) == 0;
    FindConcat(head, [sep] + tail, sep);
    assert s[..|head|] == head && s[|head| + 1..] == tail;
  }

  /** `c.lower()` restricted to ASCII letters. */
  function LowerChar(c: char): (r: char)
    ensures 'A' <= c <= 'Z' ==> 'a' <= r <= 'z' && r as int == c as int + 32
    ensures !('A' <= c <= 'Z') ==> r == c
  {
    if 'A' <= c <= 'Z' then (c as int + 32) as char else c
  }

  function Lower(s: string): (r: string)
    ensures |r| == |s|
    ensures forall i :: 0 <= i < |s| ==> r[i] == LowerChar(s[i])
  {
    seq(|s|, i requires 0 <= i < |s| => LowerChar(s[i]))
  }

  predicate IsDigit(c: char)
  {
    '0' <= c <= '9'
  }

  function DigitChar(d: nat): (c: char)
    requires d < 10
    ensures IsDigit(c) && (c as int) - ('0' as int) == d
  {
    ('0' as int + d) as char
  }

  /** The decimal rendering of a natural number, as `str(n)` and `String(n)` print it. */
  function NatToString(n: nat): (r: string)
    ensures |r| >= 1
    ensures forall i :: 0 <= i < |r| ==> IsDigit(r[i])
    ensures |r| > 1 ==> r[0] != '0'
  {
    if n < 10 then [DigitChar(n)] else NatToString(n / 10) + [DigitChar(n % 10)]
  }

  /** The decimal rendering of an integer, with a leading '-' when it is negative. */
  function IntToString(n: int): (r: string)
    ensures |r| >= 1
    ensures (r[0] == '-') <==> n < 0
  {
    if n < 0 then "-" + NatToString(-n) else NatToString(n)
  }

  /** The value of a string of decimal digits, read most significant first. */
  function DigitsValue(ds: string): nat
    requires forall i :: 0 <= i < |ds| ==> IsDigit(ds[i])
  {
    if ds == [] then 0
    else
      assert IsDigit(ds[|ds| - 1]);
      DigitsValue(ds[..|ds| - 1]) * 10 + ((ds[|ds| - 1] as int) - ('0' as int))
  }

  /** The length of the longest run of digits at the front of `s`. */
  function DigitRun(s: string): (k: nat)
    ensures k <= |s|
    ensures forall i :: 0 <= i < k ==> IsDigit(s[i])
    ensures k < |s| ==> !IsDigit(s[k])
  {
    if |s| > 0 && IsDigit(s[0]) then 1 + DigitRun(s[1..]) else 0
  }

  /** JavaScript's `parseInt(s)` without a radix: leading whitespace and one optional sign
      are skipped; after a "0x" or "0X" prefix the longest run of hexadecimal digits is
      read, and otherwise the longest run of decimal digits. `None` stands for `NaN`. */
  function ParseInt(s: string): (r: Option<int>)
    ensures var u := SignFree(LStrip(s, Whitespace));
            r.None? <==> (if HexPrefixed(u) then HexRun(u[2..]) == 0 else DigitRun(u) == 0)
  {
    var t := LStrip(s, Whitespace);
    var negative := |t| > 0 && t[0] == '-';
    var u := SignFree(t);
    var magnitude := if HexPrefixed(u) then HexMagnitude(u[2..]) else DecimalMagnitude(u);
    match magnitude
    case None => None
    case Some(v) => Some(if negative then -(v as int) else v as int)
  }

  /** The value of the leading decimal digits, if there are any. */
  function DecimalMagnitude(u: string): (m: Option<nat>)
    ensures m.None? <==> DigitRun(u) == 0
    ensures m.Some? ==> m.value == DigitsValue(u[..DigitRun(u)])
  {
    var k := DigitRun(u);
    if k == 0 then None else Some(DigitsValue(u[..k]))
  }

  /** The value of the leading hexadecimal digits, if there are any. */
  function HexMagnitude(h: string): (m: Option<nat>)
    ensures m.None? <==> HexRun(h) == 0
    ensures m.Some? ==> m.value == HexValue(h[..HexRun(h)])
  {
    var k := HexRun(h);
    if k == 0 then None else Some(HexValue(h[..k]))
  }

  /** The "0x"/"0X" prefix that switches `parseInt` to base 16. */
  predicate HexPrefixed(u: string)
  {
    |u| >= 2 && u[0] == '0' && (u[1] == 'x' || u[1] == 'X')
  }

  predicate IsHexDigit(c: char)
  {
    IsDigit(c) || 'a' <= c <= 'f' || 'A' <= c <= 'F'
  }

  function HexDigitValue(c: char): (d: nat)
    requires IsHexDigit(c)
    ensures d < 16
    ensures IsDigit(c) <==> d < 10
  {
    if IsDigit(c) then c as int - '0' as int
    else if 'a' <= c <= 'f' then c as int - 'a' as int + 10
    else c as int - 'A' as int + 10
  }

  /** The length of the longest run of hexadecimal digits at the front of `s`. */
  function HexRun(s: string): (k: nat)
    ensures k <= |s|
    ensures forall i :: 0 <= i < k ==> IsHexDigit(s[i])
    ensures k < |s| ==> !IsHexDigit(s[k])
  {
    if |s| > 0 && IsHexDigit(s[0]) then 1 + HexRun(s[1..]) else 0
  }

  /** The value of a string of hexadecimal digits, read most significant first. */
  function HexValue(hs: string): nat
    requires forall i :: 0 <= i < |hs| ==> IsHexDigit(hs[i])
  {
    if hs == [] then 0
    else
      assert IsHexDigit(hs[|hs| - 1]);
      HexValue(hs[..|hs| - 1]) * 16 + HexDigitValue(hs[|hs| - 1])
  }

  function SignFree(t: string): string
  {
    if |t| > 0 && (t[0] == '-' || t[0] == '+') then t[1..] else t
  }

  /** Reading back a rendered natural number gives the number. */
  lemma {:induction false} ParseIntOfNatToString(n: nat)
    ensures ParseInt(NatToString(n)) == Some(n)
  {
    var s := NatToString(n);
    assert LStrip(s, Whitespace) == s by {
      assert s[0] !in Whitespace by { assert IsDigit(s[0]); }
    }
    assert SignFree(s) == s by { assert IsDigit(s[0]); }
    DigitRunAll(s);
    assert s[..|s|] == s;
    DigitsValueOfNatToString(n);
  }

  /** Reading back a rendered integer, negative ones included, gives the integer. */
  lemma IntToStringRoundTrip(n: int)
    ensures ParseInt(IntToString(n)) == Some(n)
  {
    if n >= 0 {
      ParseIntOfNatToString(n);
    } else {
      var d := NatToString(-n);
      var s := "-" + d;
      assert LStrip(s, Whitespace) == s by { assert s[0] !in Whitespace; }
      assert SignFree(s) == d by { assert s[1..] == d; }
      DigitRunAll(d);
      assert d[..|d|] == d;
      DigitsValueOfNatToString(-n);
    }
  }

  /** After a "0x" or "0X" prefix the digits are read in base 16. */
  lemma ParseIntOfHex(s: string)
    requires HexPrefixed(s) && |s| > 2
    requires forall i :: 2 <= i < |s| ==> IsHexDigit(s[i])
    ensures ParseInt(s) == Some(HexValue(s[2..]))
  {
    var hs := s[2..];
    assert LStrip(s, Whitespace) == s by { assert s[0] !in Whitespace; }
    assert HexMagnitude(hs) == Some(HexValue(hs)) by {
      HexRunAll(hs);
      assert hs[..|hs|] == hs;
    }
    HexPrefixedParse(s, HexValue(hs));
  }

  /** So `parseInt("0x10")` is sixteen, not zero. */
  lemma HexTen()
    ensures ParseInt("0x10") == Some(16)
  {
    var s := "0x10";
    assert HexPrefixed(s) && IsHexDigit(s[2]) && IsHexDigit(s[3]);
    ParseIntOfHex(s);
    assert s[2..] == "10" && "10"[..1] == "1" && "1"[..0] == "";
    assert HexValue("1") == 1;
  }

  lemma HexPrefixedParse(s: string, v: nat)
    requires LStrip(s, Whitespace) == s && HexPrefixed(s) && HexMagnitude(s[2..]) == Some(v)
    ensures ParseInt(s) == Some(v)
  {
  }

  lemma {:induction false} HexRunAll(s: string)
    requires forall i :: 0 <= i < |s| ==> IsHexDigit(s[i])
    ensures HexRun(s) == |s|
    decreases |s|
  {
    if |s| > 0 {
      HexRunAll(s[1..]);
    }
  }

  lemma {:induction false} DigitRunAll(s: string)
    requires forall i :: 0 <= i < |s| ==> IsDigit(s[i])
    ensures DigitRun(s) == |s|
    decreases |s|
  {
    if |s| > 0 {
      DigitRunAll(s[1..]);
    }
  }

  lemma {:induction false} DigitsValueOfNatToString(n: nat)
    ensures DigitsValue(NatToString(n)) == n
  {
    var s := NatToString(n);
    if n >= 10 {
      DigitsValueOfNatToString(n / 10);
      assert s[..|s| - 1] == NatToString(n / 10);
    }
  }
}
