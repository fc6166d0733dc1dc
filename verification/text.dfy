/** String operations the dashboard borrows from JavaScript: `trim`, `toLowerCase`, `join`,
    `substring`, `padStart`, and the decimal rendering of numbers in template literals.
    Each is given a definition here and the properties the rest of the model relies on.
 */
module Text {
  import opened Basics

  // ---------------------------------------------------------------------------------------
  // Whitespace and trim
  // ---------------------------------------------------------------------------------------

  /** The characters `String.prototype.trim` strips: ECMAScript WhiteSpace and LineTerminator. */
  predicate IsWhitespace(c: char)
  {
    || c == ' ' || c == '\t' || c == '\n' || c == '\r'
    || c as int == 0x0B || c as int == 0x0C || c as int == 0xA0 || c as int == 0xFEFF
    || c as int == 0x1680 || 0x2000 <= c as int <= 0x200A
    || c as int == 0x2028 || c as int == 0x2029
    || c as int == 0x202F || c as int == 0x205F || c as int == 0x3000
  }

  predicate AllWhitespace(s: string)
  {
    forall i :: 0 <= i < |s| ==> IsWhitespace(s[i])
  }

  /** No whitespace at either end (the shape of every `trim` result). */
  predicate Trimmed(s: string)
  {
    s == [] || (!IsWhitespace(s[0]) && !IsWhitespace(s[|s| - 1]))
  }

  /** Drops leading whitespace: what is left is a suffix, and what was dropped is whitespace. */
  function TrimStart(s: string): (r: string)
    ensures |r| <= |s| && r == s[|s| - |r|..]
    ensures AllWhitespace(s[..|s| - |r|])
    ensures r == [] || !IsWhitespace(r[0])
    decreases |s|
  {
    if |s| > 0 && IsWhitespace(s[0]) then
      var r := TrimStart(s[1..]);
      assert s[|s| - |r|..] == s[1..][|s| - 1 - |r|..];
      assert s[..|s| - |r|] == [s[0]] + s[1..][..|s| - 1 - |r|];
      r
    else s
  }

  /** Drops trailing whitespace: what is left is a prefix, and what was dropped is whitespace. */
  function TrimEnd(s: string): (r: string)
    ensures |r| <= |s| && r == s[..|r|]
    ensures AllWhitespace(s[|r|..])
    ensures r == [] || !IsWhitespace(r[|r| - 1])
    decreases |s|
  {
    if |s| > 0 && IsWhitespace(s[|s| - 1]) then
      var r := TrimEnd(s[..|s| - 1]);
      assert s[..|r|] == s[..|s| - 1][..|r|];
      assert s[|r|..] == s[..|s| - 1][|r|..] + [s[|s| - 1]];
      r
    else s
  }

  /** `s.trim()`.  The result is empty exactly when `s` is all whitespace, so JavaScript's
      truthiness test `if (s.trim())` is `Trim(s) != []`. */
  function Trim(s: string): (r: string)
    ensures |r| <= |s|
    ensures Trimmed(r)
    ensures r == [] <==> AllWhitespace(s)
  {
    var a := TrimStart(s);
    var r := TrimEnd(a);
    assert r == [] ==> AllWhitespace(s) by {
      if r == [] {
        assert AllWhitespace(a);
        assert s == s[..|s| - |a|] + a;
      }
    }
    assert AllWhitespace(s) ==> a == [];
    r
  }

  lemma {:induction false} TrimStartPadded(pre: string, b: string)
    requires AllWhitespace(pre)
    requires b != [] && !IsWhitespace(b[0])
    ensures TrimStart(pre + b) == b
    decreases |pre|
  {
    if pre == [] {
      assert pre + b == b;
    } else {
      assert (pre + b)[0] == pre[0];
      assert (pre + b)[1..] == pre[1..] + b;
      TrimStartPadded(pre[1..], b);
    }
  }

  lemma {:induction false} TrimEndPadded(b: string, post: string)
    requires AllWhitespace(post)
    requires b != [] && !IsWhitespace(b[|b| - 1])
    ensures TrimEnd(b + post) == b
    decreases |post|
  {
    if post == [] {
      assert b + post == b;
    } else {
      var n := |b + post|;
      assert (b + post)[n - 1] == post[|post| - 1];
      assert (b + post)[..n - 1] == b + post[..|post| - 1];
      TrimEndPadded(b, post[..|post| - 1]);
    }
  }

  /** Trim is characterised by its shape: whitespace around a trimmed core is exactly what it
      strips.  In particular trimming is idempotent (take `pre` and `post` empty). */
  lemma TrimPadded(pre: string, b: string, post: string)
    requires AllWhitespace(pre) && AllWhitespace(post)
    requires Trimmed(b)
    ensures Trim(pre + b + post) == b
  {
    if b == [] {
      assert pre + b + post == pre + post;
      assert AllWhitespace(pre + post) by {
        forall i | 0 <= i < |pre + post|
          ensures IsWhitespace((pre + post)[i])
        {
          if i < |pre| {
            assert (pre + post)[i] == pre[i];
          } else {
            assert (pre + post)[i] == post[i - |pre|];
          }
        }
      }
    } else {
      assert pre + b + post == pre + (b + post);
      assert (b + post)[0] == b[0];
      TrimStartPadded(pre, b + post);
      TrimEndPadded(b, post);
    }
  }

  lemma TrimIdempotent(s: string)
    ensures Trim(Trim(s)) == Trim(s)
  {
    var t := Trim(s);
    assert TrimStart(t) == t;
    assert TrimEnd(t) == t;
  }

  // ---------------------------------------------------------------------------------------
  // ASCII lower-casing
  // ---------------------------------------------------------------------------------------

  function LowerChar(c: char): char
  {
    if 'A' <= c <= 'Z' then (c as int + 32) as char else c
  }

  /** `s.toLowerCase()` restricted to the ASCII letters. */
  function Lower(s: string): (r: string)
    ensures |r| == |s|
    ensures forall i :: 0 <= i < |r| ==> !('A' <= r[i] <= 'Z')
    ensures forall i :: 0 <= i < |r| ==> (r[i] == s[i] || 'A' <= s[i] <= 'Z')
    ensures forall i :: 0 <= i < |s| && 'A' <= s[i] <= 'Z' ==> r[i] as int == s[i] as int + 32
  {
    seq(|s|, i requires 0 <= i < |s| => LowerChar(s[i]))
  }

  lemma LowerIdempotent(s: string)
    ensures Lower(Lower(s)) == Lower(s)
  {
  }

  /** The case-insensitive comparison `a.toLowerCase() === b.toLowerCase()`. */
  predicate SameIgnoringCase(a: string, b: string)
  {
    Lower(a) == Lower(b)
  }

  // ---------------------------------------------------------------------------------------
  // join, and its inverse for items free of the separator
  // ---------------------------------------------------------------------------------------

  /** `xs.join(sep)`. */
  function Join(xs: seq<string>, sep: string): string
  {
    if |xs| == 0 then "" else if |xs| == 1 then xs[0] else xs[0] + sep + Join(xs[1..], sep)
  }

  /** Joining a mapped list: one element gives its image; each further element adds the
      separator and its image. */
  lemma JoinMapSnoc<T>(f: T -> string, xs: seq<T>, x: T, sep: string)
    ensures Join(Map(f, [x]), sep) == f(x)
    ensures |xs| > 0 ==> Join(Map(f, xs + [x]), sep) == Join(Map(f, xs), sep) + sep + f(x)
  {
    assert Map(f, [x]) == [f(x)];
    if |xs| > 0 {
      MapSnoc(f, xs, x);
      JoinSnoc(Map(f, xs), f(x), sep);
    }
  }

  lemma {:induction false} JoinSnoc(xs: seq<string>, y: string, sep: string)
    requires |xs| > 0
    ensures Join(xs + [y], sep) == Join(xs, sep) + sep + y
    decreases |xs|
  {
    if |xs| == 1 {
      assert xs + [y] == [xs[0], y];
      assert (xs + [y])[1..] == [y];
    } else {
      assert (xs + [y])[1..] == xs[1..] + [y];
      JoinSnoc(xs[1..], y, sep);
    }
  }

  /** The position of the first `c` in `s`, if any. */
  function IndexOf(s: string, c: char): (r: Option<nat>)
    ensures r.None? ==> c !in s
    ensures r.Some? ==> r.value < |s| && s[r.value] == c
    ensures r.Some? ==> forall j :: 0 <= j < r.value ==> s[j] != c
    decreases |s|
  {
    if |s| == 0 then None
    else if s[0] == c then Some(0)
    else match IndexOf(s[1..], c)
      case None => None
      case Some(k) => Some(k + 1)
  }

  /** Cuts `s` at every occurrence of `sep`, scanning for its first character. */
  function Split(s: string, sep: string): seq<string>
    requires |sep| > 0
    decreases |s|
  {
    match IndexOf(s, sep[0])
    case None => [s]
    case Some(i) =>
      if i + |sep| <= |s| && s[i..i + |sep|] == sep then [s[..i]] + Split(s[i + |sep|..], sep)
      else [s]
  }

  /** The first `c` in `a + b` is the head of `b` when `a` has none. */
  lemma IndexOfAfter(a: string, b: string, c: char)
    requires c !in a && |b| > 0 && b[0] == c
    ensures IndexOf(a + b, c) == Some(|a|)
  {
    var s := a + b;
    assert s[|a|] == c;
    assert forall j :: 0 <= j < |a| ==> s[j] == a[j];
  }

  /** `join` loses nothing when no item contains the separator's first character. */
  lemma {:induction false} SplitJoin(xs: seq<string>, sep: string)
    requires |sep| > 0 && |xs| > 0
    requires forall i :: 0 <= i < |xs| ==> sep[0] !in xs[i]
    ensures Split(Join(xs, sep), sep) == xs
    decreases |xs|
  {
    if |xs| == 1 {
      assert Join(xs, sep) == xs[0];
    } else {
      var rest := Join(xs[1..], sep);
      var k := |xs[0]|;
      var s := xs[0] + (sep + rest);
      assert Join(xs, sep) == s;
      IndexOfAfter(xs[0], sep + rest, sep[0]);
      assert s[k..k + |sep|] == sep;
      assert s[..k] == xs[0];
      assert s[k + |sep|..] == rest;
      assert Split(s, sep) == [xs[0]] + Split(rest, sep);
      SplitJoin(xs[1..], sep);
      assert [xs[0]] + xs[1..] == xs;
    }
  }

  /** The `[a, b, c]` rendering of a watch-list inside a prompt. */
  function BracketList(xs: seq<string>): (r: string)
    ensures |r| >= 2
  {
    "[" + Join(xs, ", ") + "]"
  }

  /** A bracketed list can be read back when no entry contains a comma. */
  lemma BracketListRoundTrip(xs: seq<string>)
    requires |xs| > 0
    requires forall i :: 0 <= i < |xs| ==> ',' !in xs[i]
    ensures var b := BracketList(xs); Split(b[1..|b| - 1], ", ") == xs
  {
    var b := BracketList(xs);
    assert b[1..|b| - 1] == Join(xs, ", ");
    SplitJoin(xs, ", ");
  }

  /** Without those conditions the rendering is ambiguous: an empty list and the list holding
      one empty entry render alike, and an entry with `", "` inside renders like two. */
  lemma BracketListAmbiguous()
    ensures BracketList([]) == BracketList([""]) == "[]"
    ensures BracketList(["Co., Ltd."]) == BracketList(["Co.", "Ltd."])
  {
    assert Join(["Co.", "Ltd."], ", ") == "Co." + ", " + Join(["Ltd."], ", ");
  }

  /** Concatenation of a sequence of strings, built by appending at the end. */
  function Concat(xs: seq<string>): string
  {
    if |xs| == 0 then "" else Concat(xs[..|xs| - 1]) + xs[|xs| - 1]
  }

  // ---------------------------------------------------------------------------------------
  // substring(0, n)
  // ---------------------------------------------------------------------------------------

  /** `s.substring(0, n)`: the first `n` characters, or all of `s` when it is shorter. */
  function Prefix(s: string, n: nat): (r: string)
    ensures |r| <= n && r <= s
    ensures |s| <= n ==> r == s
    ensures |s| > n ==> |r| == n
  {
    if |s| <= n then s else s[..n]
  }

  // ---------------------------------------------------------------------------------------
  // decimal numbers
  // ---------------------------------------------------------------------------------------

  predicate IsDigit(c: char)
  {
    '0' <= c <= '9'
  }

  predicate AllDigits(s: string)
  {
    forall i :: 0 <= i < |s| ==> IsDigit(s[i])
  }

  function DigitChar(d: nat): (c: char)
    requires d < 10
    ensures IsDigit(c)
  {
    ('0' as int + d) as char
  }

  function DigitValue(c: char): (d: nat)
    requires IsDigit(c)
    ensures d < 10 && DigitChar(d) == c
  {
    c as int - '0' as int
  }

  /** The decimal rendering of a natural number, as `${n}` produces it. */
  function NatToString(n: nat): (r: string)
    ensures |r| >= 1 && AllDigits(r)
    ensures |r| > 1 ==> r[0] != '0'
    decreases n
  {
    if n < 10 then [DigitChar(n)] else NatToString(n / 10) + [DigitChar(n % 10)]
  }

  /** `${i}` for an integer: an optional minus sign, then the digits of its magnitude. */
  function IntToString(i: int): (r: string)
    ensures |r| >= 1
    ensures r[0] == '-' <==> i < 0
    ensures i < 0 ==> AllDigits(r[1..]) && ParseNat(r[1..]) == -i
    ensures i >= 0 ==> AllDigits(r) && ParseNat(r) == i
  {
    if i < 0 then
      ParseNatToString(-i);
      assert ("-" + NatToString(-i))[1..] == NatToString(-i);
      "-" + NatToString(-i)
    else
      ParseNatToString(i);
      NatToString(i)
  }

  /** Reads a string of decimal digits back (leading zeros allowed). */
  function ParseNat(s: string): nat
    requires AllDigits(s)
    decreases |s|
  {
    if |s| == 0 then 0 else 10 * ParseNat(s[..|s| - 1]) + DigitValue(s[|s| - 1])
  }

  lemma {:induction false} ParseNatToString(n: nat)
    ensures ParseNat(NatToString(n)) == n
    decreases n
  {
    if n >= 10 {
      var s := NatToString(n);
      assert s[..|s| - 1] == NatToString(n / 10);
      ParseNatToString(n / 10);
    }
  }

  lemma {:induction false} ParseNatLeadingZero(s: string)
    requires AllDigits(s)
    ensures AllDigits("0" + s) && ParseNat("0" + s) == ParseNat(s)
    decreases |s|
  {
    var t := "0" + s;
    if |s| > 0 {
      assert t[..|t| - 1] == "0" + s[..|s| - 1];
      ParseNatLeadingZero(s[..|s| - 1]);
    } else {
      assert t[..|t| - 1] == "";
    }
  }

  lemma NatToStringLength(n: nat)
    ensures n < 10 ==> |NatToString(n)| == 1
    ensures 10 <= n < 100 ==> |NatToString(n)| == 2
    ensures 100 <= n < 1000 ==> |NatToString(n)| == 3
    ensures 1000 <= n < 10000 ==> |NatToString(n)| == 4
  {
    if n >= 10 {
      NatToStringLength(n / 10);
    }
  }

  // ---------------------------------------------------------------------------------------
  // padStart
  // ---------------------------------------------------------------------------------------

  /** `s.padStart(width, fill)` with a one-character fill string. */
  function PadStart(s: string, width: nat, fill: char): (r: string)
    ensures |r| == if |s| >= width then |s| else width
    ensures r[|r| - |s|..] == s
    ensures forall i :: 0 <= i < |r| - |s| ==> r[i] == fill
  {
    if |s| >= width then s else seq(width - |s|, _ => fill) + s
  }

  /** `String(n).padStart(2, '0')`. */
  function TwoDigits(n: nat): string
  {
    PadStart(NatToString(n), 2, '0')
  }

  /** The value of a two-character digit field. */
  function TwoDigitValue(f: string): nat
    requires |f| == 2 && AllDigits(f)
  {
    10 * DigitValue(f[0]) + DigitValue(f[1])
  }

  /** On two digits, the fixed-width reading agrees with the general one. */
  lemma TwoDigitValueIsParseNat(f: string)
    requires |f| == 2 && AllDigits(f)
    ensures TwoDigitValue(f) == ParseNat(f)
  {
    var g := f[..1];
    assert g[..0] == [] && g[0] == f[0];
    assert ParseNat(g) == DigitValue(f[0]);
    assert f[..|f| - 1] == g;
  }

  /** A two-digit field is exactly two digits wide and reads back as the number it renders. */
  lemma TwoDigitsRoundTrip(n: nat)
    requires n < 100
    ensures |TwoDigits(n)| == 2 && AllDigits(TwoDigits(n))
    ensures TwoDigitValue(TwoDigits(n)) == n
  {
    TwoDigitsParse(n);
    TwoDigitValueIsParseNat(TwoDigits(n));
  }

  /** The same through the general reading of a digit string. */
  lemma TwoDigitsParse(n: nat)
    requires n < 100
    ensures |TwoDigits(n)| == 2 && AllDigits(TwoDigits(n))
    ensures ParseNat(TwoDigits(n)) == n
  {
    NatToStringLength(n);
    ParseNatToString(n);
    var s := NatToString(n);
    if n < 10 {
      assert TwoDigits(n) == "0" + s;
      ParseNatLeadingZero(s);
    }
  }
}
